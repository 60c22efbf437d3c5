/** Watch subscriptions of the bot bridge: mutated under one lock, persisted under another.

A command mutates the table and takes a numbered snapshot under `mu`, persists the snapshot under
`persistMu` unless a newer one is on disk already, and only then clears the dirty mark. A runtime
refresh reads the version, reads the config, and seeds the table if nothing changed meanwhile.
*/
module WatchPersist {
  import opened BotRoutes

  type Snapshot = map<string, Route>

  /** The fields of the hub. */
  datatype Hub = Hub(watchers: Snapshot, watchSeq: nat, watchPersistDirty: bool, lastPersistSeq: nat)

  function Mutated(h: Hub, route: Route, enable: bool): Hub {
    Hub(if enable then h.watchers[Key(route) := route] else h.watchers - {Key(route)}, h.watchSeq + 1, true, h.lastPersistSeq)
  }

  function Kept(routes: Snapshot): Snapshot {
    map k | k in routes && !Blank(routes[k].chatID) :: routes[k]
  }

  function Persisted(h: Hub, seqno: nat, saves: bool): Hub {
    if seqno > h.lastPersistSeq && saves then h.(lastPersistSeq := seqno) else h
  }

  function Cleared(h: Hub, seqno: nat): Hub {
    h.(watchPersistDirty := h.watchPersistDirty && h.watchSeq != seqno)
  }

  function Seeded(h: Hub, routes: Snapshot, expectedSeq: nat): Hub {
    if h.watchSeq != expectedSeq || h.watchPersistDirty then h else h.(watchers := Kept(routes))
  }

  class BotBridgeHub {
    var watchers: Snapshot
    var watchSeq: nat
    var watchPersistDirty: bool
    var lastPersistSeq: nat

    function State(): Hub
      reads this
    {
      Hub(watchers, watchSeq, watchPersistDirty, lastPersistSeq)
    }

    constructor ()
      ensures State() == Hub(map[], 0, false, 0)
    {
      watchers, watchSeq, watchPersistDirty, lastPersistSeq := map[], 0, false, 0;
    }

    /** First section of a watch command, under `mu`. */
    method Mutate(route: Route, enable: bool) returns (seqno: nat, routes: Snapshot)
      modifies this
      ensures State() == Mutated(old(State()), route, enable)
      ensures seqno == watchSeq && routes == watchers
    {
      if enable {
        watchers := watchers[Key(route) := route];
      } else {
        watchers := watchers - {Key(route)};
      }
      watchSeq := watchSeq + 1;
      watchPersistDirty := true;
      return watchSeq, watchers;
    }

    /** Second section, under `persistMu`: `wrote` tells whether the snapshot went to disk. */
    method Persist(seqno: nat, saves: bool) returns (wrote: bool, failed: bool)
      modifies this`lastPersistSeq
      ensures State() == Persisted(old(State()), seqno, saves)
      ensures lastPersistSeq == if wrote then seqno else old(lastPersistSeq)
      ensures wrote == (seqno > old(lastPersistSeq) && saves) && failed == (seqno > old(lastPersistSeq) && !saves)
    {
      if seqno <= lastPersistSeq {
        return false, false;
      }
      if !saves {
        return false, true;
      }
      lastPersistSeq := seqno;
      return true, false;
    }

    /** Third section, under `mu` with `persistMu` still held. */
    method ClearDirty(seqno: nat)
      modifies this`watchPersistDirty
      ensures State() == Cleared(old(State()), seqno)
    {
      if watchSeq == seqno {
        watchPersistDirty := false;
      }
    }

    /** Applies a config snapshot read at version `expectedSeq`. */
    method SeedWatchers(routes: Snapshot, expectedSeq: nat)
      modifies this`watchers
      ensures State() == Seeded(old(State()), routes, expectedSeq)
    {
      if watchSeq != expectedSeq || watchPersistDirty {
        return;
      }
      watchers := map k | k in routes && !Blank(routes[k].chatID) :: routes[k];
    }
  }

  // ---- All interleavings --------------------------------------------------------------

  datatype Phase =
    | Snapped(seqno: nat, routes: Snapshot)   // mutated, waiting for persistMu
    | Wrote(seqno: nat)                       // on disk, persistMu held, not cleared yet
    | Versioned(version: nat, clean: bool)    // refresh: version read; clean is whether the table was clean then
    | Loaded(version: nat, clean: bool, routes: Snapshot, writes: nat)   // `writes`: how many snapshots were on disk before
    | Finished

  /** `history[n - 1]` is the table after the n-th command; `log` lists what was written, in order. */
  datatype System = System(hub: Hub, disk: Snapshot, callers: map<nat, Phase>, history: seq<Snapshot>, log: seq<nat>)

  datatype Action =
    | SetWatch(t: nat, route: Route, enable: bool)
    | PersistTo(t: nat, saves: bool)
    | Clear(t: nat)
    | ReadVersion(t: nat)
    | ReadConfig(t: nat)
    | Seed(t: nat)

  /** `persistMu` is held exactly between a write and the clearing that follows it. */
  ghost predicate PersistFree(s: System) {
    forall t | t in s.callers :: !s.callers[t].Wrote?
  }

  ghost predicate Enabled(s: System, a: Action) {
    match a
    case SetWatch(t, _, _) => t !in s.callers
    case PersistTo(t, _) => t in s.callers && s.callers[t].Snapped? && PersistFree(s)
    case Clear(t) => t in s.callers && s.callers[t].Wrote?
    case ReadVersion(t) => t !in s.callers
    case ReadConfig(t) => t in s.callers && s.callers[t].Versioned?
    case Seed(t) => t in s.callers && s.callers[t].Loaded? && PersistFree(s)
  }

  ghost function Step(s: System, a: Action): System
    requires Enabled(s, a)
  {
    match a
    case SetWatch(t, route, enable) =>
      var hub := Mutated(s.hub, route, enable);
      s.(hub := hub, history := s.history + [hub.watchers], callers := s.callers[t := Snapped(hub.watchSeq, hub.watchers)])
    case PersistTo(t, saves) =>
      var p := s.callers[t];
      if p.seqno <= s.hub.lastPersistSeq || !saves then s.(callers := s.callers[t := Finished])
      else System(Persisted(s.hub, p.seqno, saves), p.routes, s.callers[t := Wrote(p.seqno)], s.history, s.log + [p.seqno])
    case Clear(t) =>
      s.(hub := Cleared(s.hub, s.callers[t].seqno), callers := s.callers[t := Finished])
    case ReadVersion(t) =>
      s.(callers := s.callers[t := Versioned(s.hub.watchSeq, !s.hub.watchPersistDirty)])
    case ReadConfig(t) =>
      s.(callers := s.callers[t := Loaded(s.callers[t].version, s.callers[t].clean, s.disk, |s.log|)])
    case Seed(t) =>
      var p := s.callers[t];
      s.(hub := Seeded(s.hub, p.routes, p.version), callers := s.callers[t := Finished])
  }

  function Initial(disk: Snapshot): System {
    System(Hub(map[], 0, false, 0), disk, map[], [], [])
  }

  ghost predicate Run(disk: Snapshot, actions: seq<Action>, states: seq<System>) {
    |states| == |actions| + 1 && states[0] == Initial(disk) &&
    forall i | 0 <= i < |actions| :: Enabled(states[i], actions[i]) && states[i + 1] == Step(states[i], actions[i])
  }

  /** The disk after the first `n` writes. */
  ghost function DiskAfter(disk0: Snapshot, s: System, n: nat): Snapshot
    requires n <= |s.log|
  {
    if n == 0 then disk0 else if 0 < s.log[n - 1] <= |s.history| then s.history[s.log[n - 1] - 1] else disk0
  }

  ghost predicate PhaseOk(disk0: Snapshot, s: System, p: Phase) {
    match p
    case Snapped(seqno, routes) => 0 < seqno <= |s.history| && routes == s.history[seqno - 1]
    case Wrote(seqno) => seqno == s.hub.lastPersistSeq
    case Versioned(version, clean) =>
      version <= s.hub.watchSeq && (clean && version == s.hub.watchSeq ==> !s.hub.watchPersistDirty)
    case Loaded(version, clean, routes, writes) =>
      writes <= |s.log| && routes == DiskAfter(disk0, s, writes) &&
      version <= s.hub.watchSeq && (clean && version == s.hub.watchSeq ==> !s.hub.watchPersistDirty && routes == s.disk)
    case Finished => true
  }

  ghost predicate PhasesOk(disk0: Snapshot, s: System) {
    forall t | t in s.callers :: PhaseOk(disk0, s, s.callers[t])
  }

  ghost predicate OneWriter(s: System) {
    forall t, u | t in s.callers && u in s.callers && s.callers[t].Wrote? && s.callers[u].Wrote? :: t == u
  }

  ghost predicate Increasing(log: seq<nat>) {
    forall i, j | 0 <= i < j < |log| :: log[i] < log[j]
  }

  ghost predicate LogOk(disk0: Snapshot, s: System) {
    s.hub.watchSeq == |s.history| && s.hub.lastPersistSeq <= s.hub.watchSeq && Increasing(s.log) &&
    (forall n | 0 <= n < |s.log| :: 0 < s.log[n] <= |s.history|) &&
    (s.log == [] ==> s.hub.lastPersistSeq == 0 && s.disk == disk0) &&
    (s.log != [] ==> s.log[|s.log| - 1] == s.hub.lastPersistSeq > 0 && s.disk == s.history[s.hub.lastPersistSeq - 1]) &&
    (!s.hub.watchPersistDirty ==> s.hub.lastPersistSeq == s.hub.watchSeq)
  }

  ghost predicate Inv(disk0: Snapshot, s: System) {
    PhasesOk(disk0, s) && OneWriter(s) && LogOk(disk0, s)
  }

  /** What the phase of a caller relies on, when others move. */
  lemma PhaseStands(disk0: Snapshot, s: System, s': System, p: Phase)
    requires PhaseOk(disk0, s, p) && s.history <= s'.history && s.log <= s'.log && s.hub.watchSeq <= s'.hub.watchSeq
    requires forall n | 0 <= n < |s.log| :: 0 < s.log[n] <= |s.history|
    requires p.Wrote? ==> s'.hub.lastPersistSeq == s.hub.lastPersistSeq
    requires s'.hub.watchSeq == s.hub.watchSeq && !s.hub.watchPersistDirty ==> !s'.hub.watchPersistDirty && s'.disk == s.disk
    ensures PhaseOk(disk0, s', p)
  {
  }

  lemma CommandKeepsInv(disk0: Snapshot, s: System, a: Action)
    requires Inv(disk0, s) && Enabled(s, a) && (a.SetWatch? || a.PersistTo?)
    ensures Inv(disk0, Step(s, a))
  {
    hide Key, Increasing, DiskAfter, PhaseOk;
    var s' := Step(s, a);
    CommandKeepsLog(disk0, s, a);
    assert PhaseOk(disk0, s', s'.callers[a.t]) by { CommandKeepsOwn(disk0, s, a); }
    forall t | t in s.callers && t != a.t ensures PhaseOk(disk0, s', s.callers[t]) {
      PhaseStands(disk0, s, s', s.callers[t]);
    }
  }

  lemma CommandKeepsOwn(disk0: Snapshot, s: System, a: Action)
    requires Inv(disk0, s) && Enabled(s, a) && (a.SetWatch? || a.PersistTo?)
    ensures PhaseOk(disk0, Step(s, a), Step(s, a).callers[a.t])
  {
    hide Key, Increasing, DiskAfter;
  }

  lemma CommandKeepsLog(disk0: Snapshot, s: System, a: Action)
    requires Inv(disk0, s) && Enabled(s, a) && (a.SetWatch? || a.PersistTo?)
    ensures LogOk(disk0, Step(s, a)) && OneWriter(Step(s, a))
  {
    hide Key, Increasing, DiskAfter;
    var s' := Step(s, a);
    if a.PersistTo? {
      assert PhaseOk(disk0, s, s.callers[a.t]);
      if s'.log != s.log {
        Appended(s.log, s.callers[a.t].seqno);
      }
    }
  }

  lemma Appended(log: seq<nat>, n: nat)
    requires Increasing(log) && (log != [] ==> log[|log| - 1] < n)
    ensures Increasing(log + [n])
  {
  }

  lemma OtherKeepsInv(disk0: Snapshot, s: System, a: Action)
    requires Inv(disk0, s) && Enabled(s, a) && !a.SetWatch? && !a.PersistTo?
    ensures Inv(disk0, Step(s, a))
  {
    hide Kept, Increasing, DiskAfter, PhaseOk;
    var s' := Step(s, a);
    assert LogOk(disk0, s') && PhaseOk(disk0, s', s'.callers[a.t]) by { OtherKeepsOwn(disk0, s, a); }
    forall t | t in s.callers && t != a.t ensures PhaseOk(disk0, s', s.callers[t]) {
      PhaseStands(disk0, s, s', s.callers[t]);
    }
  }

  lemma OtherKeepsOwn(disk0: Snapshot, s: System, a: Action)
    requires Inv(disk0, s) && Enabled(s, a) && !a.SetWatch? && !a.PersistTo?
    ensures LogOk(disk0, Step(s, a)) && PhaseOk(disk0, Step(s, a), Step(s, a).callers[a.t])
  {
    hide Kept, Increasing;
    if a.t in s.callers {
      assert PhaseOk(disk0, s, s.callers[a.t]);
    }
  }

  lemma StepKeepsInv(disk0: Snapshot, s: System, a: Action)
    requires Inv(disk0, s) && Enabled(s, a)
    ensures Inv(disk0, Step(s, a))
  {
    hide Inv, Step, Enabled;
    if a.SetWatch? || a.PersistTo? {
      CommandKeepsInv(disk0, s, a);
    } else {
      OtherKeepsInv(disk0, s, a);
    }
  }

  lemma {:induction false} RunKeepsInv(disk: Snapshot, actions: seq<Action>, states: seq<System>, i: nat)
    requires Run(disk, actions, states) && i < |states|
    ensures Inv(disk, states[i])
  {
    hide Inv, Step, Enabled;
    if i > 0 {
      RunKeepsInv(disk, actions, states, i - 1);
      StepKeepsInv(disk, states[i - 1], actions[i - 1]);
    } else {
      InitialInv(disk);
    }
  }

  lemma InitialInv(disk: Snapshot)
    ensures Inv(disk, Initial(disk))
  {
  }

  /** In every interleaving, with any persist failures: snapshots reach the disk in strictly increasing
      order, the disk always holds the newest written one, and whenever the dirty mark is clear
      after a command it is the snapshot of the latest command. */
  lemma DiskIsLatest(disk: Snapshot, actions: seq<Action>, states: seq<System>, i: nat)
    requires Run(disk, actions, states) && i < |states|
    ensures var s := states[i];
            Increasing(s.log) &&
            (s.log != [] ==> 0 < s.log[|s.log| - 1] <= |s.history| && s.disk == s.history[s.log[|s.log| - 1] - 1]) &&
            (s.history != [] && !s.hub.watchPersistDirty ==> s.disk == s.history[|s.history| - 1])
  {
    RunKeepsInv(disk, actions, states, i);
  }

  /** Nothing that was commanded or written is taken back, and a refresh keeps what it has read until it seeds. */
  ghost predicate Later(s: System, s': System, t: nat) {
    s.history <= s'.history && s.log <= s'.log && s.hub.watchSeq <= s'.hub.watchSeq &&
    (t in s.callers ==> t in s'.callers) &&
    (t in s.callers && s.callers[t].Finished? ==> s'.callers[t].Finished?) &&
    (t in s.callers && s.callers[t].Loaded? ==> s'.callers[t] == s.callers[t] || s'.callers[t].Finished?) &&
    (t in s.callers && s.callers[t].Versioned? ==>
       s'.callers[t] == s.callers[t] || s'.callers[t].Finished? ||
       (s'.callers[t].Loaded? && s'.callers[t].version == s.callers[t].version))
  }

  lemma StepIsLater(s: System, a: Action, t: nat)
    requires Enabled(s, a)
    ensures Later(s, Step(s, a), t)
  {
    hide Key, Kept;
  }

  lemma {:induction false} RunIsLater(disk: Snapshot, actions: seq<Action>, states: seq<System>, j: nat, i: nat, t: nat)
    requires Run(disk, actions, states) && j <= i < |states|
    ensures Later(states[j], states[i], t)
    decreases i
  {
    hide Step, Enabled;
    if j < i {
      RunIsLater(disk, actions, states, j, i - 1, t);
      StepIsLater(states[i - 1], actions[i - 1], t);
    }
  }

  /** The snapshot with number `n`: the table after the n-th command, or what was on disk at the start. */
  ghost function Numbered(disk0: Snapshot, s: System, n: nat): Snapshot
    requires n <= |s.history|
  {
    if n == 0 then disk0 else s.history[n - 1]
  }

  lemma DiskIsNumbered(disk0: Snapshot, s: System)
    requires Inv(disk0, s)
    ensures s.hub.lastPersistSeq <= |s.history| == s.hub.watchSeq && s.disk == Numbered(disk0, s, s.hub.lastPersistSeq)
    ensures !s.hub.watchPersistDirty ==> s.hub.lastPersistSeq == |s.history|
  {
    hide PhasesOk, OneWriter;
  }

  /** An applied refresh seeds the snapshot that was on disk when it read the config. By number, that is the snapshot of
      the latest command if and only if the command whose version the refresh had read was on disk by then; otherwise it
      is an older one, although the disk holds the latest. */
  lemma SeedIsCurrentExact(disk: Snapshot, actions: seq<Action>, states: seq<System>, j: nat, i: nat, t: nat)
    requires Run(disk, actions, states) && j < i < |actions| && actions[j] == ReadConfig(t) && actions[i] == Seed(t)
    requires states[i].hub.watchSeq == states[i].callers[t].version && !states[i].hub.watchPersistDirty
    ensures var onDisk, latest := states[j].hub.lastPersistSeq, |states[i].history|;
            onDisk <= latest && states[i + 1].hub.watchers == Kept(Numbered(disk, states[i], onDisk)) &&
            states[i + 1].disk == Numbered(disk, states[i], latest) &&
            (onDisk == latest <==> onDisk == states[j].callers[t].version)
  {
    hide Inv, Kept, Numbered;
    RunKeepsInv(disk, actions, states, j);
    RunKeepsInv(disk, actions, states, i);
    RunIsLater(disk, actions, states, j + 1, i, t);
    RunIsLater(disk, actions, states, j, i, t);
    assert states[j + 1] == Step(states[j], ReadConfig(t)) && states[i + 1] == Step(states[i], Seed(t));
    DiskIsNumbered(disk, states[j]);
    DiskIsNumbered(disk, states[i]);
    NumberedStays(disk, states[j], states[i], states[j].hub.lastPersistSeq);
  }

  lemma NumberedStays(disk0: Snapshot, s: System, s': System, n: nat)
    requires n <= |s.history| && s.history <= s'.history
    ensures Numbered(disk0, s', n) == Numbered(disk0, s, n)
  {
  }

  /** A refresh that read its version while the table was clean seeds exactly what is on disk. */
  lemma CleanSeedIsCurrent(disk: Snapshot, actions: seq<Action>, states: seq<System>, i: nat, t: nat)
    requires Run(disk, actions, states) && i < |actions| && actions[i] == Seed(t)
    requires states[i].callers[t].clean && states[i].hub.watchSeq == states[i].callers[t].version
    ensures states[i + 1].hub.watchers == Kept(states[i + 1].disk)
  {
    RunKeepsInv(disk, actions, states, i);
  }

  /** A refresh that had read its version by state `l` cannot have a later one. */
  lemma VersionWasRead(disk: Snapshot, actions: seq<Action>, states: seq<System>, l: nat, k: nat, t: nat)
    requires Run(disk, actions, states) && l <= k < |states| && t in states[l].callers
    requires t in states[k].callers && states[k].callers[t].Loaded?
    ensures states[k].callers[t].version <= states[l].hub.watchSeq
  {
    RunKeepsInv(disk, actions, states, l);
    RunIsLater(disk, actions, states, l, k, t);
    assert PhaseOk(disk, states[l], states[l].callers[t]);
    if !states[l].callers[t].Versioned? && !states[l].callers[t].Loaded? {
      SnappedNeverLoads(disk, actions, states, l, k, t);
    }
  }

  lemma {:induction false} SnappedNeverLoads(disk: Snapshot, actions: seq<Action>, states: seq<System>, l: nat, k: nat, t: nat)
    requires Run(disk, actions, states) && l <= k < |states| && t in states[l].callers
    requires states[l].callers[t].Snapped? || states[l].callers[t].Wrote? || states[l].callers[t].Finished?
    ensures t in states[k].callers && !states[k].callers[t].Loaded? && !states[k].callers[t].Versioned?
    decreases k
  {
    if l < k {
      SnappedNeverLoads(disk, actions, states, l, k - 1, t);
    }
  }

  /** Through any stretch of a run that begins with a command, the table is what the commands made it, as long as each
      refresh that seeds was under way already when that command came, or finds a command unsaved. */
  lemma {:induction false} SeedSparesUnsaved(disk: Snapshot, actions: seq<Action>, states: seq<System>, l: nat, i: nat)
    requires Run(disk, actions, states) && l < i < |states| && actions[l].SetWatch?
    requires forall k | l < k < i && actions[k].Seed? :: actions[k].t in states[l].callers || states[k].hub.watchPersistDirty
    ensures states[i].history != [] && states[i].hub.watchers == states[i].history[|states[i].history| - 1]
    decreases i
  {
    hide Key, Kept;
    var s, a := states[i - 1], actions[i - 1];
    assert Enabled(s, a) && states[i] == Step(s, a);
    if i > l + 1 {
      SeedSparesUnsaved(disk, actions, states, l, i - 1);
      if a.Seed? && a.t in states[l].callers {
        VersionWasRead(disk, actions, states, l, i - 1, a.t);
        assert states[l + 1] == Step(states[l], actions[l]);
        RunIsLater(disk, actions, states, l + 1, i - 1, a.t);
      }
    }
  }

  // ---- What the table and the disk hold -----------------------------------------------

  /** The refresh of step `x` applies what it has read. */
  predicate Applies(actions: seq<Action>, states: seq<System>, x: nat)
    requires x < |actions| && x < |states|
  {
    actions[x].Seed? && actions[x].t in states[x].callers && states[x].callers[actions[x].t].Loaded? &&
    states[x].callers[actions[x].t].version == states[x].hub.watchSeq && !states[x].hub.watchPersistDirty
  }

  /** Step `x` decides about `key`: a command for it, or a refresh that applies. */
  predicate Decides(actions: seq<Action>, states: seq<System>, x: nat, key: string)
    requires x < |actions| && x < |states|
  {
    (actions[x].SetWatch? && Key(actions[x].route) == key) || Applies(actions, states, x)
  }

  /** `table` holds for `key` what step `x` says of it: the route of a command that enables it, or what a refresh has read
      for it with a chat to send to. */
  predicate AsDecided(actions: seq<Action>, states: seq<System>, x: nat, key: string, table: Snapshot)
    requires x < |actions| && x < |states| && Decides(actions, states, x, key)
  {
    if actions[x].SetWatch? then
      (key in table <==> actions[x].enable) && (key in table ==> table[key] == actions[x].route)
    else
      var read := states[x].callers[actions[x].t].routes;
      (key in table <==> key in read && !Blank(read[key].chatID)) && (key in table ==> table[key] == read[key])
  }

  /** The last step before `i` that decides about `key`. */
  predicate LastDecides(actions: seq<Action>, states: seq<System>, x: nat, i: nat, key: string)
    requires x < i <= |actions| && i <= |states|
  {
    Decides(actions, states, x, key) && forall y | x < y < i :: !Decides(actions, states, y, key)
  }

  lemma StepDecides(actions: seq<Action>, states: seq<System>, x: nat, key: string)
    requires x < |actions| && x + 1 < |states| && Enabled(states[x], actions[x]) && states[x + 1] == Step(states[x], actions[x])
    ensures var was, now := states[x].hub.watchers, states[x + 1].hub.watchers;
            if Decides(actions, states, x, key) then AsDecided(actions, states, x, key, now)
            else (key in now <==> key in was) && (key in now ==> now[key] == was[key])
  {
    hide Key, Blank;
  }

  /** In every interleaving the table holds for each key what the last step that decided about it said, and nothing for
      a key about which none has. */
  lemma {:induction false} TableTold(disk: Snapshot, actions: seq<Action>, states: seq<System>, i: nat, key: string)
    requires Run(disk, actions, states) && i < |states|
    ensures (forall x | 0 <= x < i :: !Decides(actions, states, x, key)) ==> key !in states[i].hub.watchers
    ensures forall x | 0 <= x < i && LastDecides(actions, states, x, i, key) ::
              AsDecided(actions, states, x, key, states[i].hub.watchers)
  {
    hide Decides, AsDecided, Step, Enabled;
    if i > 0 {
      TableTold(disk, actions, states, i - 1, key);
      StepDecides(actions, states, i - 1, key);
      forall x | 0 <= x < i && LastDecides(actions, states, x, i, key)
        ensures AsDecided(actions, states, x, key, states[i].hub.watchers)
      {
        if x < i - 1 {
          assert LastDecides(actions, states, x, i - 1, key);
          StaysDecided(actions, states, x, key, states[i - 1].hub.watchers, states[i].hub.watchers);
        }
      }
    } else {
      assert states[0] == Initial(disk);
    }
  }

  lemma StaysDecided(actions: seq<Action>, states: seq<System>, x: nat, key: string, was: Snapshot, now: Snapshot)
    requires x < |actions| && x < |states| && Decides(actions, states, x, key) && AsDecided(actions, states, x, key, was)
    requires (key in now <==> key in was) && (key in now ==> now[key] == was[key])
    ensures AsDecided(actions, states, x, key, now)
  {
  }

  lemma {:induction false} NoCommandNoHistory(disk: Snapshot, actions: seq<Action>, states: seq<System>, x: nat, i: nat)
    requires Run(disk, actions, states) && x <= i < |states| && forall y | x <= y < i :: !actions[y].SetWatch?
    ensures states[i].history == states[x].history
    decreases i
  {
    if x < i {
      NoCommandNoHistory(disk, actions, states, x, i - 1);
    }
  }

  /** After a command, once nothing is unsaved and no other command was given, the disk holds for each key what the last
      step up to the command that decided about it said, and nothing for a key about which none had. */
  lemma DiskTold(disk: Snapshot, actions: seq<Action>, states: seq<System>, c: nat, i: nat, key: string)
    requires Run(disk, actions, states) && c < i < |states| && !states[i].hub.watchPersistDirty
    requires actions[c].SetWatch? && forall y | c < y < i :: !actions[y].SetWatch?
    ensures (forall x | 0 <= x <= c :: !Decides(actions, states, x, key)) ==> key !in states[i].disk
    ensures forall x | 0 <= x <= c && LastDecides(actions, states, x, c + 1, key) ::
              AsDecided(actions, states, x, key, states[i].disk)
  {
    hide Decides, AsDecided, Inv, LastDecides;
    NoCommandNoHistory(disk, actions, states, c + 1, i);
    assert states[c + 1] == Step(states[c], actions[c]);
    DiskIsLatest(disk, actions, states, i);
    TableTold(disk, actions, states, c + 1, key);
  }

  /** When the latest command persists its snapshot and the write succeeds, the disk holds the table that command made, and
      nothing is unsaved any more. */
  lemma LatestIsSaved(disk: Snapshot, actions: seq<Action>, states: seq<System>, i: nat, t: nat)
    requires Run(disk, actions, states) && i < |states| && Enabled(states[i], PersistTo(t, true))
    requires states[i].callers[t].seqno == states[i].hub.watchSeq
    ensures var wrote := Step(states[i], PersistTo(t, true));
            (states[i].hub.lastPersistSeq < states[i].hub.watchSeq ==>
               states[i].history != [] && wrote.disk == states[i].history[|states[i].history| - 1] && Enabled(wrote, Clear(t)) &&
               !Step(wrote, Clear(t)).hub.watchPersistDirty && Step(wrote, Clear(t)).disk == wrote.disk)
  {
    hide Key, Kept;
    RunKeepsInv(disk, actions, states, i);
    assert PhaseOk(disk, states[i], states[i].callers[t]);
  }

  /** A refresh that read its version between a command and its persist can still apply the config of
      before that persist: the subscription is then on disk but gone from memory. */
  lemma SeedCanRestoreOldSnapshot(route: Route) returns (actions: seq<Action>, states: seq<System>)
    requires !Blank(route.chatID)
    ensures Run(map[], actions, states)
    ensures var last := states[|states| - 1];
            last.disk == map[Key(route) := route] && last.hub.watchers == map[] && !last.hub.watchPersistDirty
  {
    actions := [SetWatch(1, route, true), ReadVersion(2), ReadConfig(2), PersistTo(1, true), Clear(1), Seed(2)];
    var s0 := Initial(map[]);
    var s1 := Step(s0, actions[0]);
    var s2 := Step(s1, actions[1]);
    var s3 := Step(s2, actions[2]);
    var s4 := Step(s3, actions[3]);
    var s5 := Step(s4, actions[4]);
    var s6 := Step(s5, actions[5]);
    states := [s0, s1, s2, s3, s4, s5, s6];
  }
}
