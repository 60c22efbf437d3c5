/** Any number of engines on one heartbeat config file, with list edits, panel edits and hand edits in between.

A call reads the file, plans what to write, compares and writes under the file lock, and reads again. The
comparison and the write are one step; anything may happen between a call's steps. The steps are made of the functions
of HeartbeatConfig that its methods are proved to compute.
*/
module HeartbeatFile {
  import opened HeartbeatConfig

  datatype Call =
    | Idle
    | Planned(plan: Plan, read: Option<string>, expected: Snapshot, list: seq<Task>)
    | Wrote(plan: Plan, list: seq<Task>)

  datatype Engine = Engine(mem: Memory, call: Call)

  /** A write: who, why, the content the list was computed from, the content it replaced, and the content it left. */
  datatype Entry = Entry(engine: nat, plan: Plan, initialized: bool, read: Option<string>, replaced: Option<string>, after: string)

  datatype System = System(raw: Option<string>, engines: map<nat, Engine>, log: seq<Entry>)

  datatype Action =
    | HandEdit(raw: Option<string>)
    | StartEngine(e: nat)
    | Begin(e: nat, plan: Plan)
    | CompareAndWrite(e: nat, locks: bool, saves: bool)
    | Reload(e: nat)
    | Adopt(e: nat)
    | ReloadConfig(e: nat)

  predicate Enabled(s: System, a: Action) {
    match a
    case HandEdit(_) => true
    case StartEngine(e) => e !in s.engines
    case Begin(e, _) => e in s.engines && s.engines[e].call.Idle?
    case CompareAndWrite(e, _, _) => e in s.engines && s.engines[e].call.Planned?
    case Reload(e) => e in s.engines && s.engines[e].call.Wrote?
    case Adopt(e) => e in s.engines && s.engines[e].call.Idle?
    case ReloadConfig(e) => e in s.engines && s.engines[e].call.Idle?
  }

  /** Engine `e` has done what its methods do, and is in `call` then. */
  function With(s: System, e: nat, mem: Memory, call: Call): System {
    s.(engines := s.engines[e := Engine(mem, call)])
  }

  function Step(codec: Codec, s: System, a: Action): System
    requires Enabled(s, a)
  {
    match a
    case HandEdit(raw) => s.(raw := raw)
    case StartEngine(e) => With(s, e, Looked(codec, Memory([], None, false), s.raw), Idle)
    case Begin(e, plan) =>
      var g, now := s.engines[e].mem, SnapshotOf(codec, s.raw);
      if now.None? then s
      else
        var list := Plans(g, plan, now.value);
        if list.Some? then With(s, e, g, Planned(plan, s.raw, now.value, list.value))
        else if plan.MergeRuns? && |plan.updates| > 0 then With(s, e, Emptied(g), Idle)
        else s
    case CompareAndWrite(e, locks, saves) =>
      var g, now := s.engines[e].mem, SnapshotOf(codec, s.raw);
      var p := s.engines[e].call;
      if !locks || now.None? || !SameConfig(now.value, p.expected) || !saves then With(s, e, g, Idle)
      else
        var after := codec.encode(Config(NextRevision(now.value), p.list));
        System(Some(after), s.engines[e := Engine(g, Wrote(p.plan, p.list))],
               s.log + [Entry(e, p.plan, g.recorded.Some?, p.read, s.raw, after)])
    case Reload(e) =>
      var p := s.engines[e].call;
      With(s, e, Reloaded(codec, s.engines[e].mem, p.plan, p.list, s.raw), Idle)
    case Adopt(e) => With(s, e, Adopts(codec, s.engines[e].mem, s.raw), Idle)
    case ReloadConfig(e) => With(s, e, Looked(codec, s.engines[e].mem, s.raw), Idle)
  }

  ghost predicate Run(codec: Codec, actions: seq<Action>, states: seq<System>) {
    |states| == |actions| + 1 && states[0].engines == map[] && states[0].log == [] &&
    forall i | 0 <= i < |actions| :: Enabled(states[i], actions[i]) && states[i + 1] == Step(codec, states[i], actions[i])
  }

  // ---- No lost update ------------------------------------------------------------------------------

  /** The list of a plan, computed from the content `read`. */
  ghost predicate ComputedFrom(codec: Codec, plan: Plan, initialized: bool, read: Option<string>, list: seq<Task>) {
    SnapshotOf(codec, read).Some? &&
    var s := SnapshotOf(codec, read).value;
    match plan
    case MergeRuns(updates) => s.present || initialized ==> list == MergedAll(s.cfg.tasks, updates)
    case EditList(edited, _) => list == edited
    case EditPanel(revision, etag, edited) => list == edited && s.cfg.revision == revision && s.digest == etag
  }

  ghost predicate PlanOk(codec: Codec, g: Engine) {
    g.call.Planned? ==>
      SnapshotOf(codec, g.call.read) == Some(g.call.expected) &&
      ComputedFrom(codec, g.call.plan, g.mem.recorded.Some?, g.call.read, g.call.list) &&
      (g.call.plan.EditList? && g.mem.recorded.Some? ==> MarkOf(g.call.expected) == g.mem.recorded.value)
  }

  ghost predicate PlansOk(codec: Codec, s: System) {
    forall e | e in s.engines :: PlanOk(codec, s.engines[e])
  }

  lemma StepKeepsPlans(codec: Codec, s: System, a: Action)
    requires PlansOk(codec, s) && Enabled(s, a)
    ensures PlansOk(codec, Step(codec, s, a))
  {
    hide SnapshotOf, SameConfig, NextRevision;
    var n := Step(codec, s, a);
    forall e | e in n.engines ensures PlanOk(codec, n.engines[e]) {
      if e in s.engines {
        assert PlanOk(codec, s.engines[e]);
      }
    }
  }

  lemma {:induction false} RunKeepsPlans(codec: Codec, actions: seq<Action>, states: seq<System>, i: nat)
    requires Run(codec, actions, states) && i < |states|
    ensures PlansOk(codec, states[i])
  {
    hide Step, Enabled, PlanOk;
    if i > 0 {
      RunKeepsPlans(codec, actions, states, i - 1);
      StepKeepsPlans(codec, states[i - 1], actions[i - 1]);
    }
  }

  /** Step `i` of the run wrote the file. */
  predicate Writes(states: seq<System>, i: nat)
    requires i + 1 < |states|
  {
    |states[i + 1].log| > |states[i].log|
  }

  /** The content from which the list of a write was made: the one a merge read, the one from which a list edit was
      taken, one with the revision and the tag that a panel edit names. */
  predicate StartedFrom(codec: Codec, w: Entry, c: Option<string>) {
    match w.plan
    case MergeRuns(_) => c == w.read
    case EditList(_, base) => c == base
    case EditPanel(revision, etag, _) =>
      var s := SnapshotOf(codec, c);
      s.Some? && s.value.cfg.revision == revision && s.value.digest == etag
  }

  /** In every interleaving each write replaces the content that was read, and leaves the planned list under the next
      revision. That content is the one a merge or a panel edit started from: they lose nobody's update. */
  lemma NoLostUpdate(codec: Codec, actions: seq<Action>, states: seq<System>, i: nat)
    requires Run(codec, actions, states) && i < |actions| && Writes(states, i)
    ensures |states[i + 1].log| == |states[i].log| + 1 && states[i + 1].log[..|states[i].log|] == states[i].log
    ensures var w := states[i + 1].log[|states[i].log|];
            w.replaced == states[i].raw == w.read && states[i + 1].raw == Some(w.after) && w.engine in states[i].engines &&
            SnapshotOf(codec, w.read).Some? &&
            exists list :: ComputedFrom(codec, w.plan, w.initialized, w.read, list) &&
              w.after == codec.encode(Config(NextRevision(SnapshotOf(codec, w.read).value), list))
    ensures var w := states[i + 1].log[|states[i].log|];
            !w.plan.EditList? && codec.parse("").None? ==> forall c :: StartedFrom(codec, w, c) <==> c == w.replaced
  {
    RunKeepsPlans(codec, actions, states, i);
    var s, a := states[i], actions[i];
    assert states[i + 1] == Step(codec, s, a) && Enabled(s, a);
    var g := s.engines[a.e];
    assert PlanOk(codec, g);
    SameConfigIsSameContent(codec, s.raw, g.call.read);
    var w := states[i + 1].log[|states[i].log|];
    if w.plan.EditPanel? && codec.parse("").None? {
      forall c ensures StartedFrom(codec, w, c) <==> c == w.replaced {
        NamedContent(codec, c, w.replaced);
      }
    }
  }

  /** Revision and tag name one content, since the empty text is no config. */
  lemma NamedContent(codec: Codec, a: Option<string>, b: Option<string>)
    requires codec.parse("").None? && SnapshotOf(codec, b).Some?
    ensures (SnapshotOf(codec, a).Some? && SnapshotOf(codec, a).value.cfg.revision == SnapshotOf(codec, b).value.cfg.revision &&
             SnapshotOf(codec, a).value.digest == SnapshotOf(codec, b).value.digest) <==> a == b
  {
  }

  lemma {:induction false} StaysInitialized(codec: Codec, actions: seq<Action>, states: seq<System>, j: nat, i: nat, e: nat)
    requires Run(codec, actions, states) && j <= i < |states| && e in states[j].engines && states[j].engines[e].mem.recorded.Some?
    ensures e in states[i].engines && states[i].engines[e].mem.recorded.Some?
    decreases i
  {
    if j < i {
      hide Run;
      StaysInitialized(codec, actions, states, j, i - 1, e);
      RunStep(codec, actions, states, i - 1);
      hide SnapshotOf, SameConfig, NextRevision, Plans;
    }
  }

  lemma RunStep(codec: Codec, actions: seq<Action>, states: seq<System>, i: nat)
    requires Run(codec, actions, states) && i < |actions|
    ensures Enabled(states[i], actions[i]) && states[i + 1] == Step(codec, states[i], actions[i])
  {
  }

  /** A list edit whose list was taken at state `j`, from the content its engine had then recorded, loses an update if
      and only if the engine has recorded another content when it writes. */
  lemma ListEditLosesExact(codec: Codec, actions: seq<Action>, states: seq<System>, j: nat, i: nat)
    requires Run(codec, actions, states) && j <= i < |actions| && Writes(states, i)
    requires var w := states[i + 1].log[|states[i + 1].log| - 1];
             w.plan.EditList? && SnapshotOf(codec, w.plan.base).Some? && w.engine in states[j].engines &&
             states[j].engines[w.engine].mem.recorded == Some(MarkOf(SnapshotOf(codec, w.plan.base).value))
    ensures var w := states[i + 1].log[|states[i + 1].log| - 1];
            w.engine in states[i].engines && states[i].engines[w.engine].mem.recorded.Some? &&
            (w.plan.base != w.replaced <==> states[i].engines[w.engine].mem.recorded != states[j].engines[w.engine].mem.recorded)
  {
    hide Step, Enabled;
    var w := states[i + 1].log[|states[i + 1].log| - 1];
    StaysInitialized(codec, actions, states, j, i, w.engine);
    ListEditCompares(codec, actions, states, i);
    SameConfigIsSameContent(codec, w.plan.base, w.replaced);
  }

  /** An engine that has recorded the file lets a list edit replace only what it recorded. */
  lemma ListEditCompares(codec: Codec, actions: seq<Action>, states: seq<System>, i: nat)
    requires Run(codec, actions, states) && i < |actions| && Writes(states, i)
    requires states[i + 1].log[|states[i + 1].log| - 1].plan.EditList?
    ensures var w := states[i + 1].log[|states[i + 1].log| - 1];
            SnapshotOf(codec, w.replaced).Some? && w.engine in states[i].engines &&
            var recorded := states[i].engines[w.engine].mem.recorded;
            w.initialized == recorded.Some? && (recorded.Some? ==> recorded.value == MarkOf(SnapshotOf(codec, w.replaced).value))
  {
    RunKeepsPlans(codec, actions, states, i);
    var s, a := states[i], actions[i];
    assert states[i + 1] == Step(codec, s, a) && Enabled(s, a);
    var g := s.engines[a.e];
    assert PlanOk(codec, g);
    SameConfigIsSameContent(codec, s.raw, g.call.read);
  }

  /** In every interleaving a run-state write of an engine that has seen the file, or finds one, has exactly the task
      definitions on disk at that instant, and lowers no run time. */
  lemma RunStateWritesKeepDefinitions(codec: Codec, actions: seq<Action>, states: seq<System>, i: nat)
    requires codec.RoundTrips() && Run(codec, actions, states) && i < |actions| && Writes(states, i)
    requires var w := states[i + 1].log[|states[i + 1].log| - 1]; w.plan.MergeRuns? && (w.initialized || w.replaced.Some?)
    ensures RunStateOnly(TasksOf(codec, states[i].raw), TasksOf(codec, states[i + 1].raw))
    ensures RevisionOf(codec, states[i + 1].raw) == NextRevision(SnapshotOf(codec, states[i].raw).value)
  {
    NoLostUpdate(codec, actions, states, i);
    var w := states[i + 1].log[|states[i].log|];
    var list :| ComputedFrom(codec, w.plan, w.initialized, w.read, list) &&
      w.after == codec.encode(Config(NextRevision(SnapshotOf(codec, w.read).value), list));
    RunStateWriteKeeps(codec, Write(w.replaced, w.after));
  }

  lemma RunStateSame(a: seq<Task>)
    ensures RunStateOnly(a, a)
  {
  }

  lemma RunStateJoins(a: seq<Task>, b: seq<Task>, c: seq<Task>)
    requires RunStateOnly(a, b) && RunStateOnly(b, c)
    ensures RunStateOnly(a, c)
  {
  }

  /** Over any stretch of a run in which the file was changed by such writes alone, whatever else the engines did. */
  lemma {:induction false} RunTimesNeverFall(codec: Codec, actions: seq<Action>, states: seq<System>, i: nat, j: nat)
    requires codec.RoundTrips() && Run(codec, actions, states) && i <= j < |states|
    requires forall k | i <= k < j :: RunStateStep(states, k)
    ensures RunStateOnly(TasksOf(codec, states[i].raw), TasksOf(codec, states[j].raw))
    decreases j
  {
    hide Step, Enabled, NextRevision, RunStateOnly;
    if i < j {
      RunTimesNeverFall(codec, actions, states, i, j - 1);
      assert RunStateStep(states, j - 1);
      if Writes(states, j - 1) {
        RunStateWritesKeepDefinitions(codec, actions, states, j - 1);
      }
      RunStateSame(TasksOf(codec, states[j - 1].raw));
      RunStateJoins(TasksOf(codec, states[i].raw), TasksOf(codec, states[j - 1].raw), TasksOf(codec, states[j].raw));
    } else {
      RunStateSame(TasksOf(codec, states[i].raw));
    }
  }

  /** Step `k` leaves the file alone, or is a run-state write of an engine that has seen the file or finds one. */
  predicate RunStateStep(states: seq<System>, k: nat)
    requires k + 1 < |states|
  {
    if Writes(states, k) then
      var w := states[k + 1].log[|states[k + 1].log| - 1];
      w.plan.MergeRuns? && (w.initialized || w.replaced.Some?)
    else states[k + 1].raw == states[k].raw
  }

  // ---- A list edit that undoes a merge ---------------------------------------------------------------

  /** Engine 0 starts on a file with `list`, merges `updates`, and then saves the list that was taken before. */
  function StaleEdit(updates: map<string, Task>, list: seq<Task>, base: string): (actions: seq<Action>)
    ensures |actions| == 6
  {
    [StartEngine(0), Begin(0, MergeRuns(updates)), CompareAndWrite(0, true, true), Reload(0),
     Begin(0, EditList(list, Some(base))), CompareAndWrite(0, true, true)]
  }

  function Holding(codec: Codec, c: Config): Snapshot {
    Snapshot(c, codec.encode(c), true)
  }

  function StaleEditStates(codec: Codec, updates: map<string, Task>, list: seq<Task>): (states: seq<System>)
    ensures |states| == 7
  {
    var merged := MergedAll(list, updates);
    var f0, f1, f2 := Holding(codec, Config(1, list)), Holding(codec, Config(2, merged)), Holding(codec, Config(3, list));
    var merge, edit := MergeRuns(updates), EditList(list, Some(f0.digest));
    var e0, e1 := Entry(0, merge, true, Some(f0.digest), Some(f0.digest), f1.digest),
                  Entry(0, edit, true, Some(f1.digest), Some(f1.digest), f2.digest);
    var m0, m1 := Memory(list, Some(MarkOf(f0)), false), Memory(merged, Some(MarkOf(f1)), false);
    [System(Some(f0.digest), map[], []),
     System(Some(f0.digest), map[0 := Engine(m0, Idle)], []),
     System(Some(f0.digest), map[0 := Engine(m0, Planned(merge, Some(f0.digest), f0, merged))], []),
     System(Some(f1.digest), map[0 := Engine(m0, Wrote(merge, merged))], [e0]),
     System(Some(f1.digest), map[0 := Engine(m1, Idle)], [e0]),
     System(Some(f1.digest), map[0 := Engine(m1, Planned(edit, Some(f1.digest), f1, list))], [e0]),
     System(Some(f2.digest), map[0 := Engine(m1, Wrote(edit, list))], [e0, e1])]
  }

  lemma HoldingReads(codec: Codec, c: Config)
    requires codec.RoundTrips()
    ensures SnapshotOf(codec, Some(Holding(codec, c).digest)) == Some(Holding(codec, c))
  {
  }

  lemma StaleEditStep(codec: Codec, updates: map<string, Task>, list: seq<Task>, i: nat)
    requires codec.RoundTrips() && |updates| > 0 && i < 6
    ensures var states, actions := StaleEditStates(codec, updates, list), StaleEdit(updates, list, codec.encode(Config(1, list)));
            Enabled(states[i], actions[i]) && states[i + 1] == Step(codec, states[i], actions[i])
  {
    HoldingReads(codec, Config(1, list));
    HoldingReads(codec, Config(2, MergedAll(list, updates)));
    HoldingReads(codec, Config(3, list));
    hide SnapshotOf, MergedAll;
    var n, m := StaleEditStates(codec, updates, list)[i], StaleEditStates(codec, updates, list)[i + 1];
    assert n.engines[0 := m.engines[0]] == m.engines;
  }

  /** The run state that a merge has just written is overwritten by a list edit of the same engine, whose list was taken
      before the merge: the engine compares the file with what it recorded itself, not with what the list came from. */
  lemma StaleListEditUndoesMerge(codec: Codec, list: seq<Task>, updates: map<string, Task>)
    requires codec.RoundTrips() && |updates| > 0
    ensures exists actions: seq<Action>, states: seq<System> :: Run(codec, actions, states) && |states| == 7 &&
              TasksOf(codec, states[0].raw) == list && TasksOf(codec, states[4].raw) == MergedAll(list, updates) &&
              TasksOf(codec, states[6].raw) == list && |states[6].log| == 2 && states[6].log[1].plan.EditList? &&
              states[6].log[1].plan.base == states[0].raw
  {
    var states, actions := StaleEditStates(codec, updates, list), StaleEdit(updates, list, codec.encode(Config(1, list)));
    forall i | 0 <= i < 6 ensures Enabled(states[i], actions[i]) && states[i + 1] == Step(codec, states[i], actions[i]) {
      StaleEditStep(codec, updates, list, i);
    }
    hide Step, Enabled, MergedAll;
    assert Run(codec, actions, states);
  }
}
