/** Remote drives and local turns compete for a tab's turn gate.

Every step below is one critical section of the hub or one action under the gate. A chat's message first
reads its tab; then it either goes on to drive that tab, or, finding the session gone, unties chat and tab in
a critical section of its own: by then both may have found other partners. A local turn reclaims the tab
with the gate held; a drive re-checks its tie with the gate held and submits before letting go. A local
/effort command reclaims without the gate.
*/
module RemoteDrive {
  import opened BotRoutes
  import opened Takeover

  datatype Event =
    | Took(tab: string, key: string)
    | LocalReclaim(tab: string)      // by a local turn, gate held
    | EffortReclaim(tab: string)     // by a local /effort command, no gate
    | DriveSubmit(tab: string, key: string)
    | LocalSubmit(tab: string)

  datatype Phase =
    | DriveRead(tab: string, route: Route)
    | DriveWaiting(tab: string, route: Route)
    | DriveHolding(tab: string, route: Route)
    | DriveChecked(tab: string, route: Route)
    | LocalWaiting(tab: string)
    | LocalHolding(tab: string)
    | LocalReclaimed(tab: string)
    | Done

  datatype System = System(ties: Ties, gate: map<string, nat>, threads: map<nat, Phase>, log: seq<Event>)

  datatype Action =
    | Take(route: Route, tab: string, sessions: map<string, Session>)
    | Release(route: Route)
    | Effort(tab: string)
    | StartDrive(t: nat, route: Route)   // reads the chat's tab
    | LateUntie(t: nat)                  // the session read was gone: unties chat and tab
    | Proceed(t: nat)                    // the session read was there
    | StartLocal(t: nat, tab: string)
    | Acquire(t: nat)
    | Recheck(t: nat)                    // drive: the tie must still name this tab, or the drive aborts
    | Reclaim(t: nat)                    // local turn
    | Submit(t: nat)
    | Abort(t: nat)

  predicate HoldsGate(p: Phase) {
    p.DriveHolding? || p.DriveChecked? || p.LocalHolding? || p.LocalReclaimed?
  }

  predicate Enabled(s: System, a: Action) {
    match a
    case Take(_, _, _) => true
    case Release(_) => true
    case Effort(_) => true
    case StartDrive(t, route) => t !in s.threads && TabOf(s.ties, route) != ""
    case StartLocal(t, _) => t !in s.threads
    case LateUntie(t) => t in s.threads && s.threads[t].DriveRead?
    case Proceed(t) => t in s.threads && s.threads[t].DriveRead?
    case Acquire(t) => t in s.threads && (s.threads[t].DriveWaiting? || s.threads[t].LocalWaiting?) && s.threads[t].tab !in s.gate
    case Recheck(t) => t in s.threads && s.threads[t].DriveHolding?
    case Reclaim(t) => t in s.threads && s.threads[t].LocalHolding?
    case Submit(t) => t in s.threads && (s.threads[t].DriveChecked? || s.threads[t].LocalReclaimed?)
    case Abort(t) => t in s.threads && HoldsGate(s.threads[t])
  }

  function LetGo(s: System, t: nat): System
    requires t in s.threads && HoldsGate(s.threads[t])
  {
    s.(gate := s.gate - {s.threads[t].tab}, threads := s.threads[t := Done])
  }

  function Step(s: System, a: Action): System
    requires Enabled(s, a)
  {
    match a
    case Take(route, tab, sessions) =>
      if CanTake(s.ties, sessions, route, tab)
      then s.(ties := Tied(s.ties, route, tab), log := s.log + [Took(tab, Key(route))]) else s
    case Release(route) => s.(ties := Released(s.ties, route))
    case Effort(tab) => s.(ties := Reclaimed(s.ties, tab), log := s.log + [EffortReclaim(tab)])
    case StartDrive(t, route) => s.(threads := s.threads[t := DriveRead(TabOf(s.ties, route), route)])
    case LateUntie(t) =>
      var p := s.threads[t];
      s.(ties := Untied(s.ties, Key(p.route), p.tab), threads := s.threads[t := Done])
    case Proceed(t) =>
      var p := s.threads[t];
      s.(threads := s.threads[t := DriveWaiting(p.tab, p.route)])
    case StartLocal(t, tab) => s.(threads := s.threads[t := LocalWaiting(tab)])
    case Acquire(t) =>
      var p := s.threads[t];
      s.(gate := s.gate[p.tab := t],
         threads := s.threads[t := if p.DriveWaiting? then DriveHolding(p.tab, p.route) else LocalHolding(p.tab)])
    case Recheck(t) =>
      var p := s.threads[t];
      if TabOf(s.ties, p.route) == p.tab then s.(threads := s.threads[t := DriveChecked(p.tab, p.route)]) else LetGo(s, t)
    case Reclaim(t) =>
      var tab := s.threads[t].tab;
      s.(ties := Reclaimed(s.ties, tab), threads := s.threads[t := LocalReclaimed(tab)], log := s.log + [LocalReclaim(tab)])
    case Submit(t) =>
      var p := s.threads[t];
      LetGo(s.(log := s.log + [if p.DriveChecked? then DriveSubmit(p.tab, Key(p.route)) else LocalSubmit(p.tab)]), t)
    case Abort(t) => LetGo(s, t)
  }

  const INITIAL: System := System(Ties(map[], map[]), map[], map[], [])

  /** The state after `run` from `s`, if every step of it can be taken. */
  ghost predicate Reaches(s: System, run: seq<Action>, n: System)
    decreases |run|
  {
    if run == [] then n == s else Enabled(s, run[0]) && Reaches(Step(s, run[0]), run[1..], n)
  }

  // ---- Late untying ------------------------------------------------------------------------------

  /** Every chat that drives a tab is the one that holds it. */
  ghost predicate Faithful(b: Ties) {
    forall k | k in b.takeoverTabs :: b.takeoverTabs[k] in b.takeovers && Key(b.takeovers[b.takeoverTabs[k]]) == k
  }

  /** The tab about to be untied is driven by another chat by now. */
  ghost predicate Robs(s: System, a: Action) {
    a.LateUntie? && Enabled(s, a) &&
    exists k :: k in s.ties.takeoverTabs && k != Key(s.threads[a.t].route) && s.ties.takeoverTabs[k] == s.threads[a.t].tab
  }

  /** A run none of whose late untyings robs another chat. */
  ghost predicate Unrobbed(s: System, run: seq<Action>)
    decreases |run|
  {
    run == [] || (Enabled(s, run[0]) && !Robs(s, run[0]) && Unrobbed(Step(s, run[0]), run[1..]))
  }

  /** Untying keeps the tables faithful exactly if it robs nobody. */
  lemma LateUntieFaithful(s: System, a: Action)
    requires Faithful(s.ties) && a.LateUntie? && Enabled(s, a)
    ensures Faithful(Step(s, a).ties) <==> !Robs(s, a)
  {
    hide Key;
    var p := s.threads[a.t];
    if Robs(s, a) {
      var k :| k in s.ties.takeoverTabs && k != Key(p.route) && s.ties.takeoverTabs[k] == p.tab;
      assert k in Step(s, a).ties.takeoverTabs;
    }
  }

  lemma TiesStayFaithful(s: System, a: Action)
    requires Faithful(s.ties) && Enabled(s, a) && !Robs(s, a)
    ensures Faithful(Step(s, a).ties)
  {
    hide Key;
    if a.LateUntie? {
      LateUntieFaithful(s, a);
    }
  }

  // ---- Claims: who took a tab since it was last reclaimed ------------------------------------------

  /** The chat took the tab over after the last local turn that reclaimed it. */
  ghost predicate Claimed(log: seq<Event>, tab: string, key: string) {
    exists i | 0 <= i < |log| :: log[i] == Took(tab, key) && forall j | i < j < |log| :: log[j] != LocalReclaim(tab)
  }

  /** No chat drives a tab that was reclaimed, by a turn or by a command, after the chat took it. */
  ghost predicate TiesClaimed(s: System) {
    forall k | k in s.ties.takeoverTabs :: Claimed(s.log, s.ties.takeoverTabs[k], k)
  }

  ghost predicate GatesHeld(s: System) {
    forall t | t in s.threads && HoldsGate(s.threads[t]) :: s.threads[t].tab in s.gate && s.gate[s.threads[t].tab] == t
  }

  ghost predicate GatesOwned(s: System) {
    forall tab | tab in s.gate :: s.gate[tab] in s.threads && HoldsGate(s.threads[s.gate[tab]]) && s.threads[s.gate[tab]].tab == tab
  }

  ghost predicate DrivesNamed(s: System) {
    forall t | t in s.threads && (s.threads[t].DriveRead? || s.threads[t].DriveWaiting? || s.threads[t].DriveHolding?) ::
      s.threads[t].tab != ""
  }

  ghost predicate GateInv(s: System) {
    GatesHeld(s) && GatesOwned(s) && DrivesNamed(s)
  }

  ghost predicate ChecksStand(s: System) {
    forall t | t in s.threads && s.threads[t].DriveChecked? :: Claimed(s.log, s.threads[t].tab, Key(s.threads[t].route))
  }

  ghost predicate SubmitsClaimed(log: seq<Event>) {
    forall n | 0 <= n < |log| && log[n].DriveSubmit? :: Claimed(log[..n], log[n].tab, log[n].key)
  }

  ghost predicate Inv(s: System) {
    Faithful(s.ties) && TiesClaimed(s) && GateInv(s) && ChecksStand(s) && SubmitsClaimed(s.log)
  }

  lemma ClaimedGrows(log: seq<Event>, e: Event, tab: string, key: string)
    requires Claimed(log, tab, key) && e != LocalReclaim(tab)
    ensures Claimed(log + [e], tab, key)
  {
    var i :| 0 <= i < |log| && log[i] == Took(tab, key) && forall j | i < j < |log| :: log[j] != LocalReclaim(tab);
    assert (log + [e])[i] == Took(tab, key);
  }

  lemma JustTaken(log: seq<Event>, tab: string, key: string)
    ensures Claimed(log + [Took(tab, key)], tab, key)
  {
    assert (log + [Took(tab, key)])[|log|] == Took(tab, key);
  }

  lemma SubmitsGrow(log: seq<Event>, e: Event)
    requires SubmitsClaimed(log)
    requires e.DriveSubmit? ==> Claimed(log, e.tab, e.key)
    ensures SubmitsClaimed(log + [e])
  {
    hide Claimed;
    var more := log + [e];
    forall n | 0 <= n < |more| && more[n].DriveSubmit? ensures Claimed(more[..n], more[n].tab, more[n].key) {
      assert more[..n] == log[..n];
      assert log[..|log|] == log;
    }
  }

  /** A reclaim leaves nobody driving the tab, and nobody driving another. */
  lemma ReclaimFrees(b: Ties, tab: string)
    requires Faithful(b)
    ensures var r := Reclaimed(b, tab);
            forall k | k in r.takeoverTabs :: r.takeoverTabs[k] != tab && k in b.takeoverTabs && r.takeoverTabs[k] == b.takeoverTabs[k]
  {
    hide Key;
  }

  lemma GateKept(s: System, a: Action)
    requires GateInv(s) && Enabled(s, a)
    ensures GateInv(Step(s, a))
  {
    hide Tied, Untied, Released, Reclaimed, Key, CanTake;
  }

  /** Steps that log nothing and take nobody's tab. */
  lemma QuietKeepsClaims(s: System, a: Action)
    requires Inv(s) && Enabled(s, a) && !a.Take? && !a.Effort? && !a.Reclaim? && !a.Submit? && !a.Recheck?
    ensures TiesClaimed(Step(s, a)) && ChecksStand(Step(s, a)) && SubmitsClaimed(Step(s, a).log)
  {
    hide Claimed, Key, SubmitsClaimed, GateInv, Faithful;
  }

  lemma TakeKeepsClaims(s: System, a: Action)
    requires Inv(s) && a.Take?
    ensures TiesClaimed(Step(s, a)) && ChecksStand(Step(s, a)) && SubmitsClaimed(Step(s, a).log)
  {
    hide Key, GateInv, Faithful, CanTake, Claimed, SubmitsClaimed;
    if CanTake(s.ties, a.sessions, a.route, a.tab) {
      var e := Took(a.tab, Key(a.route));
      SubmitsGrow(s.log, e);
      JustTaken(s.log, a.tab, Key(a.route));
      ClaimsGrow(s, e);
    }
  }

  /** An event that is not a local reclaim of the tab leaves every claim standing. */
  lemma ClaimsGrow(s: System, e: Event)
    requires TiesClaimed(s) && ChecksStand(s)
    ensures forall k | k in s.ties.takeoverTabs && e != LocalReclaim(s.ties.takeoverTabs[k]) :: Claimed(s.log + [e], s.ties.takeoverTabs[k], k)
    ensures forall t | t in s.threads && s.threads[t].DriveChecked? && e != LocalReclaim(s.threads[t].tab) ::
              Claimed(s.log + [e], s.threads[t].tab, Key(s.threads[t].route))
  {
    hide Claimed, Key;
    forall k | k in s.ties.takeoverTabs && e != LocalReclaim(s.ties.takeoverTabs[k]) ensures Claimed(s.log + [e], s.ties.takeoverTabs[k], k) {
      ClaimedGrows(s.log, e, s.ties.takeoverTabs[k], k);
    }
    forall t | t in s.threads && s.threads[t].DriveChecked? && e != LocalReclaim(s.threads[t].tab)
      ensures Claimed(s.log + [e], s.threads[t].tab, Key(s.threads[t].route))
    {
      ClaimedGrows(s.log, e, s.threads[t].tab, Key(s.threads[t].route));
    }
  }

  lemma EffortKeepsClaims(s: System, a: Action)
    requires Inv(s) && a.Effort?
    ensures TiesClaimed(Step(s, a)) && ChecksStand(Step(s, a)) && SubmitsClaimed(Step(s, a).log)
  {
    hide Key, GateInv, Faithful, Claimed, SubmitsClaimed, Reclaimed;
    ClaimsGrow(s, EffortReclaim(a.tab));
    SubmitsGrow(s.log, EffortReclaim(a.tab));
    ReclaimFrees(s.ties, a.tab);
  }

  lemma ReclaimKeepsClaims(s: System, t: nat)
    requires Inv(s) && Enabled(s, Reclaim(t))
    ensures TiesClaimed(Step(s, Reclaim(t))) && ChecksStand(Step(s, Reclaim(t))) && SubmitsClaimed(Step(s, Reclaim(t)).log)
  {
    hide Key, Faithful, Claimed, SubmitsClaimed, Reclaimed;
    var tab := s.threads[t].tab;
    ClaimsGrow(s, LocalReclaim(tab));
    SubmitsGrow(s.log, LocalReclaim(tab));
    ReclaimFrees(s.ties, tab);
    forall u | u in s.threads && s.threads[u].DriveChecked? ensures s.threads[u].tab != tab {
      assert HoldsGate(s.threads[u]) && HoldsGate(s.threads[t]);
    }
  }

  lemma RecheckKeepsClaims(s: System, t: nat)
    requires Inv(s) && Enabled(s, Recheck(t))
    ensures TiesClaimed(Step(s, Recheck(t))) && ChecksStand(Step(s, Recheck(t))) && SubmitsClaimed(Step(s, Recheck(t)).log)
  {
    hide Key, Faithful, Claimed, SubmitsClaimed;
    assert s.threads[t].tab != "";
  }

  lemma SubmitKeepsClaims(s: System, t: nat)
    requires Inv(s) && Enabled(s, Submit(t))
    ensures TiesClaimed(Step(s, Submit(t))) && ChecksStand(Step(s, Submit(t))) && SubmitsClaimed(Step(s, Submit(t)).log)
  {
    hide Key, Faithful, Claimed, SubmitsClaimed, GateInv;
    var p := s.threads[t];
    var e := if p.DriveChecked? then DriveSubmit(p.tab, Key(p.route)) else LocalSubmit(p.tab);
    ClaimsGrow(s, e);
    SubmitsGrow(s.log, e);
  }

  lemma StepKeepsInv(s: System, a: Action)
    requires Inv(s) && Enabled(s, a) && !Robs(s, a)
    ensures Inv(Step(s, a))
  {
    hide Step, Faithful, TiesClaimed, GateInv, ChecksStand, SubmitsClaimed;
    TiesStayFaithful(s, a);
    GateKept(s, a);
    match a
    case Take(_, _, _) => TakeKeepsClaims(s, a);
    case Effort(_) => EffortKeepsClaims(s, a);
    case Reclaim(t) => ReclaimKeepsClaims(s, t);
    case Recheck(t) => RecheckKeepsClaims(s, t);
    case Submit(t) => SubmitKeepsClaims(s, t);
    case _ => QuietKeepsClaims(s, a);
  }

  lemma {:induction false} RunKeepsInv(s: System, run: seq<Action>, n: System)
    requires Inv(s) && Reaches(s, run, n) && Unrobbed(s, run)
    ensures Inv(n)
    decreases |run|
  {
    hide Inv, Step, Robs;
    if run != [] {
      StepKeepsInv(s, run[0]);
      RunKeepsInv(Step(s, run[0]), run[1..], n);
    }
  }

  /** In a run none of whose late untyings robs another chat, no remote drive submits to a tab that a local turn
      reclaimed, unless the same chat took the tab over again in between. */
  lemma NoDriveAfterLocalTurn(run: seq<Action>, s: System, m: nat, n: nat)
    requires Reaches(INITIAL, run, s) && Unrobbed(INITIAL, run) && m < n < |s.log|
    requires s.log[n].DriveSubmit? && s.log[m] == LocalReclaim(s.log[n].tab)
    ensures exists k | m < k < n :: s.log[k] == Took(s.log[n].tab, s.log[n].key)
  {
    RunKeepsInv(INITIAL, run, s);
    TookBetween(s.log, m, n);
  }

  lemma TookBetween(log: seq<Event>, m: nat, n: nat)
    requires SubmitsClaimed(log) && m < n < |log| && log[n].DriveSubmit? && log[m] == LocalReclaim(log[n].tab)
    ensures exists k | m < k < n :: log[k] == Took(log[n].tab, log[n].key)
  {
    assert Claimed(log[..n], log[n].tab, log[n].key);
    var k :| 0 <= k < |log[..n]| && log[..n][k] == Took(log[n].tab, log[n].key) &&
             forall j | k < j < |log[..n]| :: log[..n][j] != LocalReclaim(log[n].tab);
    assert log[..n][m] == log[m];
    assert m < k < n;
  }

  // ---- When a late untying does harm ---------------------------------------------------------------

  lemma {:induction false} ReachesJoin(s: System, run: seq<Action>, m: System, more: seq<Action>, n: System)
    requires Reaches(s, run, m) && Reaches(m, more, n)
    ensures Reaches(s, run + more, n)
    decreases |run|
  {
    hide Step, Enabled;
    if run == [] {
      assert run + more == more;
    } else {
      assert (run + more)[0] == run[0] && (run + more)[1..] == run[1..] + more;
      ReachesJoin(Step(s, run[0]), run[1..], m, more, n);
    }
  }

  lemma ReachesStep(s: System, run: seq<Action>, m: System, a: Action)
    requires Reaches(s, run, m) && Enabled(m, a)
    ensures Reaches(s, run + [a], Step(m, a))
  {
    hide Step, Enabled;
    assert [a][1..] == [] && Reaches(Step(m, a), [], Step(m, a));
    ReachesJoin(s, run, m, [a], Step(m, a));
  }

  lemma FreshThread(s: System) returns (t: nat)
    ensures t !in s.threads
  {
    t := FreshNumber(s.threads.Keys);
  }

  lemma {:induction false} FreshNumber(used: set<nat>) returns (t: nat)
    ensures forall u | u in used :: u < t
  {
    t := 0;
    if used != {} {
      var u: nat :| u in used;
      var below := FreshNumber(used - {u});
      t := if u < below then below else u + 1;
      forall v | v in used ensures v < t {
        assert v == u || v in used - {u};
      }
    }
  }

  /** Whoever holds the gate lets it go. */
  lemma GateFreed(s: System, tab: string) returns (run: seq<Action>, n: System)
    requires GateInv(s)
    ensures Reaches(s, run, n) && NoLateUntie(run) && n.ties == s.ties && n.log == s.log && tab !in n.gate
  {
    hide DrivesNamed, GatesHeld;
    run, n := [], s;
    if tab in s.gate {
      var a := Abort(s.gate[tab]);
      n := Step(s, a);
      assert Reaches(s, [], s);
      ReachesStep(s, [], s, a);
      run := [] + [a];
    }
  }

  ghost predicate NoLateUntie(run: seq<Action>) {
    forall i | 0 <= i < |run| :: !run[i].LateUntie?
  }

  /** A local turn on a tab whose gate is free. */
  lemma LocalTurn(s: System, tab: string) returns (run: seq<Action>, n: System)
    requires tab !in s.gate
    ensures Reaches(s, run, n) && NoLateUntie(run) && n.ties == Reclaimed(s.ties, tab) && n.gate == s.gate
    ensures n.log == s.log + [LocalReclaim(tab)] + [LocalSubmit(tab)]
  {
    hide Reclaimed;
    var t := FreshThread(s);
    var a, b, c, d := StartLocal(t, tab), Acquire(t), Reclaim(t), Submit(t);
    var m1 := Step(s, a);
    var m2 := Step(m1, b);
    var m3 := Step(m2, c);
    n := Step(m3, d);
    run := [] + [a] + [b] + [c] + [d];
    assert n.gate == s.gate;
    FourSteps(s, a, b, c, d);
  }

  lemma FourSteps(s: System, a: Action, b: Action, c: Action, d: Action)
    requires Enabled(s, a) && Enabled(Step(s, a), b) && Enabled(Step(Step(s, a), b), c) && Enabled(Step(Step(Step(s, a), b), c), d)
    ensures Reaches(s, [] + [a] + [b] + [c] + [d], Step(Step(Step(Step(s, a), b), c), d))
  {
    hide Step, Enabled;
    assert Reaches(s, [], s);
    ReachesStep(s, [], s, a);
    ReachesStep(s, [] + [a], Step(s, a), b);
    ReachesStep(s, [] + [a] + [b], Step(Step(s, a), b), c);
    ReachesStep(s, [] + [a] + [b] + [c], Step(Step(Step(s, a), b), c), d);
  }

  /** A drive, by a chat that drives the tab, up to its re-check while the gate is free. */
  lemma DriveChecks(s: System, route: Route, tab: string) returns (run: seq<Action>, n: System, t: nat)
    requires TabOf(s.ties, route) == tab != "" && tab !in s.gate
    ensures Reaches(s, run, n) && NoLateUntie(run) && n.ties == s.ties && n.log == s.log && Checked(n, tab, route, t)
  {
    hide Key;
    t := FreshThread(s);
    var a, b, c, d := StartDrive(t, route), Proceed(t), Acquire(t), Recheck(t);
    var m1 := Step(s, a);
    var m2 := Step(m1, b);
    var m3 := Step(m2, c);
    n := Step(m3, d);
    run := [] + [a] + [b] + [c] + [d];
    FourSteps(s, a, b, c, d);
  }

  predicate Checked(s: System, tab: string, route: Route, t: nat) {
    t in s.threads && s.threads[t] == DriveChecked(tab, route)
  }

  /** The same up to its submission. */
  lemma DriveTurn(s: System, route: Route, tab: string) returns (run: seq<Action>, n: System)
    requires TabOf(s.ties, route) == tab != "" && tab !in s.gate
    ensures Reaches(s, run, n) && NoLateUntie(run) && n.ties == s.ties && n.log == s.log + [DriveSubmit(tab, Key(route))]
  {
    hide Key, TabOf;
    var checks, m, t := DriveChecks(s, route, tab);
    n := Step(m, Submit(t));
    run := checks + [Submit(t)];
    ReachesStep(s, checks, m, Submit(t));
  }

  /** Between `s` and `n` a local turn reclaims the tab and then the chat's drive submits to it, with no takeover
      by that chat in between. */
  ghost predicate Violation(s: System, n: System, tab: string, key: string) {
    exists i, j :: |s.log| <= i < j < |n.log| && ViolationAt(n.log, i, j, tab, key)
  }

  ghost predicate ViolationAt(log: seq<Event>, i: nat, j: nat, tab: string, key: string)
    requires i < j < |log|
  {
    log[i] == LocalReclaim(tab) && log[j] == DriveSubmit(tab, key) && forall k | i < k < j :: log[k] != Took(tab, key)
  }

  /** Some run from `s`, without any further late untying, has a drive slip in after a local turn. */
  ghost predicate DriveCanSlipIn(s: System) {
    exists run, n, tab, key :: Reaches(s, run, n) && NoLateUntie(run) && Violation(s, n, tab, key)
  }

  lemma {:induction false} NoLateUntieIsUnrobbed(s: System, run: seq<Action>, n: System)
    requires Reaches(s, run, n) && NoLateUntie(run)
    ensures Unrobbed(s, run)
    decreases |run|
  {
    hide Step, Enabled;
    if run != [] {
      assert !run[0].LateUntie?;
      assert forall i | 0 <= i < |run[1..]| :: run[1..][i] == run[i + 1];
      NoLateUntieIsUnrobbed(Step(s, run[0]), run[1..], n);
    }
  }

  /** In a state that keeps all claims no drive can slip in. */
  lemma InvKeepsDrivesOut(s: System)
    requires Inv(s)
    ensures !DriveCanSlipIn(s)
  {
    if DriveCanSlipIn(s) {
      var run, n, tab, key :| Reaches(s, run, n) && NoLateUntie(run) && Violation(s, n, tab, key);
      NoLateUntieIsUnrobbed(s, run, n);
      RunKeepsInv(s, run, n);
      var i, j :| |s.log| <= i < j < |n.log| && ViolationAt(n.log, i, j, tab, key);
      TookBetween(n.log, i, j);
      assert false;
    }
  }

  /** A chat whose tab nobody holds: a local turn cannot take it back from that chat. */
  lemma OrphanSlipsIn(s: System, route: Route, tab: string)
    requires GateInv(s) && TabOf(s.ties, route) == tab != "" && tab !in s.ties.takeovers
    ensures DriveCanSlipIn(s)
  {
    hide Key;
    var run1, m1 := GateFreed(s, tab);
    var run2, m2 := LocalTurn(m1, tab);
    assert m2.ties == s.ties;
    var run3, n := DriveTurn(m2, route, tab);
    ReachesJoin(s, run1, m1, run2, m2);
    ReachesJoin(s, run1 + run2, m2, run3, n);
    assert n.log == s.log + [LocalReclaim(tab)] + [LocalSubmit(tab)] + [DriveSubmit(tab, Key(route))];
    var i := |s.log|;
    assert ViolationAt(n.log, i, i + 2, tab, Key(route));
    assert Violation(s, n, tab, Key(route));
    assert NoLateUntie(run1 + run2 + run3);
  }

  /** Up to a late untying nobody was robbed. After it, a drive can slip in behind a local turn if and only if it
      robs a chat, that is, if another chat drives the tab by then. */
  lemma LateUntieExact(run: seq<Action>, s: System, a: Action)
    requires Reaches(INITIAL, run, s) && Unrobbed(INITIAL, run) && a.LateUntie? && Enabled(s, a)
    ensures DriveCanSlipIn(Step(s, a)) <==> Robs(s, a)
  {
    RunKeepsInv(INITIAL, run, s);
    if Robs(s, a) {
      var p := s.threads[a.t];
      var k :| k in s.ties.takeoverTabs && k != Key(p.route) && s.ties.takeoverTabs[k] == p.tab;
      RobbedIsOrphan(s, a, k);
    } else {
      StepKeepsInv(s, a);
      InvKeepsDrivesOut(Step(s, a));
    }
  }

  lemma RobbedIsOrphan(s: System, a: Action, k: string)
    requires Inv(s) && a.LateUntie? && Enabled(s, a)
    requires k in s.ties.takeoverTabs && k != Key(s.threads[a.t].route) && s.ties.takeoverTabs[k] == s.threads[a.t].tab
    ensures DriveCanSlipIn(Step(s, a))
  {
    hide Key, TiesClaimed, ChecksStand, SubmitsClaimed;
    GateKept(s, a);
    OrphanSlipsIn(Step(s, a), s.ties.takeovers[s.threads[a.t].tab], s.threads[a.t].tab);
  }

  /** Chat `a`'s message reads the tab it drives; `a` lets it go and `b` takes it over; only then is it untied. */
  lemma RobbingRun(a: Route, b: Route, tab: string) returns (run: seq<Action>, n: System)
    requires a.chatType.DM? && b.chatType.DM? && Key(a) != Key(b) && tab != ""
    ensures Reaches(INITIAL, run, n) && n.ties.takeovers == map[] && TabOf(n.ties, b) == tab && n.gate == map[]
    ensures n.log == [Took(tab, Key(a)), Took(tab, Key(b))]
  {
    hide Key;
    var sessions := map[tab := Session(false, false)];
    var a1, a2, a3, a4, a5 := Take(a, tab, sessions), StartDrive(1, a), Release(a), Take(b, tab, sessions), LateUntie(1);
    var s1 := Step(INITIAL, a1);
    var s2 := Step(s1, a2);
    var s3 := Step(s2, a3);
    assert s3.ties == Ties(map[], map[]);
    var s4 := Step(s3, a4);
    n := Step(s4, a5);
    FourSteps(INITIAL, a1, a2, a3, a4);
    ReachesStep(INITIAL, [] + [a1] + [a2] + [a3] + [a4], s4, a5);
    run := [] + [a1] + [a2] + [a3] + [a4] + [a5];
  }

  /** After that a local turn finds nothing to reclaim, and `b`'s drive submits after it. */
  lemma LateUntieLetsDriveSlipIn(a: Route, b: Route, tab: string) returns (run: seq<Action>, n: System)
    requires a.chatType.DM? && b.chatType.DM? && Key(a) != Key(b) && tab != ""
    ensures Reaches(INITIAL, run, n)
    ensures n.log == [Took(tab, Key(a)), Took(tab, Key(b)), LocalReclaim(tab), LocalSubmit(tab), DriveSubmit(tab, Key(b))]
  {
    var run1, s := RobbingRun(a, b, tab);
    var run2, m := LocalTurn(s, tab);
    assert m.ties == s.ties;
    hide Key, TabOf, Reclaimed;
    var run3;
    run3, n := DriveTurn(m, b, tab);
    ReachesJoin(INITIAL, run1, s, run2, m);
    ReachesJoin(INITIAL, run1 + run2, m, run3, n);
    run := run1 + run2 + run3;
  }

  // ---- The effort command --------------------------------------------------------------------------

  /** The chat's drive submits to the tab at `j`, with no takeover by that chat since `s`. */
  ghost predicate SubmitsAt(s: System, n: System, j: nat, tab: string, key: string) {
    |s.log| <= j < |n.log| && n.log[j] == DriveSubmit(tab, key) && forall k | |s.log| <= k < j :: n.log[k] != Took(tab, key)
  }

  /** Some run that goes on with an /effort command on the tab has the chat's drive submit after it. */
  ghost predicate SubmitsAfterEffort(s: System, tab: string, key: string) {
    exists run, n, j :: run != [] && run[0] == Effort(tab) && Reaches(s, run, n) && SubmitsAt(s, n, j, tab, key)
  }

  /** A drive of the chat has passed its re-check for the tab, and holds the gate. */
  ghost predicate ChatChecked(s: System, tab: string, key: string) {
    exists t :: t in s.threads && s.threads[t].DriveChecked? && s.threads[t].tab == tab && Key(s.threads[t].route) == key
  }

  predicate Drives(b: Ties, tab: string, key: string) {
    key in b.takeoverTabs && b.takeoverTabs[key] == tab
  }

  lemma {:induction false} LogGrows(s: System, run: seq<Action>, n: System)
    requires Reaches(s, run, n)
    ensures s.log <= n.log
    decreases |run|
  {
    if run != [] {
      StepLogs(s, run[0]);
      hide Step, Enabled;
      LogGrows(Step(s, run[0]), run[1..], n);
    }
  }

  lemma StepLogs(s: System, a: Action)
    requires Enabled(s, a)
    ensures s.log <= Step(s, a).log && |Step(s, a).log| <= |s.log| + 1
  {
  }

  /** A chat that does not drive the tab submits nothing to it, and passes no re-check for it, until it takes it over. */
  lemma StepKeepsOut(s: System, a: Action, tab: string, key: string)
    requires Enabled(s, a) && tab != "" && !Drives(s.ties, tab, key) && !ChatChecked(s, tab, key)
    ensures var n := Step(s, a);
            (|n.log| > |s.log| ==> n.log[|s.log|] != DriveSubmit(tab, key)) &&
            (!(|n.log| > |s.log| && n.log[|s.log|] == Took(tab, key)) ==> !Drives(n.ties, tab, key) && !ChatChecked(n, tab, key))
  {
    hide Key;
  }

  lemma {:induction false} KeptOut(s: System, run: seq<Action>, n: System, j: nat, tab: string, key: string)
    requires Reaches(s, run, n) && tab != "" && !Drives(s.ties, tab, key) && !ChatChecked(s, tab, key)
    ensures !SubmitsAt(s, n, j, tab, key)
    decreases |run|
  {
    if run != [] && SubmitsAt(s, n, j, tab, key) {
      var m := Step(s, run[0]);
      StepLogs(s, run[0]);
      LogGrows(m, run[1..], n);
      StepKeepsOut(s, run[0], tab, key);
      hide Step, Enabled, Drives, ChatChecked;
      if |m.log| > |s.log| {
        assert m.log[|s.log|] == n.log[|s.log|];
      }
      KeptOut(m, run[1..], n, j, tab, key);
    }
  }

  /** After an /effort command a drive of the chat can still submit to the tab, without a new takeover, if and only if
      one had passed its re-check before the command. */
  lemma EffortExact(run: seq<Action>, s: System, tab: string, key: string)
    requires Reaches(INITIAL, run, s) && Unrobbed(INITIAL, run) && tab != ""
    ensures SubmitsAfterEffort(s, tab, key) <==> ChatChecked(s, tab, key)
  {
    hide SubmitsAfterEffort;
    if ChatChecked(s, tab, key) {
      CheckedSubmits(s, tab, key);
    } else {
      RunKeepsInv(INITIAL, run, s);
      UncheckedStaysOut(s, tab, key);
    }
  }

  lemma CheckedSubmits(s: System, tab: string, key: string)
    requires ChatChecked(s, tab, key)
    ensures SubmitsAfterEffort(s, tab, key)
  {
    hide Key, Reclaimed;
    var t :| t in s.threads && s.threads[t].DriveChecked? && s.threads[t].tab == tab && Key(s.threads[t].route) == key;
    var m := Step(s, Effort(tab));
    var n := Step(m, Submit(t));
    assert Reaches(s, [], s);
    ReachesStep(s, [], s, Effort(tab));
    ReachesStep(s, [] + [Effort(tab)], m, Submit(t));
    var run := [] + [Effort(tab)] + [Submit(t)];
    assert run[0] == Effort(tab);
    assert SubmitsAt(s, n, |s.log| + 1, tab, key);
  }

  lemma UncheckedStaysOut(s: System, tab: string, key: string)
    requires Faithful(s.ties) && tab != "" && !ChatChecked(s, tab, key)
    ensures !SubmitsAfterEffort(s, tab, key)
  {
    ReclaimFrees(s.ties, tab);
    forall run, n, j | run != [] && run[0] == Effort(tab) && Reaches(s, run, n) ensures !SubmitsAt(s, n, j, tab, key) {
      var m := Step(s, run[0]);
      assert !Drives(m.ties, tab, key) && !ChatChecked(m, tab, key);
      hide Key, Reclaimed, ChatChecked, Faithful;
      LogGrows(m, run[1..], n);
      assert n.log[|s.log|] == m.log[|s.log|] == EffortReclaim(tab);
      KeptOut(m, run[1..], n, j, tab, key);
    }
  }

  /** A run in which it does. */
  lemma EffortCanSlipIn(route: Route, tab: string) returns (run: seq<Action>, n: System)
    requires route.chatType.DM? && tab != ""
    ensures Reaches(INITIAL, run, n)
    ensures n.log == [Took(tab, Key(route)), EffortReclaim(tab), DriveSubmit(tab, Key(route))] && n.ties == Ties(map[], map[])
  {
    hide Key;
    var take := Take(route, tab, map[tab := Session(false, false)]);
    var s1 := Step(INITIAL, take);
    assert TabOf(s1.ties, route) == tab;
    assert Reaches(INITIAL, [], INITIAL);
    ReachesStep(INITIAL, [], INITIAL, take);
    var checks, s2, t := DriveChecks(s1, route, tab);
    ReachesJoin(INITIAL, [] + [take], s1, checks, s2);
    var s3 := Step(s2, Effort(tab));
    assert s3.ties == Ties(map[], map[]);
    n := Step(s3, Submit(t));
    ReachesStep(INITIAL, [] + [take] + checks, s2, Effort(tab));
    ReachesStep(INITIAL, [] + [take] + checks + [Effort(tab)], s3, Submit(t));
    run := [] + [take] + checks + [Effort(tab)] + [Submit(t)];
  }
}
