/** The retry loop for deferred rebuilds: a pending set, three flags and at most one background loop.

Each step is one section under the mutex, or one move of a loop thread between sections. A tick copies
the pending set, retries outside the lock, and decides to exit only when it finds nothing pending.
*/
module DeferredRebuild {

  /** The flags and the pending set under the mutex; `started` counts the loops ever started. */
  datatype State = State(pending: map<string, string>, enabled: bool, running: bool, stopped: bool, started: nat)

  const INITIAL: State := State(map[], false, false, false, 0)

  /** Starts the loop when it is armed, idle, and has work. */
  function Started(d: State): State {
    if !d.enabled || d.running || d.stopped || d.pending == map[] then d
    else d.(running := true, started := d.started + 1)
  }

  function Enabled(d: State): State {
    Started(d.(enabled := true))
  }

  function Scheduled(d: State, tab: string, setting: string): State {
    if tab == "" || d.stopped then d else Started(d.(pending := d.pending[tab := setting]))
  }

  function Cleared(d: State, tab: string): State {
    d.(pending := d.pending - {tab})
  }

  function Stopped(d: State): State {
    d.(stopped := true)
  }

  /** The lock section of a tick: the state after it, and whether the tick is done. */
  function Ticked(d: State, markIdle: bool): (State, bool) {
    if d.stopped || d.pending == map[] then (if markIdle then d.(running := false) else d, true) else (d, false)
  }

  class DeferredRebuildState {
    var pending: map<string, string>
    var enabled: bool
    var running: bool
    var stopped: bool
    ghost var started: nat

    ghost function Value(): State
      reads this
    {
      State(pending, enabled, running, stopped, started)
    }

    constructor ()
      ensures Value() == INITIAL
    {
      pending, enabled, running, stopped, started := map[], false, false, false, 0;
    }

    /** `launched` tells whether a loop goroutine was started. */
    method StartLoopLocked() returns (launched: bool)
      modifies this
      ensures Value() == Started(old(Value())) && launched == (started == old(started) + 1)
    {
      if !enabled || running || stopped || |pending| == 0 {
        return false;
      }
      running := true;
      started := started + 1;
      return true;
    }

    method EnableRetry() returns (launched: bool)
      modifies this
      ensures Value() == Enabled(old(Value())) && launched == (started == old(started) + 1)
    {
      enabled := true;
      launched := StartLoopLocked();
    }

    method Schedule(tab: string, setting: string) returns (launched: bool)
      modifies this
      ensures Value() == Scheduled(old(Value()), tab, setting) && launched == (started == old(started) + 1)
      ensures pending == if tab == "" || stopped then old(pending) else old(pending)[tab := setting]
    {
      if tab == "" || stopped {
        return false;
      }
      pending := pending[tab := setting];
      launched := StartLoopLocked();
    }

    method Clear(tab: string)
      modifies this
      ensures Value() == Cleared(old(Value()), tab)
    {
      pending := pending - {tab};
    }

    method StopRetry()
      modifies this
      ensures Value() == Stopped(old(Value()))
    {
      if stopped {
        return;
      }
      stopped := true;
    }

    /** One tick: done, or a copy of what to retry. */
    method Tick(markIdle: bool) returns (done: bool, todo: map<string, string>)
      modifies this
      ensures (Value(), done) == Ticked(old(Value()), markIdle)
      ensures todo == if done then map[] else pending
    {
      if stopped || |pending| == 0 {
        if markIdle {
          running := false;
        }
        return true, map[];
      }
      return false, pending;
    }

    /** The loop's reaction to the closed stop channel. */
    method ObserveStop()
      modifies this
      ensures Value() == old(Value()).(running := false)
    {
      running := false;
    }
  }

  // ---- All interleavings ------------------------------------------------------------------

  /** A loop thread waits for its ticker, retries a copy of the pending set, or has decided to exit. */
  datatype Loop = Waiting | Retrying(todo: map<string, string>) | Exited

  /** Kicks retry outside the loop and never touch `running`. */
  datatype System = System(d: State, loops: seq<Loop>)

  datatype Action =
    | DoEnable
    | DoSchedule(tab: string, setting: string)
    | DoClear(tab: string)
    | DoStop
    | LoopTick(i: nat)
    | LoopRetry(i: nat, tab: string)   // one retry is over; its tab leaves the copy
    | LoopStop(i: nat)                 // the loop picks the stop channel
    | Kick

  predicate Possible(s: System, a: Action) {
    match a
    case LoopTick(i) => i < |s.loops| && s.loops[i].Waiting?
    case LoopRetry(i, tab) => i < |s.loops| && s.loops[i].Retrying? && tab in s.loops[i].todo
    case LoopStop(i) => i < |s.loops| && s.loops[i].Waiting? && s.d.stopped
    case _ => true
  }

  /** A loop thread exists for each start. */
  function Launch(s: System, d: State): System {
    System(d, if d.started == s.d.started + 1 then s.loops + [Waiting] else s.loops)
  }

  function Step(s: System, a: Action): System
    requires Possible(s, a)
  {
    match a
    case DoEnable => Launch(s, Enabled(s.d))
    case DoSchedule(tab, setting) => Launch(s, Scheduled(s.d, tab, setting))
    case DoClear(tab) => s.(d := Cleared(s.d, tab))
    case DoStop => s.(d := Stopped(s.d))
    case LoopTick(i) =>
      var (d, done) := Ticked(s.d, true);
      System(d, s.loops[i := if done then Exited else Retrying(s.d.pending)])
    case LoopRetry(i, tab) =>
      var left := s.loops[i].todo - {tab};
      s.(loops := s.loops[i := if left == map[] then Waiting else Retrying(left)])
    case LoopStop(i) => System(s.d.(running := false), s.loops[i := Exited])
    case Kick => s.(d := Ticked(s.d, false).0)
  }

  ghost predicate Run(actions: seq<Action>, states: seq<System>) {
    |states| == |actions| + 1 && states[0] == System(INITIAL, []) &&
    forall i | 0 <= i < |actions| :: Possible(states[i], actions[i]) && states[i + 1] == Step(states[i], actions[i])
  }

  /** Exactly one loop thread, the last started, has not decided to exit. */
  ghost predicate OneLoop(s: System) {
    |s.loops| > 0 && !s.loops[|s.loops| - 1].Exited? && forall i | 0 <= i < |s.loops| - 1 :: s.loops[i].Exited?
  }

  ghost predicate NoLoop(s: System) {
    forall i | 0 <= i < |s.loops| :: s.loops[i].Exited?
  }

  ghost predicate Inv(s: System) {
    s.d.started == |s.loops| &&
    (s.d.enabled && !s.d.stopped && s.d.pending != map[] ==> s.d.running) &&
    (if s.d.running then OneLoop(s) else NoLoop(s))
  }

  lemma StepKeepsInv(s: System, a: Action)
    requires Inv(s) && Possible(s, a)
    ensures Inv(Step(s, a))
  {
  }

  lemma {:induction false} RunKeepsInv(actions: seq<Action>, states: seq<System>, i: nat)
    requires Run(actions, states) && i < |states|
    ensures Inv(states[i])
  {
    hide Step, Inv, Possible;
    if i > 0 {
      RunKeepsInv(actions, states, i - 1);
      StepKeepsInv(states[i - 1], actions[i - 1]);
    } else {
      InitialInv();
    }
  }

  lemma InitialInv()
    ensures Inv(System(INITIAL, []))
  {
  }

  /** No wake-up is lost: whenever the loop is armed, not stopped and something is pending, a loop runs,
      and it is the only one that has not decided to exit. When it does not run, none is left. */
  lemma NoLostWakeUp(actions: seq<Action>, states: seq<System>, i: nat)
    requires Run(actions, states) && i < |states|
    ensures var s := states[i];
            (s.d.enabled && !s.d.stopped && s.d.pending != map[] ==> s.d.running) &&
            (s.d.running ==> exists k | 0 <= k < |s.loops| ::
               !s.loops[k].Exited? && forall j | 0 <= j < |s.loops| && j != k :: s.loops[j].Exited?) &&
            (!s.d.running ==> forall j | 0 <= j < |s.loops| :: s.loops[j].Exited?)
  {
    RunKeepsInv(actions, states, i);
    var s := states[i];
    if s.d.running {
      assert !s.loops[|s.loops| - 1].Exited?;
    }
  }

  /** What is scheduled stays pending, with the setting given last, until it is cleared. */
  lemma {:induction false} ScheduledStaysPending(actions: seq<Action>, states: seq<System>, i: nat, j: nat, tab: string, setting: string)
    requires Run(actions, states) && i < j < |states| && actions[i] == DoSchedule(tab, setting) && tab != "" && !states[i].d.stopped
    requires forall k | i < k < j :: actions[k] != DoClear(tab) && !(actions[k].DoSchedule? && actions[k].tab == tab)
    ensures tab in states[j].d.pending && states[j].d.pending[tab] == setting
    decreases j
  {
    assert states[j] == Step(states[j - 1], actions[j - 1]) && Possible(states[j - 1], actions[j - 1]);
    if i < j - 1 {
      ScheduledStaysPending(actions, states, i, j - 1, tab, setting);
    }
  }

  /** A loop retries each tab of its copy: until the retry of a tab is over, the loop has it still to do. */
  lemma {:induction false} EachTabIsRetried(actions: seq<Action>, states: seq<System>, x: nat, y: nat, i: nat, tab: string)
    requires Run(actions, states) && x <= y < |states| && i < |states[x].loops|
    requires states[x].loops[i].Retrying? && tab in states[x].loops[i].todo
    requires forall k | x <= k < y :: actions[k] != LoopRetry(i, tab)
    ensures i < |states[y].loops| && states[y].loops[i].Retrying? && tab in states[y].loops[i].todo
    decreases y
  {
    if x < y {
      EachTabIsRetried(actions, states, x, y - 1, i, tab);
      assert states[y] == Step(states[y - 1], actions[y - 1]) && Possible(states[y - 1], actions[y - 1]);
      if actions[y - 1].LoopRetry? {
        assert actions[y - 1].i == i ==> tab in states[y - 1].loops[i].todo - {actions[y - 1].tab};
      }
    }
  }

  /** After a stop no loop is ever started again, and the pending set never grows. */
  lemma {:induction false} NothingStartsAfterStop(actions: seq<Action>, states: seq<System>, i: nat, j: nat)
    requires Run(actions, states) && i <= j < |states| && states[i].d.stopped
    ensures states[j].d.stopped && states[j].d.started == states[i].d.started && |states[j].loops| == |states[i].loops|
    ensures states[j].d.pending.Keys <= states[i].d.pending.Keys
    decreases j
  {
    if i < j {
      NothingStartsAfterStop(actions, states, i, j - 1);
      assert states[j] == Step(states[j - 1], actions[j - 1]);
    }
  }

  /** Work that is pending when an armed loop ticks is in the copy that tick retries. */
  lemma TickRetriesAllPending(actions: seq<Action>, states: seq<System>, n: nat, i: nat)
    requires Run(actions, states) && n < |actions| && actions[n] == LoopTick(i)
    requires !states[n].d.stopped && states[n].d.pending != map[]
    ensures states[n + 1].loops[i] == Retrying(states[n].d.pending) && states[n + 1].d == states[n].d && states[n].d.running
  {
    RunKeepsInv(actions, states, n);
    assert states[n + 1] == Step(states[n], actions[n]);
  }
}
