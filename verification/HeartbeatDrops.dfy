/** When conversations of one task overlap, and when a topic is left behind.

A pending topic guards its conversation in its own engine only: the lease of the task, which all engines share, is
given back as soon as the prompt is submitted. So conversations of one task overlap, in any run, in two ways only:
a list edit dropped a topic marked submitted, or another engine still has one pending. A topic dropped while marked
unsubmitted may never get its prompt.
*/
module HeartbeatDrops {
  import opened HeartbeatRun

  ghost predicate SentBy(s: State, t: Topic) {
    exists i :: i in s.execs && s.execs[i].phase.Sent? && s.execs[i].phase.topic == t
  }

  predicate IsPending(s: State, t: Topic)
    requires t < |s.creator|
  {
    s.creator[t] in s.pending && s.pending[s.creator[t]].topic == t
  }

  /** Prompted by a submit reported as started, and not seen idle since. */
  predicate Running(s: State, t: Topic) {
    s.submits[t] == 1 && t !in s.idle
  }

  /** Where a topic that is not closed can be found. */
  ghost predicate Known(s: State, t: Topic)
    requires t < |s.creator|
  {
    (Running(s, t) ==> IsPending(s, t) || t in s.lost || SentBy(s, t)) &&
    (s.submits[t] == 0 ==> (IsPending(s, t) && !s.pending[s.creator[t]].submitted) || FreshBy(s, t) || t in s.abandoned) &&
    (t in s.lost ==> s.submits[t] == 1) &&
    (t in s.abandoned && s.submits[t] == 0 ==> !IsPending(s, t) && !FreshBy(s, t)) &&
    (t in s.idle ==> s.submits[t] == 1 && !IsPending(s, t) && !SentBy(s, t))
  }

  ghost predicate DropsKnown(s: State) {
    (forall t | 0 <= t < |s.creator| :: Known(s, t)) && forall t | t in s.lost + s.abandoned + s.idle :: t < |s.creator|
  }

  lemma FreshHasKey(s: State, i: nat)
    requires Inv(s) && i in s.execs && (s.execs[i].phase.Fresh? || s.execs[i].phase.Sent?)
    ensures Owned(s, s.execs[i].phase.topic, s.execs[i].key)
  {
    hide Exclusive, NoneLeft, LeasesHeld, AtMostOnce, NoneForgotten, Quiet, SlotOk;
    assert PhaseOk(s, s.execs[i].key, s.execs[i].phase);
  }

  /** Whether an execution has just created or submitted a topic does not depend on steps of other tasks. */
  lemma HandsUnchanged(s: State, n: State, k: Key, t: Topic)
    requires Inv(s) && Inv(n) && Frame(s, n, k) && t < |s.creator| && s.creator[t] != k
    ensures FreshBy(n, t) <==> FreshBy(s, t)
    ensures SentBy(n, t) <==> SentBy(s, t)
  {
    hide Inv;
    forall i | i in s.execs && (s.execs[i].phase.Fresh? || s.execs[i].phase.Sent?) && s.execs[i].phase.topic == t
      ensures i in n.execs && n.execs[i] == s.execs[i]
    {
      FreshHasKey(s, i);
    }
    forall i | i in n.execs && (n.execs[i].phase.Fresh? || n.execs[i].phase.Sent?) && n.execs[i].phase.topic == t
      ensures i in s.execs && n.execs[i] == s.execs[i]
    {
      FreshHasKey(n, i);
    }
  }

  lemma DropsOfOthers(s: State, a: Action, t: Topic)
    requires Inv(s) && Next(s, a).Some? && t < |s.creator| && s.creator[t] != KeyOf(s, a)
    ensures var n := Next(s, a).value; (t in n.lost <==> t in s.lost) && (t in n.abandoned <==> t in s.abandoned)
  {
    hide Next, KeyOf, Inv;
    var k := KeyOf(s, a);
    DropsGrowAt(s, a, t);
    if k in s.pending {
      SlotOfPending(s, k);
    }
  }

  lemma DropsGrowAt(s: State, a: Action, t: Topic)
    requires Next(s, a).Some?
    ensures var n, k := Next(s, a).value, KeyOf(s, a);
            (t in s.lost ==> t in n.lost) && (t in s.abandoned ==> t in n.abandoned) &&
            ((t in n.lost && t !in s.lost) || (t in n.abandoned && t !in s.abandoned) ==> k in s.pending && t == s.pending[k].topic)
  {
  }

  lemma KnownFrames(s: State, n: State, k: Key, t: Topic)
    requires Frame(s, n, k) && t < |s.creator| && s.creator[t] != k && Known(s, t)
    requires (t in n.lost <==> t in s.lost) && (t in n.abandoned <==> t in s.abandoned) && (t in n.idle <==> t in s.idle)
    requires (FreshBy(n, t) <==> FreshBy(s, t)) && (SentBy(n, t) <==> SentBy(s, t))
    ensures t < |n.creator| && Known(n, t)
  {
    hide FreshBy, SentBy;
  }

  lemma OthersKnown(s: State, a: Action, t: Topic)
    requires Inv(s) && Next(s, a).Some? && DropsKnown(s) && t < |s.creator| && s.creator[t] != KeyOf(s, a)
    ensures t < |Next(s, a).value.creator| && Known(Next(s, a).value, t)
  {
    var n, k := Next(s, a).value, KeyOf(s, a);
    assert Known(s, t);
    assert Exclusive(s) && Phases(s) && AtMostOnce(s);
    hide Inv, Next, KeyOf, Frame, OwnOk, Known, DropsKnown, Exclusive, Phases, AtMostOnce;
    StepKeepsInv(s, a);
    StepIsLocal(s, a);
    HandsUnchanged(s, n, k, t);
    DropsOfOthers(s, a, t);
    IdleOfOthers(s, a, t);
    KnownFrames(s, n, k, t);
  }

  lemma IdleOfOthers(s: State, a: Action, t: Topic)
    requires Inv(s) && Next(s, a).Some? && t < |s.creator| && s.creator[t] != KeyOf(s, a)
    ensures t in Next(s, a).value.idle <==> t in s.idle
  {
    hide Exclusive, NoneLeft, LeasesHeld, AtMostOnce, NoneForgotten, Quiet, SlotOk;
    if a.SeeIdle? {
      assert PhaseOk(s, s.execs[a.i].key, s.execs[a.i].phase);
    }
  }

  // The task's own topics.

  lemma HandIsSole(s: State, i: nat, t: Topic)
    requires Inv(s) && Sole(s, i) && t < |s.creator| && s.creator[t] == s.execs[i].key
    ensures FreshBy(s, t) ==> s.execs[i].phase.Fresh? && s.execs[i].phase.topic == t
    ensures SentBy(s, t) ==> s.execs[i].phase.Sent? && s.execs[i].phase.topic == t
  {
    hide Inv, PhaseOk, SlotOk;
    if FreshBy(s, t) {
      var j :| j in s.execs && s.execs[j].phase.Fresh? && s.execs[j].phase.topic == t;
      FreshHasKey(s, j);
    }
    if SentBy(s, t) {
      var j :| j in s.execs && s.execs[j].phase.Sent? && s.execs[j].phase.topic == t;
      FreshHasKey(s, j);
    }
  }

  /** What is the same for each step of the task's own execution. */
  ghost predicate OwnStep(s: State, a: Action, t: Topic) {
    !a.Claim? && !a.Prune? && Sole(s, a.i) && AtMostOnce(s) && Next(s, a).Some? &&
    t < |s.creator| && s.creator[t] == s.execs[a.i].key && Known(s, t) &&
    (FreshBy(s, t) ==> s.execs[a.i].phase.Fresh? && s.execs[a.i].phase.topic == t) &&
    (SentBy(s, t) ==> s.execs[a.i].phase.Sent? && s.execs[a.i].phase.topic == t) &&
    var n := Next(s, a).value; FreshBy(n, t) ==> a.i in n.execs && n.execs[a.i].phase.Fresh? && n.execs[a.i].phase.topic == t
  }

  lemma OwnKnown(s: State, a: Action, t: Topic)
    requires OwnStep(s, a, t)
    ensures t < |Next(s, a).value.creator| && Known(Next(s, a).value, t)
  {
    if a.Submit? || a.SubmitUnreported? || a.MarkSubmitted? || a.SeeIdle? {
      OwnPromptKnown(s, a, t);
    } else {
      OwnQuietKnown(s, a, t);
    }
  }

  lemma OwnPromptKnown(s: State, a: Action, t: Topic)
    requires OwnStep(s, a, t) && (a.Submit? || a.SubmitUnreported? || a.MarkSubmitted? || a.SeeIdle?)
    ensures t < |Next(s, a).value.creator| && Known(Next(s, a).value, t)
  {
    hide Quiet;
    if a.Submit? && s.execs[a.i].phase.topic == t {
      assert Next(s, a).value.execs[a.i].phase == Sent(t);
    }
  }

  lemma OwnQuietKnown(s: State, a: Action, t: Topic)
    requires OwnStep(s, a, t) && !a.Submit? && !a.SubmitUnreported? && !a.MarkSubmitted? && !a.SeeIdle?
    ensures t < |Next(s, a).value.creator| && Known(Next(s, a).value, t)
  {
    hide Quiet;
  }

  lemma NewKnown(s: State, a: Action)
    requires a.Create? && Inv(s) && DropsKnown(s) && Next(s, a).Some?
    ensures |Next(s, a).value.creator| == |s.creator| + 1 && Known(Next(s, a).value, |s.creator|)
  {
    hide Exclusive, NoneLeft, LeasesHeld, Phases, NoneForgotten, Known;
    var n := Next(s, a).value;
    assert n.execs[a.i].phase.Fresh? && n.execs[a.i].phase.topic == |s.creator|;
    assert |s.creator| !in s.lost + s.abandoned + s.idle;
    assert FreshBy(n, |s.creator|) && n.submits[|s.creator|] == 0;
    NewIsKnown(n, |s.creator|);
  }

  lemma NewIsKnown(n: State, t: Topic)
    requires t < |n.creator| && FreshBy(n, t) && n.submits[t] == 0 && t !in n.lost && t !in n.abandoned && t !in n.idle
    ensures Known(n, t)
  {
    hide FreshBy, SentBy;
  }

  lemma ClaimKnown(s: State, a: Action, t: Topic)
    requires a.Claim? && Inv(s) && Next(s, a).Some? && t < |s.creator| && Known(s, t)
    ensures Known(Next(s, a).value, t)
  {
    hide Inv, Advance;
    var n := Next(s, a).value;
    forall i | i in s.execs ensures i in n.execs && n.execs[i] == s.execs[i] {
    }
    assert FreshBy(s, t) ==> FreshBy(n, t);
    assert SentBy(s, t) ==> SentBy(n, t);
    forall i | i in n.execs && !n.execs[i].phase.Claimed? ensures i in s.execs && s.execs[i] == n.execs[i] {
    }
    assert FreshBy(n, t) ==> FreshBy(s, t);
    assert SentBy(n, t) ==> SentBy(s, t);
  }

  /** A list edit drops a topic: a prompted one is lost, another abandoned. */
  lemma PruneKnown(s: State, a: Action, t: Topic)
    requires a.Prune? && Inv(s) && Next(s, a).Some? && t < |s.creator| && s.creator[t] == a.key && Known(s, t)
    ensures Known(Next(s, a).value, t)
  {
    var n, k := Next(s, a).value, a.key;
    var p := s.pending[k];
    assert SlotOk(s, k);
    if !p.submitted {
      PendingIsPrompted(s, k);
    }
    hide Inv, Advance, SlotOk, Quiet;
    assert n.execs == s.execs;
    assert FreshBy(n, t) <==> FreshBy(s, t);
    assert SentBy(n, t) <==> SentBy(s, t);
    if p.topic == t && FreshBy(s, t) {
      FreshEmpties(s, t);
    }
  }

  lemma FreshEmpties(s: State, t: Topic)
    requires Inv(s) && FreshBy(s, t) && t < |s.creator|
    ensures s.creator[t] !in s.pending
  {
    hide Exclusive, NoneLeft, LeasesHeld, AtMostOnce, NoneForgotten, Quiet, SlotOk;
    var i :| i in s.execs && s.execs[i].phase.Fresh? && s.execs[i].phase.topic == t;
    assert PhaseOk(s, s.execs[i].key, s.execs[i].phase);
  }

  /** A pending topic marked unsubmitted has had no prompt, unless its execution is just about to mark it. */
  lemma PendingIsPrompted(s: State, k: Key)
    requires Inv(s) && k in s.pending && !s.pending[k].submitted
    ensures s.submits[s.pending[k].topic] == 0 || SentBy(s, s.pending[k].topic)
  {
    hide OneEach, LeasesHeld, AtMostOnce, NoneForgotten;
    if k in s.running {
      var i :| i in s.execs && s.execs[i].key == k;
      assert PhaseOk(s, k, s.execs[i].phase);
    } else {
      assert Quiet(s, k);
    }
  }

  lemma DropsStayKnown(s: State, a: Action)
    requires Inv(s) && DropsKnown(s) && Next(s, a).Some?
    ensures DropsKnown(Next(s, a).value)
  {
    hide Inv, Next, Known;
    var n := Next(s, a).value;
    forall t | 0 <= t < |n.creator| ensures Known(n, t) {
      OneStaysKnown(s, a, t);
    }
    assert Phases(s) by { InvPhases(s); }
    DropsBounded(s, a);
  }

  lemma InvPhases(s: State)
    requires Inv(s)
    ensures Phases(s)
  {
  }

  lemma NewlyIdle(s: State, a: Action, t: Topic)
    requires Phases(s) && Next(s, a).Some? && t in Next(s, a).value.idle && t !in s.idle
    ensures t < |s.creator|
  {
    hide SlotOk, Quiet;
    assert PhaseOk(s, s.execs[a.i].key, s.execs[a.i].phase);
  }

  lemma DropsBounded(s: State, a: Action)
    requires Phases(s) && Next(s, a).Some? && forall t | t in s.lost + s.abandoned + s.idle :: t < |s.creator|
    ensures var n := Next(s, a).value; forall t | t in n.lost + n.abandoned + n.idle :: t < |n.creator|
  {
    hide Next, KeyOf, Quiet, PhaseOk;
    TopicsGrow(s, a);
    var n, k := Next(s, a).value, KeyOf(s, a);
    forall t: Topic | t in n.lost + n.abandoned + n.idle ensures t < |n.creator| {
      if t in n.idle && t !in s.idle {
        NewlyIdle(s, a, t);
      } else if t !in s.lost + s.abandoned + s.idle {
        DropsGrowAt(s, a, t);
        assert SlotOk(s, k);
      }
    }
  }

  lemma KnownAt(s: State, t: Topic)
    requires DropsKnown(s) && t < |s.creator|
    ensures Known(s, t)
  {
    hide Known;
  }

  lemma OneStaysKnown(s: State, a: Action, t: Topic)
    requires Inv(s) && DropsKnown(s) && Next(s, a).Some? && t < |Next(s, a).value.creator|
    ensures Known(Next(s, a).value, t)
  {
    hide Inv, Next, KeyOf, Known, FreshBy, DropsKnown;
    var n, k := Next(s, a).value, KeyOf(s, a);
    TopicsGrow(s, a);
    StepKeepsInv(s, a);
    if !a.Claim? && !a.Prune? {
      ActorOf(s, a);
    }
    if t >= |s.creator| {
      assert n.creator[t] == k;
      NewKnown(s, a);
    } else {
      assert Known(s, t) by { KnownAt(s, t); }
      if s.creator[t] != k {
        OthersKnown(s, a, t);
      } else if a.Claim? {
        ClaimKnown(s, a, t);
      } else if a.Prune? {
        assert KeyOf(s, a) == a.key by { PruneKey(s, a); }
        PruneKnown(s, a, t);
      } else {
        OwnStaysKnown(s, a, t);
      }
    }
  }

  lemma PruneKey(s: State, a: Action)
    requires a.Prune? && Next(s, a).Some?
    ensures KeyOf(s, a) == a.key
  {
  }

  lemma ActorOf(s: State, a: Action)
    requires !a.Claim? && !a.Prune? && Next(s, a).Some?
    ensures a.i in s.execs && KeyOf(s, a) == s.execs[a.i].key
  {
    hide Advance;
  }

  lemma OwnStaysKnown(s: State, a: Action, t: Topic)
    requires !a.Claim? && !a.Prune? && Next(s, a).Some? && Inv(s) && Inv(Next(s, a).value)
    requires a.i in s.execs && t < |s.creator| && s.creator[t] == s.execs[a.i].key && Known(s, t)
    ensures t < |Next(s, a).value.creator| && Known(Next(s, a).value, t)
  {
    var n := Next(s, a).value;
    assert Exclusive(s) && Phases(s) && AtMostOnce(s);
    hide Inv, Next, Known, Exclusive, Phases, AtMostOnce, PhaseOk, SlotOk, Quiet;
    assert a.i in s.execs;
    SoleExec(s, a.i);
    hide Sole;
    HandIsSole(s, a.i, t);
    if FreshBy(n, t) {
      FreshIsMine(s, a, t);
    }
    hide FreshBy, SentBy;
    OwnKnown(s, a, t);
  }

  lemma MovesOne(s: State, a: Action)
    requires !a.Claim? && !a.Prune? && Next(s, a).Some?
    ensures forall j | j in Next(s, a).value.execs && j != a.i :: j in s.execs && s.execs[j] == Next(s, a).value.execs[j]
  {
  }

  lemma FreshIsMine(s: State, a: Action, t: Topic)
    requires !a.Claim? && !a.Prune? && Next(s, a).Some? && Inv(s) && Inv(Next(s, a).value) && FreshBy(Next(s, a).value, t)
    requires Sole(s, a.i) && t < |s.creator| && s.creator[t] == s.execs[a.i].key
    ensures var n := Next(s, a).value; a.i in n.execs && n.execs[a.i].phase.Fresh? && n.execs[a.i].phase.topic == t
  {
    hide Inv, PhaseOk, SlotOk, Next, Quiet, KeyOf;
    var n := Next(s, a).value;
    TopicsGrow(s, a);
    MovesOne(s, a);
    var j :| j in n.execs && n.execs[j].phase.Fresh? && n.execs[j].phase.topic == t;
    FreshHasKey(n, j);
  }

  lemma {:induction false} RunKeepsDrops(s: State, run: seq<Action>)
    requires Inv(s) && DropsKnown(s) && Run(s, run).Some?
    ensures Inv(Run(s, run).value) && DropsKnown(Run(s, run).value)
    decreases |run|
  {
    hide Inv, Next, DropsKnown;
    if run != [] {
      StepKeepsInv(s, run[0]);
      DropsStayKnown(s, run[0]);
      RunKeepsDrops(Next(s, run[0]).value, run[1..]);
    }
  }

  lemma ReachableDrops(s: State)
    requires Reachable(s)
    ensures Inv(s) && DropsKnown(s)
  {
    var run :| Run(INITIAL, run) == Some(s);
    assert Inv(INITIAL) && DropsKnown(INITIAL);
    RunKeepsDrops(INITIAL, run);
  }

  // ---- Exactly when conversations overlap, and topics are left behind --------------------------------

  /** Created for the task, in any engine. */
  predicate OfTask(s: State, t: Topic, task: string) {
    t < |s.creator| && s.creator[t].task == task
  }

  /** Some conversation of the task, in any engine, has its prompt and has not been seen idle. */
  ghost predicate Conversing(s: State, task: string) {
    exists t :: OfTask(s, t, task) && Running(s, t)
  }

  /** Some topic of the task was dropped while marked submitted and has not been seen idle since. */
  ghost predicate LostRunning(s: State, task: string) {
    exists t :: t in s.lost && OfTask(s, t, task) && t !in s.idle
  }

  /** Another engine has a pending topic of the task that is marked submitted. */
  ghost predicate SubmittedElsewhere(s: State, k: Key) {
    exists o :: o in s.pending && o.task == k.task && o.engine != k.engine && s.pending[o].submitted
  }

  /** A prompt is submitted while an earlier conversation of the task, in whatever engine, has not been seen idle, if
      and only if a topic of the task was dropped while marked submitted and not seen idle since, or another engine
      has one pending that is marked submitted. */
  lemma OverlapExact(s: State, i: nat)
    requires Reachable(s) && Next(s, Submit(i)).Some?
    ensures var k := s.execs[i].key;
            Conversing(s, k.task) <==> LostRunning(s, k.task) || SubmittedElsewhere(s, k)
  {
    hide Next;
    BeforePrompt(s, Submit(i));
    ConversingExact(s, i);
  }

  /** A fresh topic is created while an earlier conversation of the task has not been seen idle under the same
      condition. */
  lemma FreshTopicExact(s: State, i: nat)
    requires Reachable(s) && Next(s, Create(i)).Some?
    ensures var k := s.execs[i].key;
            Conversing(s, k.task) <==> LostRunning(s, k.task) || SubmittedElsewhere(s, k)
  {
    hide Next;
    BeforePrompt(s, Create(i));
    ConversingExact(s, i);
  }

  /** Execution `i` holds the lease and has no prompted topic at hand. */
  ghost predicate AboutToPrompt(s: State, i: nat) {
    i in s.execs && var p := s.execs[i].phase; p.Empty? || (p.Have? && !p.wasSubmitted)
  }

  lemma BeforePrompt(s: State, a: Action)
    requires (a.Submit? || a.Create?) && Next(s, a).Some?
    ensures AboutToPrompt(s, a.i)
  {
  }

  /** While `i` holds the lease, the conversations going on are those lost and those pending in other engines. */
  lemma ConversingExact(s: State, i: nat)
    requires Reachable(s) && AboutToPrompt(s, i)
    ensures var k := s.execs[i].key;
            Conversing(s, k.task) <==> LostRunning(s, k.task) || SubmittedElsewhere(s, k)
  {
    hide Reachable, Inv, DropsKnown;
    ReachableDrops(s);
    var k := s.execs[i].key;
    if Conversing(s, k.task) {
      var t: Topic :| OfTask(s, t, k.task) && Running(s, t);
      RunningIsLostOrElsewhere(s, i, t);
    }
    if SubmittedElsewhere(s, k) {
      var o :| o in s.pending && o.task == k.task && o.engine != k.engine && s.pending[o].submitted;
      PendingIsRunning(s, o);
    }
    LostAreRunning(s, k.task);
  }

  lemma RunningIsLostOrElsewhere(s: State, i: nat, t: Topic)
    requires Inv(s) && DropsKnown(s) && AboutToPrompt(s, i) && OfTask(s, t, s.execs[i].key.task) && Running(s, t)
    ensures t in s.lost ||
            var o := s.creator[t]; o in s.pending && o.engine != s.execs[i].key.engine && s.pending[o].submitted
  {
    KnownAt(s, t);
    NotSentByOthers(s, i, t);
    if IsPending(s, t) {
      var o := s.creator[t];
      hide Inv, DropsKnown, SentBy;
      if !s.pending[o].submitted {
        PendingIsPrompted(s, o);
      }
      OwnSlotUnprompted(s, i);
    }
  }

  lemma LeaseHolder(s: State, i: nat, j: nat)
    requires Inv(s) && i in s.execs && j in s.execs && s.execs[i].key.task == s.execs[j].key.task
    requires HoldsLease(s.execs[i].phase) && HoldsLease(s.execs[j].phase)
    ensures i == j
  {
    hide Exclusive, NoneLeft, Phases, AtMostOnce, NoneForgotten;
  }

  /** Only the holder of the lease can have sent a prompt it has not yet recorded. */
  lemma NotSentByOthers(s: State, i: nat, t: Topic)
    requires Inv(s) && AboutToPrompt(s, i) && OfTask(s, t, s.execs[i].key.task)
    ensures !SentBy(s, t)
  {
    hide Inv;
    if SentBy(s, t) {
      var j :| j in s.execs && s.execs[j].phase.Sent? && s.execs[j].phase.topic == t;
      FreshHasKey(s, j);
      LeaseHolder(s, i, j);
    }
  }

  /** The pending topic of its own task in its own engine, if any, has had no prompt. */
  lemma OwnSlotUnprompted(s: State, i: nat)
    requires Inv(s) && AboutToPrompt(s, i)
    ensures var k := s.execs[i].key; k in s.pending ==> !s.pending[k].submitted
  {
    hide Exclusive, NoneLeft, LeasesHeld, AtMostOnce, NoneForgotten, Quiet, SlotOk;
    assert PhaseOk(s, s.execs[i].key, s.execs[i].phase);
  }

  /** What is pending and marked submitted has its prompt and has not been seen idle. */
  lemma PendingIsRunning(s: State, o: Key)
    requires Inv(s) && DropsKnown(s) && o in s.pending && s.pending[o].submitted
    ensures OfTask(s, s.pending[o].topic, o.task) && Running(s, s.pending[o].topic)
  {
    SlotOfPending(s, o);
    KnownAt(s, s.pending[o].topic);
  }

  lemma LostAreRunning(s: State, task: string)
    requires DropsKnown(s)
    ensures forall t | t in s.lost && OfTask(s, t, task) && t !in s.idle :: Running(s, t)
  {
    forall t | t in s.lost && OfTask(s, t, task) && t !in s.idle ensures Running(s, t) {
      KnownAt(s, t);
    }
  }

  /** A fresh topic is created only after each earlier one of the task, whose engine never had it dropped, was submitted
      and then seen idle, unless another engine has it pending. */
  lemma FreshTopicAfterIdle(s: State, i: nat, t: Topic)
    requires Reachable(s) && Next(s, Create(i)).Some?
    requires OfTask(s, t, s.execs[i].key.task) && s.creator[t] !in s.pruned
    ensures Closed(s, t) <==> !IsPending(s, t)
    ensures IsPending(s, t) ==> s.creator[t].engine != s.execs[i].key.engine
  {
    ReachableDrops(s);
    KnownAt(s, t);
    EmptySlot(s, i);
    hide DropsKnown, Known;
    if FreshBy(s, t) {
      FreshNotByOthers(s, i, t);
    }
  }

  lemma EmptySlot(s: State, i: nat)
    requires Inv(s) && Next(s, Create(i)).Some?
    ensures i in s.execs && s.execs[i].phase.Empty? && s.execs[i].key !in s.pending
  {
    hide Exclusive, NoneLeft, LeasesHeld, AtMostOnce, NoneForgotten, Quiet, SlotOk;
    assert PhaseOk(s, s.execs[i].key, s.execs[i].phase);
  }

  lemma FreshNotByOthers(s: State, i: nat, t: Topic)
    requires Inv(s) && i in s.execs && (s.execs[i].phase.Empty? || s.execs[i].phase.Have?) && OfTask(s, t, s.execs[i].key.task)
    ensures !FreshBy(s, t)
  {
    hide Inv;
    if FreshBy(s, t) {
      var j :| j in s.execs && s.execs[j].phase.Fresh? && s.execs[j].phase.topic == t;
      FreshHasKey(s, j);
      LeaseHolder(s, i, j);
    }
  }

  /** A conversation whose turn was delivered without being seen running stays pending unless a list edit drops it;
      when another topic of the task is prompted, it is pending in another engine. */
  lemma UnseenTurnIsKept(s: State, i: nat, t: Topic)
    requires Reachable(s) && Next(s, Submit(i)).Some? && OfTask(s, t, s.execs[i].key.task)
    requires t in s.unreported && s.submits[t] == 0
    ensures IsPending(s, t) <==> t !in s.abandoned
    ensures IsPending(s, t) && t != s.execs[i].phase.topic ==> s.creator[t].engine != s.execs[i].key.engine
  {
    hide Advance;
    ReachableDrops(s);
    KnownAt(s, t);
    HandIsSlot(s, i);
    hide DropsKnown, Known;
    if FreshBy(s, t) {
      FreshNotByOthers(s, i, t);
    }
  }

  lemma HandIsSlot(s: State, i: nat)
    requires Inv(s) && Next(s, Submit(i)).Some?
    ensures s.execs[i].phase.Have? && (s.execs[i].key in s.pending ==> s.pending[s.execs[i].key].topic == s.execs[i].phase.topic)
  {
    hide Exclusive, NoneLeft, LeasesHeld, AtMostOnce, NoneForgotten, Quiet, SlotOk;
    assert PhaseOk(s, s.execs[i].key, s.execs[i].phase);
  }

  /** The topics of a task in its engine that were dropped without a prompt and never got one. */
  function LeftBehind(s: State, k: Key): set<Topic> {
    set t | t in s.abandoned && Owned(s, t, k) && s.submits[t] == 0
  }

  /** The topics created for a task in its engine are those submitted, plus the unsubmitted pending one, if and only
      if every topic that was dropped without a prompt got it after all. */
  lemma CreatedIsSubmittedPlusPendingExact(s: State, k: Key)
    requires Reachable(s)
    ensures |CreatedFor(s, k)| == |SubmittedFor(s, k)| + (if exists t :: Unsubmitted(s, k, t) then 1 else 0) <==>
            forall t | t in s.abandoned && Owned(s, t, k) :: s.submits[t] == 1
  {
    ReachableDrops(s);
    hide Reachable, Inv, DropsKnown, Unsubmitted, CreatedFor, SubmittedFor, LeftBehind;
    WaitingSize(s, k);
    LeftBehindIsLeft(s, k);
    Thirds(CreatedFor(s, k), SubmittedFor(s, k), LeftBehind(s, k));
    AbandonedPrompted(s, k);
  }

  lemma LeftBehindIsLeft(s: State, k: Key)
    ensures SubmittedFor(s, k) <= CreatedFor(s, k) && LeftBehind(s, k) <= CreatedFor(s, k) && SubmittedFor(s, k) !! LeftBehind(s, k)
  {
  }

  lemma WaitingSize(s: State, k: Key)
    requires Inv(s) && DropsKnown(s)
    ensures |CreatedFor(s, k) - SubmittedFor(s, k) - LeftBehind(s, k)| == if exists t :: Unsubmitted(s, k, t) then 1 else 0
  {
    var waiting := CreatedFor(s, k) - SubmittedFor(s, k) - LeftBehind(s, k);
    forall t: Topic ensures t in waiting <==> Unsubmitted(s, k, t) {
      if t in CreatedFor(s, k) {
        WaitingIsUnsubmitted(s, k, t);
      }
    }
    hide Inv, DropsKnown, CreatedFor, SubmittedFor, LeftBehind;
    if exists u: Topic :: Unsubmitted(s, k, u) {
      var u: Topic :| Unsubmitted(s, k, u);
      forall t: Topic | Unsubmitted(s, k, t) ensures t == u {
        OneUnsubmitted(s, k, t, u);
      }
      hide Unsubmitted;
      assert waiting == {u};
    } else {
      hide Unsubmitted;
      assert waiting == {};
    }
  }

  lemma AbandonedPrompted(s: State, k: Key)
    requires Inv(s)
    ensures LeftBehind(s, k) == {} <==> forall t | t in s.abandoned && Owned(s, t, k) :: s.submits[t] == 1
  {
    hide Exclusive, NoneLeft, LeasesHeld, Phases, NoneForgotten;
    forall t | t in s.abandoned && Owned(s, t, k) ensures t in LeftBehind(s, k) <==> s.submits[t] != 1 {
    }
  }

  lemma Thirds(all: set<Topic>, a: set<Topic>, b: set<Topic>)
    requires a <= all && b <= all && a !! b
    ensures |all| == |a| + |b| + |all - a - b|
  {
    assert all == a + (b + (all - a - b));
  }

  lemma WaitingIsUnsubmitted(s: State, k: Key, t: Topic)
    requires Inv(s) && DropsKnown(s) && t in CreatedFor(s, k)
    ensures Unsubmitted(s, k, t) <==> t !in SubmittedFor(s, k) && t !in LeftBehind(s, k)
  {
    assert Known(s, t);
    hide Exclusive, NoneLeft, LeasesHeld, NoneForgotten, FreshBy, SentBy, Phases;
    if k in s.pending {
      SlotOfPending(s, k);
    }
  }

  lemma SlotOfPending(s: State, k: Key)
    requires Inv(s) && k in s.pending
    ensures SlotOk(s, k)
  {
    hide Exclusive, NoneLeft, LeasesHeld, NoneForgotten, AtMostOnce, PhaseOk, SlotOk, Quiet;
  }
}
