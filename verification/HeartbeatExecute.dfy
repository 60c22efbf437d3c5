/** One execution of a heartbeat task, step by step, among any others.

Between any two steps of an execution `Others` lets every other execution, engine and list edit run. What an
execution does is shown to be a run of the steps of HeartbeatRun, so that all that holds of every run holds here.
*/
module HeartbeatExecute {
  import opened HeartbeatRun

  /** The run state of a task (times in milliseconds; 0 is "never"). */
  datatype TaskRun = TaskRun(topicID: Option<Topic>, lastRunAt: int, createdAt: int)

  datatype Outcome = AlreadyRunning | LeaseTaken | NotCreated | NotOpened | NotReady | Submitted(topic: Topic)

  /** A prompt is delivered and its turn seen running, not delivered, or delivered but its turn not seen running: it
      had ended already, or waits for another to finish. */
  datatype Submission = Started | Dropped | Unseen

  /** How the outside answers an execution, by the depth of its self-calls: whether the lease file can be locked,
      a topic created, its tab opened, its controller is there and idle, and what comes of submitting a prompt. */
  datatype Answers = Answers(locks: bool, creates: nat -> bool, opens: nat -> bool, ready: nat -> bool, submit: nat -> Submission) {
    ghost predicate Favourable() {
      locks && forall d: nat :: creates(d) && opens(d) && ready(d) && submit(d).Started?
    }
  }

  function SubmitStep(i: nat, submission: Submission): Action {
    match submission
    case Started => Submit(i)
    case Dropped => Skip(i)
    case Unseen => SubmitUnreported(i)
  }

  /** Steps of anybody but execution `i`. */
  ghost predicate Foreign(run: seq<Action>, i: nat) {
    forall x | 0 <= x < |run| :: run[x].Prune? || run[x].i != i
  }

  /** Execution `i` creates a topic in the course of the run. */
  predicate Creates(run: seq<Action>, i: nat) {
    Create(i) in run
  }

  lemma CreatesJoin(run: seq<Action>, more: seq<Action>, i: nat)
    ensures Creates(run + more, i) <==> Creates(run, i) || Creates(more, i)
    ensures Foreign(more, i) ==> !Creates(more, i)
  {
  }

  /** Execution `i` stands where it stood. */
  ghost predicate Waits(s: State, n: State, i: nat) {
    (i in n.execs <==> i in s.execs) && (i in s.execs ==> n.execs[i] == s.execs[i])
  }

  lemma ForeignStepWaits(s: State, a: Action, i: nat)
    requires Next(s, a).Some? && (a.Prune? || a.i != i)
    ensures Waits(s, Next(s, a).value, i)
  {
  }

  lemma {:induction false} RunAppend(s: State, run: seq<Action>, more: seq<Action>)
    requires Run(s, run).Some?
    ensures Run(s, run + more) == Run(Run(s, run).value, more)
    decreases |run|
  {
    hide Next;
    if run == [] {
      assert run + more == more;
    } else {
      assert (run + more)[0] == run[0] && (run + more)[1..] == run[1..] + more;
      RunAppend(Next(s, run[0]).value, run[1..], more);
    }
  }

  lemma RunStep(s: State, run: seq<Action>, m: State, a: Action, n: State)
    requires Run(s, run) == Some(m) && Next(m, a) == Some(n) && Inv(m)
    ensures Run(s, run + [a]) == Some(n) && Inv(n)
  {
    hide Next, Inv;
    RunAppend(s, run, [a]);
    assert [a][1..] == [];
    assert Run(n, []) == Some(n);
    StepKeepsInv(m, a);
  }

  /** `t` is a topic of `k`, and one submit of a prompt to it was reported as started. */
  predicate Prompted(s: State, t: Topic, k: Key) {
    Owned(s, t, k) && s.submits[t] == 1
  }

  /** Nothing already created or submitted is taken back. */
  ghost predicate Grows(s: State, n: State) {
    s.submits <= n.submits && s.creator <= n.creator
  }

  lemma {:induction false} RunGrows(s: State, run: seq<Action>)
    requires Run(s, run).Some?
    ensures Grows(s, Run(s, run).value)
    decreases |run|
  {
    if run != [] {
      StepGrows(s, run[0]);
      hide Next;
      RunGrows(Next(s, run[0]).value, run[1..]);
    }
  }

  lemma GrowsSame(s: State)
    ensures Grows(s, s)
  {
  }

  lemma StepGrows(s: State, a: Action)
    requires Next(s, a).Some?
    ensures Grows(s, Next(s, a).value)
  {
  }

  /** `t` was created for `k` between `s` and `n`. */
  predicate IsNew(s: State, n: State, t: Topic, k: Key) {
    |s.creator| <= t && Owned(n, t, k)
  }

  lemma NewStays(s: State, m: State, n: State, o: State, t: Topic, k: Key)
    requires IsNew(m, n, t, k) && Grows(s, m) && Grows(n, o)
    ensures IsNew(s, o, t, k)
  {
  }

  lemma CreatedIsNew(s: State, run: seq<Action>, m: State, t: Topic)
    requires Run(s, run) == Some(m) && Grows(s, m) && t == |m.creator|
    ensures |s.creator| <= t
  {
  }

  lemma StaysPrompted(s: State, n: State, t: Topic, k: Key)
    requires Prompted(s, t, k) && Grows(s, n) && Inv(n)
    ensures Prompted(n, t, k)
  {
    hide Exclusive, NoneLeft, LeasesHeld, Phases, NoneForgotten;
  }

  class Heartbeat {
    var pendingTopics: map<Key, Pending>
    var runningTasks: set<Key>
    var leases: set<string>
    var creator: seq<Key>
    var submits: multiset<Topic>
    var idle: set<Topic>
    var pruned: set<Key>
    var lost: set<Topic>
    var abandoned: set<Topic>
    var unreported: multiset<Topic>
    /** Where every execution stands. */
    var execs: map<nat, Exec>

    constructor ()
      ensures Now() == INITIAL
    {
      pendingTopics, runningTasks, leases, creator := map[], {}, {}, [];
      submits, idle, pruned, lost, abandoned, unreported, execs := multiset{}, {}, {}, {}, {}, multiset{}, map[];
    }

    function Now(): State
      reads this
    {
      State(pendingTopics, runningTasks, leases, execs, creator, submits, idle, pruned, lost, abandoned, unreported)
    }

    method Become(s: State)
      modifies this
      ensures Now() == s
    {
      pendingTopics, runningTasks, leases, execs := s.pending, s.running, s.leases, s.execs;
      creator, submits, idle, pruned := s.creator, s.submits, s.idle, s.pruned;
      lost, abandoned, unreported := s.lost, s.abandoned, s.unreported;
    }

    /** Anybody else. */
    method Others(i: nat) returns (ghost run: seq<Action>)
      requires Inv(Now())
      modifies this
      ensures Run(old(Now()), run) == Some(Now()) && Inv(Now()) && Foreign(run, i) && Waits(old(Now()), Now(), i)
    {
      hide Inv, Next;
      run := [];
      var steps: nat :| true;
      for x := 0 to steps
        invariant Run(old(Now()), run) == Some(Now()) && Inv(Now()) && Foreign(run, i) && Waits(old(Now()), Now(), i)
      {
        var a: Action :| true;
        if (a.Prune? || a.i != i) && Next(Now(), a).Some? {
          var n := Next(Now(), a).value;
          RunStep(old(Now()), run, Now(), a, n);
          ForeignStepWaits(Now(), a, i);
          run := run + [a];
          Become(n);
        }
      }
    }

    predicate At(i: nat, k: Key, p: Phase)
      reads this
    {
      i in execs && execs[i] == Exec(k, p)
    }

    lemma NoSecondCall(i: nat, k: Key, t: Topic, depth: nat)
      requires Inv(Now()) && At(i, k, Have(t, true, depth))
      ensures depth == 0
    {
      hide Exclusive, NoneLeft, LeasesHeld, AtMostOnce, NoneForgotten;
      assert PhaseOk(Now(), k, Have(t, true, depth));
    }

    lemma HaveIsOwned(i: nat, k: Key, t: Topic, submitted: bool, depth: nat)
      requires Inv(Now()) && At(i, k, Have(t, submitted, depth))
      ensures Owned(Now(), t, k)
    {
      hide Exclusive, NoneLeft, LeasesHeld, AtMostOnce, NoneForgotten;
      assert PhaseOk(Now(), k, Have(t, submitted, depth));
    }

    lemma SentIsPrompted(i: nat, k: Key, t: Topic)
      requires Inv(Now()) && At(i, k, Sent(t))
      ensures Prompted(Now(), t, k)
    {
      hide Exclusive, NoneLeft, LeasesHeld, AtMostOnce, NoneForgotten;
      assert PhaseOk(Now(), k, Sent(t));
    }

    // Each of the following is one lock-guarded or indivisible step.

    method ClaimTask(i: nat, k: Key) returns (ok: bool)
      requires i !in execs
      modifies this
      ensures if ok then Next(old(Now()), Claim(i, k)) == Some(Now()) && At(i, k, Claimed)
              else Now() == old(Now())
      ensures ok == (k !in old(runningTasks))
    {
      if k in runningTasks {
        return false;
      }
      runningTasks, execs := runningTasks + {k}, execs[i := Exec(k, Claimed)];
      return true;
    }

    method ReleaseTask(i: nat, k: Key)
      requires At(i, k, Unleased) || At(i, k, Claimed)
      modifies this
      ensures Next(old(Now()), if old(At(i, k, Claimed)) then LeaseFailed(i) else HeartbeatRun.ReleaseTask(i)) == Some(Now())
      ensures i !in execs && k !in runningTasks
    {
      runningTasks, execs := runningTasks - {k}, execs - {i};
    }

    /** The lease file of the task, shared with other processes; acquiring it may also just fail. */
    method TryAcquireTaskLease(i: nat, k: Key, locks: bool) returns (ok: bool)
      requires At(i, k, Claimed)
      modifies this
      ensures ok == (k.task !in old(leases) && locks)
      ensures if ok then Next(old(Now()), Lease(i)) == Some(Now()) && At(i, k, Start(0)) else Now() == old(Now())
    {
      if k.task in leases || !locks {
        return false;
      }
      leases, execs := leases + {k.task}, execs[i := Exec(k, Start(0))];
      return true;
    }

    method ReleaseTaskLease(i: nat, k: Key)
      requires At(i, k, Done)
      modifies this
      ensures Next(old(Now()), ReleaseLease(i)) == Some(Now()) && At(i, k, Unleased)
    {
      leases, execs := leases - {k.task}, execs[i := Exec(k, Unleased)];
    }

    method PendingTopic(i: nat, k: Key, depth: nat) returns (pending: Option<Pending>)
      requires At(i, k, Start(depth))
      modifies this
      ensures Next(old(Now()), Look(i)) == Some(Now())
      ensures pending == if k in old(pendingTopics) then Some(old(pendingTopics)[k]) else None
      ensures At(i, k, if pending.Some? then Have(pending.value.topic, pending.value.submitted, depth) else Empty(depth))
    {
      pending := if k in pendingTopics then Some(pendingTopics[k]) else None;
      execs := execs[i := Exec(k, if pending.Some? then Have(pending.value.topic, pending.value.submitted, depth) else Empty(depth))];
    }

    method CreateTopic(i: nat, k: Key, depth: nat, creates: bool) returns (topic: Option<Topic>)
      requires At(i, k, Empty(depth))
      modifies this
      ensures topic.Some? == creates
      ensures Next(old(Now()), if topic.Some? then Create(i) else CreateFailed(i)) == Some(Now())
      ensures topic.Some? ==> topic.value == |old(creator)|
      ensures At(i, k, if topic.Some? then Fresh(topic.value, depth) else Done)
    {
      if creates {
        topic := Some(|creator|);
        creator, execs := creator + [k], execs[i := Exec(k, Fresh(|creator|, depth))];
      } else {
        topic := None;
        execs := execs[i := Exec(k, Done)];
      }
    }

    method RememberTopic(i: nat, k: Key, topic: Topic, depth: nat)
      requires At(i, k, Fresh(topic, depth))
      modifies this
      ensures Next(old(Now()), Remember(i)) == Some(Now()) && At(i, k, Have(topic, false, depth))
    {
      pendingTopics, execs := pendingTopics[k := Pending(topic, false)], execs[i := Exec(k, Have(topic, false, depth))];
    }

    method GiveUp(i: nat, k: Key, topic: Topic, submitted: bool, depth: nat)
      requires At(i, k, Have(topic, submitted, depth))
      modifies this
      ensures Next(old(Now()), Skip(i)) == Some(Now()) && At(i, k, Done)
    {
      execs := execs[i := Exec(k, Done)];
    }

    /** The submitted topic's controller is idle: the topic is finished. */
    method ForgetSubmitted(i: nat, k: Key, topic: Topic, depth: nat)
      requires At(i, k, Have(topic, true, depth))
      modifies this
      ensures Next(old(Now()), SeeIdle(i)) == Some(Now()) && At(i, k, Start(depth + 1))
    {
      if k in pendingTopics && pendingTopics[k].topic == topic && pendingTopics[k].submitted {
        pendingTopics := pendingTopics - {k};
      }
      idle, execs := idle + {topic}, execs[i := Exec(k, Start(depth + 1))];
    }

    /** Whether the turn is seen running after it was handed over; it may have been delivered and yet not be. */
    method SubmitUserTurn(i: nat, k: Key, topic: Topic, depth: nat, submission: Submission) returns (ok: bool)
      requires At(i, k, Have(topic, false, depth))
      modifies this
      ensures ok == submission.Started?
      ensures Next(old(Now()), SubmitStep(i, submission)) == Some(Now()) && At(i, k, if ok then Sent(topic) else Done)
    {
      ok := submission.Started?;
      match submission {
        case Started => submits := submits + multiset{topic};
        case Unseen => unreported := unreported + multiset{topic};
        case Dropped =>
      }
      execs := execs[i := Exec(k, if ok then Sent(topic) else Done)];
    }

    method RecordSubmitted(i: nat, k: Key, topic: Topic)
      requires At(i, k, Sent(topic))
      modifies this
      ensures Next(old(Now()), MarkSubmitted(i)) == Some(Now()) && At(i, k, Done)
    {
      pendingTopics, execs := pendingTopics[k := Pending(topic, true)], execs[i := Exec(k, Done)];
    }

    /** Accounts for step `a`, just taken from state `m`, and lets the others run. */
    method Settle(i: nat, k: Key, p: Phase, ghost before: State, ghost run: seq<Action>, ghost m: State, ghost a: Action)
      returns (ghost longer: seq<Action>)
      requires Run(before, run) == Some(m) && Inv(m) && Next(m, a) == Some(Now()) && At(i, k, p)
      modifies this
      ensures Run(before, longer) == Some(Now()) && Inv(Now()) && At(i, k, p) && Grows(m, Now())
      ensures Creates(longer, i) <==> Creates(run, i) || a == Create(i)
    {
      hide Inv, Next, Run;
      RunStep(before, run, m, a, Now());
      StepGrows(m, a);
      var more := Others(i);
      RunAppend(before, run + [a], more);
      RunGrows(old(Now()), more);
      longer := run + [a] + more;
      CreatesJoin(run + [a], more, i);
    }

    /** The same when the step ended the execution. */
    method SettleEnd(i: nat, ghost before: State, ghost run: seq<Action>, ghost m: State, ghost a: Action)
      returns (ghost longer: seq<Action>)
      requires Run(before, run) == Some(m) && Inv(m) && Next(m, a) == Some(Now()) && i !in execs
      modifies this
      ensures Run(before, longer) == Some(Now()) && Inv(Now()) && i !in execs && Grows(m, Now())
      ensures Creates(longer, i) <==> Creates(run, i) || a == Create(i)
    {
      hide Inv, Next, Run;
      RunStep(before, run, m, a, Now());
      StepGrows(m, a);
      var more := Others(i);
      RunAppend(before, run + [a], more);
      RunGrows(old(Now()), more);
      longer := run + [a] + more;
      CreatesJoin(run + [a], more, i);
    }

    /** The topic to use: the pending one, or a fresh one, which becomes pending. */
    method TopicToUse(i: nat, k: Key, depth: nat, creates: bool) returns (pending: Option<Pending>, created: bool, ghost run: seq<Action>)
      requires Inv(Now()) && At(i, k, Start(depth))
      modifies this
      ensures Run(old(Now()), run) == Some(Now()) && Inv(Now())
      ensures At(i, k, if pending.Some? then Have(pending.value.topic, pending.value.submitted, depth) else Done)
      ensures created ==> pending.Some? && !pending.value.submitted && IsNew(old(Now()), Now(), pending.value.topic, k)
      ensures created <==> Creates(run, i)
      ensures pending.None? ==> !creates
    {
      ghost var before, m := Now(), Now();
      run, created := [], false;
      assert Run(before, run) == Some(m) && !Creates(run, i);
      hide *;
      pending := PendingTopic(i, k, depth);
      run := Settle(i, k, if pending.Some? then Have(pending.value.topic, pending.value.submitted, depth) else Empty(depth),
                    before, run, m, Look(i));
      ghost var started := run;
      if pending.None? {
        m := Now();
        ghost var looked := m;
        var topic := CreateTopic(i, k, depth, creates);
        run := Settle(i, k, if topic.Some? then Fresh(topic.value, depth) else Done,
                      before, run, m, if topic.Some? then Create(i) else CreateFailed(i));
        if topic.Some? {
          m := Now();
          RememberTopic(i, k, topic.value, depth);
          run := Settle(i, k, Have(topic.value, false, depth), before, run, m, Remember(i));
          pending, created := Some(Pending(topic.value, false)), true;
          HaveIsOwned(i, k, topic.value, false, depth);
          RunGrows(before, started);
          CreatedIsNew(before, started, looked, topic.value);
        }
      }
    }

    /** Submits the prompt and marks the topic as submitted. */
    method SubmitPrompt(i: nat, k: Key, topic: Topic, depth: nat, submission: Submission) returns (ok: bool, ghost run: seq<Action>)
      requires Inv(Now()) && At(i, k, Have(topic, false, depth))
      modifies this
      ensures Run(old(Now()), run) == Some(Now()) && Inv(Now()) && At(i, k, Done)
      ensures ok == submission.Started? && (ok ==> Prompted(Now(), topic, k))
      ensures Grows(old(Now()), Now()) && !Creates(run, i)
    {
      ghost var before, m := Now(), Now();
      run := [];
      assert Run(before, run) == Some(m) && !Creates(run, i);
      hide *;
      ok := SubmitUserTurn(i, k, topic, depth, submission);
      run := Settle(i, k, if ok then Sent(topic) else Done, before, run, m, SubmitStep(i, submission));
      if ok {
        SentIsPrompted(i, k, topic);
        m := Now();
        RecordSubmitted(i, k, topic);
        run := Settle(i, k, Done, before, run, m, MarkSubmitted(i));
        StaysPrompted(m, Now(), topic, k);
      }
      RunGrows(before, run);
    }

    /** An execution that owns its task, from where it looks for a topic to where it gives the task back. */
    method ExecuteTaskOwned(i: nat, k: Key, t: TaskRun, now: int, answers: Answers, depth: nat)
      returns (r: TaskRun, outcome: Outcome, ghost run: seq<Action>)
      requires Inv(Now()) && At(i, k, Start(depth)) && depth <= 1
      modifies this
      ensures Run(old(Now()), run) == Some(Now()) && Inv(Now()) && At(i, k, Done)
      ensures r.lastRunAt == (if outcome.NotReady? then t.lastRunAt else now) && !outcome.AlreadyRunning? && !outcome.LeaseTaken?
      ensures answers.Favourable() ==> outcome.Submitted?
      ensures r.createdAt == (if outcome.Submitted? && t.createdAt == 0 then now else t.createdAt)
      ensures outcome.Submitted? ==> Prompted(Now(), outcome.topic, k)
      // The task points to the topic created in the course of it, which is the one prompted, if any.
      ensures if Creates(run, i) then r.topicID.Some? && IsNew(old(Now()), Now(), r.topicID.value, k) else r.topicID == t.topicID
      ensures outcome.Submitted? && Creates(run, i) ==> r.topicID == Some(outcome.topic)
      decreases 1 - depth
    {
      assert answers.Favourable() ==> answers.creates(depth) && answers.opens(depth) && answers.ready(depth) && answers.submit(depth).Started?;
      hide *;
      ghost var before := Now();
      r := t;
      var pending, created;
      pending, created, run := TopicToUse(i, k, depth, answers.creates(depth));
      ghost var found := Now();
      RunGrows(before, run);
      if pending.None? {
        return r.(lastRunAt := now), NotCreated, run;
      }
      var topic, submitted := pending.value.topic, pending.value.submitted;
      if created {
        r := r.(topicID := Some(topic));
      }
      ghost var m := Now();
      if !answers.opens(depth) || !answers.ready(depth) {
        GiveUp(i, k, topic, submitted, depth);
        run := Settle(i, k, Done, before, run, m, Skip(i));
        if created {
          NewStays(before, before, found, Now(), topic, k) by { GrowsSame(before); }
        }
        if !answers.opens(depth) {
          return r.(lastRunAt := now), NotOpened, run;
        }
        return r, NotReady, run;
      }
      ghost var rest;
      if submitted {
        NoSecondCall(i, k, topic, depth);
        ForgetSubmitted(i, k, topic, depth);
        run := Settle(i, k, Start(depth + 1), before, run, m, SeeIdle(i));
        ghost var again := Now();
        r, outcome, rest := ExecuteTaskOwned(i, k, r, now, answers, depth + 1);
        RunAppend(before, run, rest);
        CreatesJoin(run, rest, i);
        if Creates(rest, i) {
          NewStays(before, again, Now(), Now(), r.topicID.value, k) by {
            GrowsSame(Now());
            RunGrows(before, run);
          }
        }
        return r, outcome, run + rest;
      }
      var ok;
      ok, rest := SubmitPrompt(i, k, topic, depth, answers.submit(depth));
      RunAppend(before, run, rest);
      CreatesJoin(run, rest, i);
      run := run + rest;
      if created {
        NewStays(before, before, found, Now(), topic, k) by { GrowsSame(before); }
      }
      if !ok {
        return r, NotReady, run;
      }
      r := r.(lastRunAt := now, createdAt := if r.createdAt == 0 then now else r.createdAt);
      return r, Submitted(topic), run;
    }

    /** One trigger of a task: nothing happens unless this engine and this process get it for themselves. */
    method ExecuteTask(i: nat, k: Key, t: TaskRun, now: int, answers: Answers) returns (r: TaskRun, outcome: Outcome, ghost run: seq<Action>)
      requires Inv(Now()) && i !in execs
      modifies this
      ensures Run(old(Now()), run) == Some(Now()) && Inv(Now()) && i !in execs
      ensures outcome.AlreadyRunning? <==> old(k in runningTasks)
      ensures outcome.AlreadyRunning? || outcome.LeaseTaken? ==> r == t
      ensures answers.Favourable() ==> outcome.AlreadyRunning? || outcome.LeaseTaken? || outcome.Submitted?
      ensures r.lastRunAt == (if outcome.NotReady? || outcome.AlreadyRunning? || outcome.LeaseTaken? then t.lastRunAt else now)
      ensures r.createdAt == (if outcome.Submitted? && t.createdAt == 0 then now else t.createdAt)
      ensures outcome.Submitted? ==> Prompted(Now(), outcome.topic, k)
      // The task points to the topic created in the course of it, which is the one prompted, if any.
      ensures if Creates(run, i) then r.topicID.Some? && IsNew(old(Now()), Now(), r.topicID.value, k) else r.topicID == t.topicID
      ensures outcome.Submitted? && Creates(run, i) ==> r.topicID == Some(outcome.topic)
    {
      ghost var before, m := Now(), Now();
      run := [];
      assert Run(before, run) == Some(m);
      hide *;
      var claimed := ClaimTask(i, k);
      if !claimed {
        return t, AlreadyRunning, run;
      }
      run := Settle(i, k, Claimed, before, run, m, Claim(i, k));
      m := Now();
      var leased := TryAcquireTaskLease(i, k, answers.locks);
      if !leased {
        ReleaseTask(i, k);
        run := SettleEnd(i, before, run, m, LeaseFailed(i));
        return t, LeaseTaken, run;
      }
      run := Settle(i, k, Start(0), before, run, m, Lease(i));
      ghost var rest;
      r, outcome, rest := ExecuteTaskOwned(i, k, t, now, answers, 0);
      RunAppend(before, run, rest);
      run, m := run + rest, Now();
      ReleaseTaskLease(i, k);
      run := Settle(i, k, Unleased, before, run, m, ReleaseLease(i));
      ghost var m2 := Now();
      ReleaseTask(i, k);
      run := SettleEnd(i, before, run, m2, HeartbeatRun.ReleaseTask(i));
      if outcome.Submitted? {
        StaysPrompted(m, m2, outcome.topic, k);
        StaysPrompted(m2, Now(), outcome.topic, k);
      }
    }
  }

  // ---- What a list edit can undo -----------------------------------------------------------------

  /** Execution `i` of an idle task without pending topic, up to its submitted prompt. */
  function FirstRun(i: nat, k: Key): (run: seq<Action>)
    ensures |run| == 7
  {
    [Claim(i, k), Lease(i), Look(i), Create(i), Remember(i), Submit(i), MarkSubmitted(i)]
  }

  /** The state after the first `n` steps of `FirstRun`. */
  function Stage(s: State, i: nat, k: Key, n: nat): State {
    if n == 0 then s
    else
      var t := |s.creator|;
      var p := [Claimed, Start(0), Empty(0), Fresh(t, 0), Have(t, false, 0), Sent(t), Done];
      State(if n < 5 then s.pending else s.pending[k := Pending(t, n >= 7)], s.running + {k},
            if n == 1 then s.leases else s.leases + {k.task}, s.execs[i := Exec(k, if n <= 7 then p[n - 1] else Done)],
            if n < 4 then s.creator else s.creator + [k], if n < 6 then s.submits else s.submits + multiset{t}, s.idle, s.pruned,
            s.lost, s.abandoned, s.unreported)
  }

  ghost predicate Unclaimed(s: State, i: nat, k: Key) {
    i !in s.execs && k !in s.running && k.task !in s.leases && k !in s.pending
  }

  lemma EarlyStage(s: State, i: nat, k: Key, n: nat)
    requires n < 4 && Unclaimed(s, i, k)
    ensures Next(Stage(s, i, k, n), FirstRun(i, k)[n]) == Some(Stage(s, i, k, n + 1))
  {
    var m, o := Stage(s, i, k, n), Stage(s, i, k, n + 1);
    if n > 0 {
      assert m.execs[i := o.execs[i]] == o.execs;
    }
  }

  lemma LateStage(s: State, i: nat, k: Key, n: nat)
    requires 4 <= n < 7 && Unclaimed(s, i, k)
    ensures Next(Stage(s, i, k, n), FirstRun(i, k)[n]) == Some(Stage(s, i, k, n + 1))
  {
    var m, o := Stage(s, i, k, n), Stage(s, i, k, n + 1);
    assert m.execs[i := o.execs[i]] == o.execs;
    if n == 6 {
      assert m.pending[k := Pending(|s.creator|, true)] == o.pending;
    }
  }

  lemma {:induction false} StagesRun(s: State, i: nat, k: Key, n: nat)
    requires n <= 7 && Unclaimed(s, i, k)
    ensures Run(s, FirstRun(i, k)[..n]) == Some(Stage(s, i, k, n))
  {
    if n == 0 {
      assert FirstRun(i, k)[..n] == [];
    } else {
      hide Next, Stage, Unclaimed;
      StagesRun(s, i, k, n - 1);
      if n <= 4 {
        EarlyStage(s, i, k, n - 1);
      } else {
        LateStage(s, i, k, n - 1);
      }
      RunOne(s, FirstRun(i, k)[..n - 1], FirstRun(i, k)[n - 1]);
      hide FirstRun;
      assert FirstRun(i, k)[..n] == FirstRun(i, k)[..n - 1] + [FirstRun(i, k)[n - 1]];
    }
  }

  lemma RunOne(s: State, run: seq<Action>, a: Action)
    requires Run(s, run).Some? && Next(Run(s, run).value, a).Some?
    ensures Run(s, run + [a]) == Next(Run(s, run).value, a)
  {
    hide Next;
    RunAppend(s, run, [a]);
    assert [a][1..] == [];
    assert Run(Next(Run(s, run).value, a).value, []) == Next(Run(s, run).value, a);
  }

  /** The task is given back, then a list edit drops its pending topic. */
  lemma EndAndPrune(s: State, run: seq<Action>, i: nat, k: Key)
    requires Run(s, run).Some?
    requires var a := Run(s, run).value; i in a.execs && a.execs[i] == Exec(k, Done) && k in a.pending
    ensures var a, more := Run(s, run).value, run + [ReleaseLease(i)] + [HeartbeatRun.ReleaseTask(i)] + [Prune(k)];
            Run(s, more) == Some(State(a.pending - {k}, a.running - {k}, a.leases - {k.task}, a.execs - {i},
                                       a.creator, a.submits, a.idle, a.pruned + {k},
                                       if a.pending[k].submitted then a.lost + {a.pending[k].topic} else a.lost,
                                       if a.pending[k].submitted then a.abandoned else a.abandoned + {a.pending[k].topic},
                                       a.unreported))
  {
    var a := Run(s, run).value;
    RunOne(s, run, ReleaseLease(i));
    var b := Next(a, ReleaseLease(i)).value;
    RunOne(s, run + [ReleaseLease(i)], HeartbeatRun.ReleaseTask(i));
    var c := Next(b, HeartbeatRun.ReleaseTask(i)).value;
    assert c.execs == a.execs - {i};
    RunOne(s, run + [ReleaseLease(i)] + [HeartbeatRun.ReleaseTask(i)], Prune(k));
  }

  /** Two conversations of one task overlap in one engine: the first is dropped by a list edit, and the second started
      while the first was never seen idle. */
  lemma PruneLetsRunsOverlap(k: Key)
    ensures exists s: State :: Reachable(s) && Prompted(s, 0, k) && Prompted(s, 1, k) && 0 !in s.idle
  {
    hide Run, Next, FirstRun;
    StagesRun(INITIAL, 0, k, 7);
    var first := FirstRun(0, k)[..7];
    EndAndPrune(INITIAL, first, 0, k);
    var rest := first + [ReleaseLease(0)] + [HeartbeatRun.ReleaseTask(0)] + [Prune(k)];
    var d := Run(INITIAL, rest).value;
    StagesRun(d, 1, k, 7);
    RunAppend(INITIAL, rest, FirstRun(1, k)[..7]);
    var e := Stage(d, 1, k, 7);
    assert Run(INITIAL, rest + FirstRun(1, k)[..7]) == Some(e);
    assert Reachable(e);
  }

  // ---- What the lease does not guard -------------------------------------------------------------

  /** Two conversations of one task overlap in two engines, with no list edit at all: the lease is free again as soon
      as the first prompt is submitted, and the second engine knows nothing of the first one's topic. */
  lemma TwoEnginesOverlap(task: string)
    ensures exists s: State :: Reachable(s) && Prompted(s, 0, Key(0, task)) && Prompted(s, 1, Key(1, task)) &&
              0 !in s.idle && s.pruned == {}
  {
    hide Run, Next, FirstRun;
    var a, b := Key(0, task), Key(1, task);
    StagesRun(INITIAL, 0, a, 7);
    var first := FirstRun(0, a)[..7];
    LeaseIsReleased(Stage(INITIAL, 0, a, 7), 0, a);
    RunOne(INITIAL, first, ReleaseLease(0));
    var d := Run(INITIAL, first + [ReleaseLease(0)]).value;
    StagesRun(d, 1, b, 7);
    RunAppend(INITIAL, first + [ReleaseLease(0)], FirstRun(1, b)[..7]);
    var e := Stage(d, 1, b, 7);
    assert Run(INITIAL, first + [ReleaseLease(0)] + FirstRun(1, b)[..7]) == Some(e);
    assert Reachable(e);
  }

  lemma LeaseIsReleased(s: State, i: nat, k: Key)
    requires i in s.execs && s.execs[i] == Exec(k, Done)
    ensures Next(s, ReleaseLease(i)) == Some(s.(execs := s.execs[i := Exec(k, Unleased)], leases := s.leases - {k.task}))
  {
  }

  // ---- What a submit does not report -------------------------------------------------------------

  /** Execution 0 has a fresh topic pending at `first`; its prompt is delivered without being seen, and the task is
      given back. Then execution 1 finds the topic. */
  function Retry(k: Key): (run: seq<Action>)
    ensures |run| == 7
  {
    [SubmitUnreported(0), ReleaseLease(0), HeartbeatRun.ReleaseTask(0), Claim(1, k), Lease(1), Look(1), Submit(1)]
  }

  /** The state after the first `n` steps of `Retry`. */
  function RetryStage(k: Key, n: nat): State {
    var exec := if n < 4 then map[0 := Exec(k, if n == 0 then Have(0, false, 0) else if n == 1 then Done else Unleased)]
                else map[1 := Exec(k, if n == 4 then Claimed else if n == 5 then Start(0) else if n == 6 then Have(0, false, 0) else Sent(0))];
    State(map[k := Pending(0, false)], if n == 3 then {} else {k}, if 2 <= n <= 4 then {} else {k.task}, if n == 3 then map[] else exec,
          [k], if n < 7 then multiset{} else multiset{0}, {}, {}, {}, {}, if n == 0 then multiset{} else multiset{0})
  }

  lemma RetryEnds(k: Key, n: nat)
    requires n < 3
    ensures Next(RetryStage(k, n), Retry(k)[n]) == Some(RetryStage(k, n + 1))
  {
    var m, o := RetryStage(k, n), RetryStage(k, n + 1);
    if n == 2 {
      assert m.execs - {0} == o.execs && m.running - {k} == o.running;
    } else {
      assert m.execs[0 := o.execs[0]] == o.execs && m.leases - {k.task} == {};
      assert n == 0 ==> m.unreported + multiset{0} == o.unreported;
    }
  }

  lemma RetryFinds(k: Key, n: nat)
    requires 3 <= n < 7
    ensures Next(RetryStage(k, n), Retry(k)[n]) == Some(RetryStage(k, n + 1))
  {
    var m, o := RetryStage(k, n), RetryStage(k, n + 1);
    if n == 3 {
      assert m.execs[1 := Exec(k, Claimed)] == o.execs && m.running + {k} == o.running;
    } else {
      assert m.execs[1 := o.execs[1]] == o.execs && m.leases + {k.task} == o.leases;
      assert n == 6 ==> m.submits + multiset{0} == o.submits;
    }
  }

  lemma {:induction false} RetryRuns(k: Key, run: seq<Action>, n: nat)
    requires n <= 7 && Run(INITIAL, run) == Some(RetryStage(k, 0))
    ensures Run(INITIAL, run + Retry(k)[..n]) == Some(RetryStage(k, n))
  {
    hide Next, RetryStage, Retry;
    if n == 0 {
      assert run + Retry(k)[..0] == run;
    } else {
      RetryRuns(k, run, n - 1);
      if n <= 3 {
        RetryEnds(k, n - 1);
      } else {
        RetryFinds(k, n - 1);
      }
      RunOne(INITIAL, run + Retry(k)[..n - 1], Retry(k)[n - 1]);
      assert run + Retry(k)[..n] == run + Retry(k)[..n - 1] + [Retry(k)[n - 1]];
    }
  }

  /** A topic gets its prompt twice: the turn of the first was not seen running. */
  lemma PromptedTwice(k: Key)
    ensures exists s: State :: Reachable(s) && Owned(s, 0, k) && Prompts(s, 0) == 2
  {
    hide Run, Next, FirstRun;
    StagesRun(INITIAL, 0, k, 5);
    assert Stage(INITIAL, 0, k, 5) == RetryStage(k, 0);
    RetryRuns(k, FirstRun(0, k)[..5], 7);
    assert Reachable(RetryStage(k, 7));
  }
}
