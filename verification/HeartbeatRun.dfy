/** The life of a heartbeat topic: reservations, leases and pending topics of tasks that open a new conversation
for each run.

Any number of engines (processes) run any number of executions side by side; each action below is one
lock-guarded or indivisible step of one execution. A key is a task in one engine: reservations and pending
topics live in an engine's memory, leases are files shared by all engines.
*/
module HeartbeatRun {

  datatype Option<+T> = None | Some(value: T)

  datatype Key = Key(engine: nat, task: string)

  /** A topic is its position in the order of creation. */
  type Topic = nat

  datatype Pending = Pending(topic: Topic, submitted: bool)

  /** Where an execution stands; `depth` counts its self-calls. */
  datatype Phase =
    | Claimed
    | Start(depth: nat)
    | Empty(depth: nat)
    | Fresh(topic: Topic, depth: nat)
    | Have(topic: Topic, wasSubmitted: bool, depth: nat)
    | Sent(topic: Topic)
    | Done
    | Unleased

  datatype Exec = Exec(key: Key, phase: Phase)

  /** `creator` says for every topic which task it was created for; `submits` counts prompts whose submit
      was reported as started, `unreported` those delivered by a submit that was reported as failed; `idle` are topics whose controller was seen idle after a submit; `pruned` are keys whose pending topic
      some list edit ever dropped; `lost` are the topics dropped while marked submitted, `abandoned` those
      dropped while marked unsubmitted. */
  datatype State = State(pending: map<Key, Pending>, running: set<Key>, leases: set<string>, execs: map<nat, Exec>,
    creator: seq<Key>, submits: multiset<Topic>, idle: set<Topic>, pruned: set<Key>, lost: set<Topic>, abandoned: set<Topic>,
    unreported: multiset<Topic>)

  datatype Action =
    | Claim(i: nat, key: Key)
    | Lease(i: nat)
    | LeaseFailed(i: nat)
    | Look(i: nat)
    | Create(i: nat)
    | CreateFailed(i: nat)
    | Remember(i: nat)
    | Skip(i: nat)
    | SeeIdle(i: nat)
    | Submit(i: nat)
    | SubmitUnreported(i: nat)
    | MarkSubmitted(i: nat)
    | ReleaseLease(i: nat)
    | ReleaseTask(i: nat)
    | Prune(key: Key)

  const INITIAL: State := State(map[], {}, {}, map[], [], multiset{}, {}, {}, {}, {}, multiset{})

  function At(s: State, i: nat, p: Phase): State
    requires i in s.execs
  {
    s.(execs := s.execs[i := s.execs[i].(phase := p)])
  }

  /** The state after one step; `None` when the step cannot be taken. */
  function Next(s: State, a: Action): Option<State> {
    match a
    case Claim(i, k) =>
      if i in s.execs || k in s.running then None
      else Some(s.(running := s.running + {k}, execs := s.execs[i := Exec(k, Claimed)]))
    case Prune(k) =>
      if k in s.pending then
        var p := s.pending[k];
        Some(s.(pending := s.pending - {k}, pruned := s.pruned + {k},
                lost := if p.submitted then s.lost + {p.topic} else s.lost,
                abandoned := if p.submitted then s.abandoned else s.abandoned + {p.topic}))
      else None
    case _ =>
      if a.i !in s.execs then None else Advance(s, a, a.i, s.execs[a.i].key, s.execs[a.i].phase)
  }

  function Advance(s: State, a: Action, i: nat, k: Key, p: Phase): Option<State>
    requires i in s.execs && s.execs[i] == Exec(k, p)
  {
    match (a, p)
    case (Lease(_), Claimed) =>
      if k.task in s.leases then None else Some(At(s, i, Start(0)).(leases := s.leases + {k.task}))
    case (LeaseFailed(_), Claimed) => Some(s.(running := s.running - {k}, execs := s.execs - {i}))
    case (Look(_), Start(d)) =>
      Some(At(s, i, if k in s.pending then Have(s.pending[k].topic, s.pending[k].submitted, d) else Empty(d)))
    case (Create(_), Empty(d)) => Some(At(s, i, Fresh(|s.creator|, d)).(creator := s.creator + [k]))
    case (CreateFailed(_), Empty(_)) => Some(At(s, i, Done))
    case (Remember(_), Fresh(t, d)) => Some(At(s, i, Have(t, false, d)).(pending := s.pending[k := Pending(t, false)]))
    case (Skip(_), Have(_, _, _)) => Some(At(s, i, Done))
    case (SeeIdle(_), Have(t, true, d)) =>
      Some(At(s, i, Start(d + 1)).(
        pending := if k in s.pending && s.pending[k] == Pending(t, true) then s.pending - {k} else s.pending,
        idle := s.idle + {t}))
    case (Submit(_), Have(t, false, _)) => Some(At(s, i, Sent(t)).(submits := s.submits + multiset{t}))
    case (SubmitUnreported(_), Have(t, false, _)) => Some(At(s, i, Done).(unreported := s.unreported + multiset{t}))
    case (MarkSubmitted(_), Sent(t)) => Some(At(s, i, Done).(pending := s.pending[k := Pending(t, true)]))
    case (ReleaseLease(_), Done) => Some(At(s, i, Unleased).(leases := s.leases - {k.task}))
    case (ReleaseTask(_), Unleased) => Some(s.(running := s.running - {k}, execs := s.execs - {i}))
    case _ => None
  }

  function Run(s: State, run: seq<Action>): Option<State>
    decreases |run|
  {
    if run == [] then Some(s)
    else
      var n := Next(s, run[0]);
      if n.None? then None else Run(n.value, run[1..])
  }

  // ---- The invariant -----------------------------------------------------------------------------

  predicate HoldsLease(p: Phase) {
    !p.Claimed? && !p.Unleased?
  }

  /** No two executions of one task in one engine. */
  ghost predicate OneEach(s: State) {
    forall i, j | i in s.execs && j in s.execs && s.execs[i].key == s.execs[j].key :: i == j
  }

  ghost predicate AllReserved(s: State) {
    forall i | i in s.execs :: s.execs[i].key in s.running
  }

  /** A reservation belongs to an execution: none is left behind. */
  ghost predicate NoneLeft(s: State) {
    forall k | k in s.running :: exists i :: i in s.execs && s.execs[i].key == k
  }

  ghost predicate Exclusive(s: State) {
    OneEach(s) && AllReserved(s)
  }

  ghost predicate LeasesHeld(s: State) {
    (forall i, j | i in s.execs && j in s.execs && HoldsLease(s.execs[i].phase) && HoldsLease(s.execs[j].phase) &&
       s.execs[i].key.task == s.execs[j].key.task :: i == j) &&
    (forall i | i in s.execs && HoldsLease(s.execs[i].phase) :: s.execs[i].key.task in s.leases)
  }

  predicate Owned(s: State, t: Topic, k: Key) {
    t < |s.creator| && s.creator[t] == k
  }

  /** Nothing was submitted on a pending topic that is marked unsubmitted. */
  predicate Quiet(s: State, k: Key) {
    k in s.pending && !s.pending[k].submitted ==> s.submits[s.pending[k].topic] == 0
  }

  predicate SlotOk(s: State, k: Key)
    requires k in s.pending
  {
    Owned(s, s.pending[k].topic, k) && (s.pending[k].submitted ==> s.submits[s.pending[k].topic] == 1)
  }

  /** The pending topic of `k` is `p`, unless a list edit dropped it. */
  predicate Keeps(s: State, k: Key, p: Pending) {
    (k in s.pending ==> s.pending[k] == p) && (k !in s.pruned ==> k in s.pending)
  }

  predicate PhaseOk(s: State, k: Key, p: Phase) {
    (p.Sent? || Quiet(s, k)) &&
    match p
    case Start(d) => d <= 1 && (d == 1 ==> k !in s.pending)
    case Empty(d) => d <= 1 && k !in s.pending
    case Fresh(t, d) => d <= 1 && k !in s.pending && Owned(s, t, k) && s.submits[t] == 0
    case Have(t, was, d) =>
      Owned(s, t, k) && Keeps(s, k, Pending(t, was)) &&
      if was then d == 0 && s.submits[t] == 1 else d <= 1 && s.submits[t] == 0
    case Sent(t) => Owned(s, t, k) && Keeps(s, k, Pending(t, false)) && s.submits[t] == 1
    case _ => true
  }

  ghost predicate Phases(s: State) {
    (forall i | i in s.execs :: PhaseOk(s, s.execs[i].key, s.execs[i].phase)) &&
    (forall k | k in s.pending :: SlotOk(s, k)) &&
    (forall k | k !in s.running :: Quiet(s, k))
  }

  ghost predicate AtMostOnce(s: State) {
    forall t | t in s.submits :: t < |s.creator| && s.submits[t] == 1
  }

  /** Submitted, and seen idle afterwards. */
  predicate Closed(s: State, t: Topic) {
    s.submits[t] == 1 && t in s.idle
  }

  ghost predicate FreshBy(s: State, t: Topic) {
    exists i :: i in s.execs && s.execs[i].phase.Fresh? && s.execs[i].phase.topic == t
  }

  /** The one topic of its task that may still be open. */
  ghost predicate Current(s: State, t: Topic)
    requires t < |s.creator|
  {
    (s.creator[t] in s.pending && s.pending[s.creator[t]].topic == t) || FreshBy(s, t)
  }

  ghost predicate NoneForgotten(s: State) {
    forall t | 0 <= t < |s.creator| && s.creator[t] !in s.pruned :: Closed(s, t) || Current(s, t)
  }

  ghost predicate Inv(s: State) {
    Exclusive(s) && NoneLeft(s) && LeasesHeld(s) && Phases(s) && AtMostOnce(s) && NoneForgotten(s)
  }

  // ---- Every step keeps it -------------------------------------------------------------------------

  function KeyOf(s: State, a: Action): (k: Key)
    requires Next(s, a).Some?
  {
    if a.Claim? || a.Prune? then a.key else s.execs[a.i].key
  }

  /** A step of an execution of `k` touches nothing of other keys. */
  ghost predicate Frame(s: State, n: State, k: Key) {
    s.creator <= n.creator &&
    (forall o | o != k :: (o in n.pending <==> o in s.pending) && (o in s.pending ==> n.pending[o] == s.pending[o]) &&
       (o in n.pruned <==> o in s.pruned) && (o in n.running <==> o in s.running)) &&
    (forall t: Topic | t < |s.creator| && s.creator[t] != k :: n.submits[t] == s.submits[t]) &&
    (forall j | j in n.execs && n.execs[j].key != k :: j in s.execs && n.execs[j] == s.execs[j]) &&
    (forall j | j in s.execs && s.execs[j].key != k :: j in n.execs && n.execs[j] == s.execs[j])
  }

  /** The only execution of its task, in a lawful phase. */
  ghost predicate Sole(s: State, i: nat) {
    i in s.execs &&
    var k := s.execs[i].key;
    PhaseOk(s, k, s.execs[i].phase) && k in s.running && (k in s.pending ==> SlotOk(s, k)) &&
    forall j | j in s.execs && s.execs[j].key == k :: j == i
  }

  lemma SoleExec(s: State, i: nat)
    requires Exclusive(s) && Phases(s) && i in s.execs
    ensures Sole(s, i)
  {
    hide PhaseOk, SlotOk, Quiet;
  }

  lemma ExecFrames(s: State, a: Action)
    requires !a.Claim? && !a.Prune? && Sole(s, a.i) && Next(s, a).Some?
    ensures Frame(s, Next(s, a).value, s.execs[a.i].key)
  {
    hide SlotOk, Quiet;
  }

  lemma FrameKeepsOthers(s: State, n: State, k: Key, o: Key, p: Phase)
    requires Frame(s, n, k) && o != k && (o in s.pending ==> SlotOk(s, o))
    ensures PhaseOk(s, o, p) ==> PhaseOk(n, o, p)
    ensures Quiet(s, o) ==> Quiet(n, o)
    ensures o in n.pending ==> SlotOk(n, o)
  {
  }

  ghost predicate OwnOk(n: State, k: Key) {
    (forall j | j in n.execs && n.execs[j].key == k :: PhaseOk(n, k, n.execs[j].phase)) &&
    (k in n.pending ==> SlotOk(n, k)) && (k !in n.running ==> Quiet(n, k))
  }

  lemma ReserveKeepsOwn(s: State, a: Action)
    requires a.Lease? || a.LeaseFailed? || a.ReleaseLease? || a.ReleaseTask? || a.Look? || a.CreateFailed? || a.Skip? || a.SubmitUnreported?
    requires Sole(s, a.i) && Next(s, a).Some?
    ensures OwnOk(Next(s, a).value, s.execs[a.i].key)
  {
  }

  lemma CreateKeepsOwn(s: State, a: Action)
    requires a.Create? || a.Remember?
    requires Sole(s, a.i) && AtMostOnce(s) && Next(s, a).Some?
    ensures OwnOk(Next(s, a).value, s.execs[a.i].key)
  {
  }

  lemma SubmitKeepsOwn(s: State, a: Action)
    requires a.SeeIdle? || a.Submit? || a.MarkSubmitted?
    requires Sole(s, a.i) && Next(s, a).Some?
    ensures OwnOk(Next(s, a).value, s.execs[a.i].key)
  {
  }

  lemma ClaimIsLocal(s: State, i: nat, k: Key)
    requires Exclusive(s) && Phases(s) && i !in s.execs && k !in s.running
    ensures Frame(s, Next(s, Claim(i, k)).value, k) && OwnOk(Next(s, Claim(i, k)).value, k)
  {
  }

  lemma PruneIsLocal(s: State, k: Key)
    requires Phases(s) && k in s.pending
    ensures Frame(s, Next(s, Prune(k)).value, k) && OwnOk(Next(s, Prune(k)).value, k)
  {
    hide SlotOk;
    forall j | j in s.execs && s.execs[j].key == k ensures PhaseOk(Next(s, Prune(k)).value, k, s.execs[j].phase) {
      assert PhaseOk(s, k, s.execs[j].phase);
    }
  }

  /** A step keeps its own key lawful and touches no other. */
  lemma StepIsLocal(s: State, a: Action)
    requires Exclusive(s) && Phases(s) && AtMostOnce(s) && Next(s, a).Some?
    ensures Frame(s, Next(s, a).value, KeyOf(s, a)) && OwnOk(Next(s, a).value, KeyOf(s, a))
  {
    if !a.Claim? && !a.Prune? {
      hide Exclusive, Phases, AtMostOnce, Frame, OwnOk, Advance, Sole;
      SoleExec(s, a.i);
      ExecFrames(s, a);
      if a.Create? || a.Remember? {
        CreateKeepsOwn(s, a);
      } else if a.SeeIdle? || a.Submit? || a.MarkSubmitted? {
        SubmitKeepsOwn(s, a);
      } else {
        ReserveKeepsOwn(s, a);
      }
    } else if a.Claim? {
      hide Phases, Exclusive, Frame, OwnOk, Advance;
      ClaimIsLocal(s, a.i, a.key);
    } else {
      hide Exclusive, Phases, Frame, OwnOk, Advance;
      PruneIsLocal(s, a.key);
    }
  }

  lemma PhasesKept(s: State, a: Action)
    requires Exclusive(s) && Phases(s) && AtMostOnce(s) && Next(s, a).Some?
    ensures Phases(Next(s, a).value)
  {
    var n, k := Next(s, a).value, KeyOf(s, a);
    StepIsLocal(s, a);
    hide Next, PhaseOk, Quiet, SlotOk, Exclusive, AtMostOnce, KeyOf;
    forall j | j in n.execs ensures PhaseOk(n, n.execs[j].key, n.execs[j].phase) {
      if n.execs[j].key != k {
        FrameKeepsOthers(s, n, k, n.execs[j].key, n.execs[j].phase);
      }
    }
    forall o | o in n.pending ensures SlotOk(n, o) {
      if o != k {
        FrameKeepsOthers(s, n, k, o, Done);
      }
    }
    forall o | o !in n.running ensures Quiet(n, o) {
      if o != k {
        FrameKeepsOthers(s, n, k, o, Done);
      }
    }
  }

  // Reservations and leases.

  /** A step of execution `i` that neither begins nor ends it. */
  ghost predicate Moves(s: State, i: nat, n: State) {
    i in s.execs && n.execs.Keys == s.execs.Keys && n.execs[i].key == s.execs[i].key && n.running == s.running &&
    forall j | j in s.execs && j != i :: n.execs[j] == s.execs[j]
  }

  lemma ExclusiveMoves(s: State, i: nat, n: State)
    requires Exclusive(s) && Moves(s, i, n)
    ensures Exclusive(n)
  {
    forall j | j in n.execs ensures n.execs[j].key == s.execs[j].key {
    }
  }

  lemma ExclusiveArrives(s: State, i: nat, k: Key, n: State)
    requires Exclusive(s) && i !in s.execs && k !in s.running
    requires n.running == s.running + {k} && n.execs == s.execs[i := Exec(k, Claimed)]
    ensures Exclusive(n)
  {
  }

  lemma ExclusiveLeaves(s: State, i: nat, n: State)
    requires Exclusive(s) && i in s.execs && n.running == s.running - {s.execs[i].key} && n.execs == s.execs - {i}
    ensures Exclusive(n)
  {
  }

  lemma NoneLeftKept(s: State, n: State)
    requires NoneLeft(s)
    requires forall k | k in n.running && k !in s.running :: exists i :: i in n.execs && n.execs[i].key == k
    requires forall i | i in s.execs && s.execs[i].key in n.running :: i in n.execs && n.execs[i].key == s.execs[i].key
    ensures NoneLeft(n)
  {
    forall k | k in n.running ensures exists i :: i in n.execs && n.execs[i].key == k {
      if k in s.running {
        var i :| i in s.execs && s.execs[i].key == k;
        assert n.execs[i].key == k;
      }
    }
  }

  lemma LeasesMove(s: State, i: nat, n: State)
    requires LeasesHeld(s) && Moves(s, i, n) && LeaseStep(s, i, n)
    ensures LeasesHeld(n)
  {
  }

  lemma LeasesStay(s: State, n: State)
    requires LeasesHeld(s) && n.leases == s.leases
    requires forall i | i in n.execs :: !HoldsLease(n.execs[i].phase) || (i in s.execs && n.execs[i] == s.execs[i])
    ensures LeasesHeld(n)
  {
    forall i | i in n.execs && HoldsLease(n.execs[i].phase) ensures i in s.execs && s.execs[i] == n.execs[i] {
    }
  }

  lemma EndsKeepExclusive(s: State, i: nat, n: State)
    requires Exclusive(s) && NoneLeft(s) && LeasesHeld(s) && i in s.execs
    requires n == s.(running := s.running - {s.execs[i].key}, execs := s.execs - {i})
    ensures Exclusive(n) && NoneLeft(n) && LeasesHeld(n)
  {
    hide Exclusive, NoneLeft, LeasesHeld;
    ExclusiveLeaves(s, i, n);
    NoneLeftKept(s, n);
    LeasesStay(s, n);
  }

  lemma ClaimKeepsExclusive(s: State, i: nat, k: Key, n: State)
    requires Exclusive(s) && NoneLeft(s) && LeasesHeld(s) && i !in s.execs && k !in s.running
    requires n == s.(running := s.running + {k}, execs := s.execs[i := Exec(k, Claimed)])
    ensures Exclusive(n) && NoneLeft(n) && LeasesHeld(n)
  {
    hide Exclusive, NoneLeft, LeasesHeld;
    ExclusiveArrives(s, i, k, n);
    assert n.execs[i].key == k;
    NoneLeftKept(s, n);
    LeasesStay(s, n);
  }

  /** The lease is kept, given back, or taken when it was free. */
  ghost predicate LeaseStep(s: State, i: nat, n: State)
    requires i in s.execs && i in n.execs
  {
    var had, has, task := HoldsLease(s.execs[i].phase), HoldsLease(n.execs[i].phase), s.execs[i].key.task;
    if had == has then n.leases == s.leases
    else if has then task !in s.leases && n.leases == s.leases + {task}
    else n.leases == s.leases - {task}
  }

  lemma MovesKeepExclusive(s: State, i: nat, n: State)
    requires Exclusive(s) && NoneLeft(s) && LeasesHeld(s) && Moves(s, i, n) && LeaseStep(s, i, n)
    ensures Exclusive(n) && NoneLeft(n) && LeasesHeld(n)
  {
    hide Exclusive, NoneLeft, LeasesHeld, LeaseStep;
    ExclusiveMoves(s, i, n);
    NoneLeftKept(s, n);
    LeasesMove(s, i, n);
  }

  lemma ExclusiveKept(s: State, a: Action)
    requires Exclusive(s) && NoneLeft(s) && LeasesHeld(s) && Next(s, a).Some?
    ensures Exclusive(Next(s, a).value) && NoneLeft(Next(s, a).value) && LeasesHeld(Next(s, a).value)
  {
    var n := Next(s, a).value;
    hide Exclusive, NoneLeft, LeasesHeld;
    if a.Claim? {
      hide Advance;
      ClaimKeepsExclusive(s, a.i, a.key, n);
    } else if a.LeaseFailed? || a.ReleaseTask? {
      EndsKeepExclusive(s, a.i, n);
    } else if a.Prune? {
      hide Advance;
      PruneKeepsExclusive(s, n);
    } else {
      MovesInPlace(s, a);
      hide Next;
      MovesKeepExclusive(s, a.i, n);
    }
  }

  lemma MovesInPlace(s: State, a: Action)
    requires !a.Claim? && !a.LeaseFailed? && !a.ReleaseTask? && !a.Prune? && Next(s, a).Some?
    ensures Moves(s, a.i, Next(s, a).value) && LeaseStep(s, a.i, Next(s, a).value)
  {
    hide HoldsLease;
    ActorStays(s, a);
    hide Advance;
    LeaseMoves(s, a);
  }

  lemma ActorStays(s: State, a: Action)
    requires !a.Claim? && !a.LeaseFailed? && !a.ReleaseTask? && !a.Prune? && Next(s, a).Some?
    ensures Moves(s, a.i, Next(s, a).value)
  {
  }

  lemma LeaseMoves(s: State, a: Action)
    requires !a.Claim? && !a.LeaseFailed? && !a.ReleaseTask? && !a.Prune? && Next(s, a).Some?
    requires a.i in s.execs && a.i in Next(s, a).value.execs
    ensures LeaseStep(s, a.i, Next(s, a).value)
  {
  }

  lemma PruneKeepsExclusive(s: State, n: State)
    requires Exclusive(s) && NoneLeft(s) && LeasesHeld(s)
    requires n.execs == s.execs && n.running == s.running && n.leases == s.leases
    ensures Exclusive(n) && NoneLeft(n) && LeasesHeld(n)
  {
  }

  lemma AtMostOnceKept(s: State, a: Action)
    requires Exclusive(s) && Phases(s) && AtMostOnce(s) && Next(s, a).Some?
    ensures AtMostOnce(Next(s, a).value)
  {
    if a.Submit? {
      assert PhaseOk(s, s.execs[a.i].key, s.execs[a.i].phase);
    }
  }

  // Topics that are still open.

  lemma OthersStayClosed(s: State, n: State, k: Key, t: Topic)
    requires Phases(s) && NoneForgotten(s) && Frame(s, n, k) && s.idle <= n.idle
    requires t < |n.creator| && n.creator[t] != k && n.creator[t] !in n.pruned
    requires t < |s.creator|
    ensures Closed(n, t) || Current(n, t)
  {
    hide Quiet, SlotOk;
    if FreshBy(s, t) {
      var i :| i in s.execs && s.execs[i].phase.Fresh? && s.execs[i].phase.topic == t;
      assert PhaseOk(s, s.execs[i].key, s.execs[i].phase);
      assert n.execs[i] == s.execs[i];
    }
  }

  lemma OwnStaysClosed(s: State, a: Action, t: Topic)
    requires !a.Claim? && !a.Prune? && Sole(s, a.i) && AtMostOnce(s) && NoneForgotten(s) && Next(s, a).Some?
    requires t < |Next(s, a).value.creator| && Next(s, a).value.creator[t] == s.execs[a.i].key && s.execs[a.i].key !in s.pruned
    requires FreshBy(s, t) ==> s.execs[a.i].phase.Fresh? && s.execs[a.i].phase.topic == t
    ensures Closed(Next(s, a).value, t) || Current(Next(s, a).value, t)
  {
    hide Quiet, SlotOk;
    var n := Next(s, a).value;
    if a.Create? && t == |s.creator| {
      assert n.execs[a.i].phase.Fresh? && n.execs[a.i].phase.topic == t;
    }
  }

  lemma FreshIsOwn(s: State, i: nat, t: Topic)
    requires Phases(s) && Sole(s, i) && FreshBy(s, t) && t < |s.creator| && s.creator[t] == s.execs[i].key
    ensures s.execs[i].phase.Fresh? && s.execs[i].phase.topic == t
  {
    hide Quiet, SlotOk;
    var j :| j in s.execs && s.execs[j].phase.Fresh? && s.execs[j].phase.topic == t;
    assert PhaseOk(s, s.execs[j].key, s.execs[j].phase);
  }

  lemma TopicsGrow(s: State, a: Action)
    requires Next(s, a).Some?
    ensures var n := Next(s, a).value;
            s.idle <= n.idle && s.pruned <= n.pruned && s.creator <= n.creator &&
            forall t | |s.creator| <= t < |n.creator| :: n.creator[t] == KeyOf(s, a) && a.Create?
  {
  }

  lemma ClaimKeepsTopics(s: State, i: nat, k: Key, t: Topic)
    requires NoneForgotten(s) && i !in s.execs && k !in s.running && t < |s.creator| && s.creator[t] !in s.pruned
    ensures Closed(Next(s, Claim(i, k)).value, t) || Current(Next(s, Claim(i, k)).value, t)
  {
    hide Advance;
    var n := Next(s, Claim(i, k)).value;
    if FreshBy(s, t) {
      var j :| j in s.execs && s.execs[j].phase.Fresh? && s.execs[j].phase.topic == t;
      assert n.execs[j] == s.execs[j];
    }
  }

  lemma NoneForgottenKept(s: State, a: Action)
    requires Exclusive(s) && Phases(s) && AtMostOnce(s) && NoneForgotten(s) && Next(s, a).Some?
    ensures NoneForgotten(Next(s, a).value)
  {
    var n, k := Next(s, a).value, KeyOf(s, a);
    forall t | 0 <= t < |n.creator| && n.creator[t] !in n.pruned ensures Closed(n, t) || Current(n, t) {
      hide Exclusive, Phases, AtMostOnce, Closed, Current, Frame, OwnOk;
      StepIsLocal(s, a);
      if n.creator[t] != k {
        hide Advance;
        TopicsGrow(s, a);
        OthersStayClosed(s, n, k, t);
      } else if a.Claim? {
        hide Advance;
        TopicsGrow(s, a);
        ClaimKeepsTopics(s, a.i, k, t);
      } else if !a.Prune? {
        hide Advance;
        TopicsGrow(s, a);
        SoleExec(s, a.i);
        if t < |s.creator| && s.creator[t] == k && FreshBy(s, t) {
          FreshIsOwn(s, a.i, t);
        }
        OwnStaysClosed(s, a, t);
      }
    }
  }

  lemma StepKeepsInv(s: State, a: Action)
    requires Inv(s) && Next(s, a).Some?
    ensures Inv(Next(s, a).value)
  {
    hide Next, Exclusive, NoneLeft, LeasesHeld, Phases, AtMostOnce, NoneForgotten;
    ExclusiveKept(s, a);
    PhasesKept(s, a);
    AtMostOnceKept(s, a);
    NoneForgottenKept(s, a);
  }

  lemma {:induction false} RunKeepsInv(s: State, run: seq<Action>)
    requires Inv(s) && Run(s, run).Some?
    ensures Inv(Run(s, run).value)
    decreases |run|
  {
    hide Inv, Next;
    if run != [] {
      StepKeepsInv(s, run[0]);
      RunKeepsInv(Next(s, run[0]).value, run[1..]);
    }
  }

  /** The states some run reaches. */
  ghost predicate Reachable(s: State) {
    exists run :: Run(INITIAL, run) == Some(s)
  }

  lemma ReachableInv(s: State)
    requires Reachable(s)
    ensures Inv(s)
  {
    var run :| Run(INITIAL, run) == Some(s);
    assert Inv(INITIAL);
    RunKeepsInv(INITIAL, run);
  }

  // ---- What every run keeps ------------------------------------------------------------------------

  /** At most one execution of a task per engine, and at most one past the lease in all engines together. */
  lemma OneExecutionPerTask(s: State, i: nat, j: nat)
    requires Reachable(s) && i in s.execs && j in s.execs && s.execs[i].key.task == s.execs[j].key.task
    ensures s.execs[i].key.engine == s.execs[j].key.engine ==> i == j
    ensures HoldsLease(s.execs[i].phase) && HoldsLease(s.execs[j].phase) ==> i == j
  {
    ReachableInv(s);
    hide Phases, NoneForgotten, NoneLeft;
  }

  /** A lease belongs to an execution that holds it. */
  ghost predicate LeasesOwned(s: State) {
    forall task | task in s.leases :: exists i :: i in s.execs && HoldsLease(s.execs[i].phase) && s.execs[i].key.task == task
  }

  lemma MovesKeepOwners(s: State, i: nat, n: State)
    requires LeasesOwned(s) && Moves(s, i, n) && LeaseStep(s, i, n)
    ensures LeasesOwned(n)
  {
    forall task | task in n.leases ensures exists j :: j in n.execs && HoldsLease(n.execs[j].phase) && n.execs[j].key.task == task {
      if task in s.leases {
        var j :| j in s.execs && HoldsLease(s.execs[j].phase) && s.execs[j].key.task == task;
        assert n.execs[j].key == s.execs[j].key;
      } else {
        assert HoldsLease(n.execs[i].phase) && n.execs[i].key.task == task;
      }
    }
  }

  lemma OthersKeepOwners(s: State, n: State)
    requires LeasesOwned(s) && n.leases == s.leases
    requires forall i | i in s.execs && HoldsLease(s.execs[i].phase) :: i in n.execs && n.execs[i] == s.execs[i]
    ensures LeasesOwned(n)
  {
    forall task | task in n.leases ensures exists j :: j in n.execs && HoldsLease(n.execs[j].phase) && n.execs[j].key.task == task {
      var j :| j in s.execs && HoldsLease(s.execs[j].phase) && s.execs[j].key.task == task;
      assert n.execs[j] == s.execs[j];
    }
  }

  lemma OwnersKept(s: State, a: Action)
    requires LeasesOwned(s) && Next(s, a).Some?
    ensures LeasesOwned(Next(s, a).value)
  {
    hide LeasesOwned;
    if a.Claim? || a.Prune? || a.LeaseFailed? || a.ReleaseTask? {
      OthersKeepOwners(s, Next(s, a).value);
    } else {
      MovesInPlace(s, a);
      hide Next;
      MovesKeepOwners(s, a.i, Next(s, a).value);
    }
  }

  lemma {:induction false} RunKeepsOwners(s: State, run: seq<Action>)
    requires LeasesOwned(s) && Run(s, run).Some?
    ensures LeasesOwned(Run(s, run).value)
    decreases |run|
  {
    hide LeasesOwned, Next;
    if run != [] {
      OwnersKept(s, run[0]);
      RunKeepsOwners(Next(s, run[0]).value, run[1..]);
    }
  }

  /** Nothing is left behind: a task is reserved in an engine exactly while an execution of it is under way there, and
      its lease is taken exactly while one holds it. */
  lemma NothingLeftBehind(s: State)
    requires Reachable(s)
    ensures forall k :: k in s.running <==> exists i :: i in s.execs && s.execs[i].key == k
    ensures forall task :: task in s.leases <==> exists i :: i in s.execs && HoldsLease(s.execs[i].phase) && s.execs[i].key.task == task
  {
    ReachableInv(s);
    hide Phases, NoneForgotten, AtMostOnce, OneEach;
    var run :| Run(INITIAL, run) == Some(s);
    RunKeepsOwners(INITIAL, run);
  }

  /** The prompts a topic has received. */
  function Prompts(s: State, t: Topic): nat {
    s.submits[t] + s.unreported[t]
  }

  /** A topic receives at most one prompt, even when list edits drop pending topics, unless the submit of one was
      reported as failed. */
  lemma TopicSubmittedOnce(s: State, t: Topic)
    requires Reachable(s)
    ensures s.submits[t] <= 1
    ensures Prompts(s, t) > 1 ==> t in s.unreported
  {
    ReachableInv(s);
    hide Phases, NoneForgotten, NoneLeft, Exclusive, LeasesHeld;
  }

  /** A prompt goes to a topic that already has one, if and only if the submit of an earlier one was reported as failed. */
  lemma SecondPromptExact(s: State, i: nat)
    requires Reachable(s) && Next(s, Submit(i)).Some?
    ensures var t := s.execs[i].phase.topic;
            Next(s, Submit(i)).value.submits[t] == s.submits[t] + 1 && (Prompts(s, t) > 0 <==> t in s.unreported)
  {
    ReachableInv(s);
    hide NoneForgotten, NoneLeft, Exclusive, LeasesHeld;
    assert PhaseOk(s, s.execs[i].key, s.execs[i].phase);
  }

  /** An execution calls itself at most once. */
  lemma RecursesAtMostOnce(s: State, i: nat)
    requires Reachable(s) && i in s.execs
    ensures var p := s.execs[i].phase;
            (p.Start? || p.Empty? || p.Fresh? || p.Have? ==> p.depth <= 1) && (p.Have? && p.wasSubmitted ==> p.depth == 0)
  {
    ReachableInv(s);
    hide NoneForgotten, NoneLeft, Exclusive, LeasesHeld;
    assert PhaseOk(s, s.execs[i].key, s.execs[i].phase);
  }

  function CreatedFor(s: State, k: Key): set<Topic> {
    set t: Topic | t < |s.creator| && s.creator[t] == k
  }

  function SubmittedFor(s: State, k: Key): set<Topic> {
    set t: Topic | t < |s.creator| && s.creator[t] == k && s.submits[t] == 1
  }

  /** The topic a task has created and not submitted yet: pending, or still in the hand of its creator. */
  ghost predicate Unsubmitted(s: State, k: Key, t: Topic) {
    t < |s.creator| && s.creator[t] == k && s.submits[t] == 0 &&
    ((k in s.pending && s.pending[k] == Pending(t, false)) || FreshBy(s, t))
  }

  lemma OneUnsubmitted(s: State, k: Key, t: Topic, u: Topic)
    requires Inv(s) && Unsubmitted(s, k, t) && Unsubmitted(s, k, u)
    ensures t == u
  {
    hide NoneLeft, LeasesHeld, AtMostOnce, NoneForgotten;
    if FreshBy(s, t) {
      FreshEmptiesSlot(s, k, t);
    }
    if FreshBy(s, u) {
      FreshEmptiesSlot(s, k, u);
    }
  }

  lemma FreshEmptiesSlot(s: State, k: Key, t: Topic)
    requires Exclusive(s) && Phases(s) && FreshBy(s, t) && t < |s.creator| && s.creator[t] == k
    ensures k !in s.pending && forall u: Topic | u < |s.creator| && s.creator[u] == k && FreshBy(s, u) :: u == t
  {
    var i :| i in s.execs && s.execs[i].phase.Fresh? && s.execs[i].phase.topic == t;
    assert PhaseOk(s, s.execs[i].key, s.execs[i].phase);
    SoleExec(s, i);
    forall u: Topic | u < |s.creator| && s.creator[u] == k && FreshBy(s, u) ensures u == t {
      FreshIsOwn(s, i, u);
    }
  }

  /** Topics neither leak nor pile up: those created for a task in its engine are those submitted, plus the
      unsubmitted pending one if there is one. */
  lemma CreatedIsSubmittedPlusPending(s: State, k: Key)
    requires Reachable(s) && k !in s.pruned
    ensures |CreatedFor(s, k)| == |SubmittedFor(s, k)| + (if exists t :: Unsubmitted(s, k, t) then 1 else 0)
    ensures forall t | Unsubmitted(s, k, t) :: CreatedFor(s, k) == SubmittedFor(s, k) + {t}
    ensures !(exists t :: Unsubmitted(s, k, t)) ==> CreatedFor(s, k) == SubmittedFor(s, k)
  {
    ReachableInv(s);
    forall t | t in CreatedFor(s, k) ensures t in SubmittedFor(s, k) || Unsubmitted(s, k, t) {
      OpenIsUnsubmitted(s, k, t);
    }
    if exists u :: Unsubmitted(s, k, u) {
      var u :| Unsubmitted(s, k, u);
      forall t | Unsubmitted(s, k, t) ensures t == u {
        OneUnsubmitted(s, k, t, u);
      }
      assert CreatedFor(s, k) == SubmittedFor(s, k) + {u};
    } else {
      assert CreatedFor(s, k) == SubmittedFor(s, k);
    }
  }

  lemma OpenIsUnsubmitted(s: State, k: Key, t: Topic)
    requires Inv(s) && k !in s.pruned && t in CreatedFor(s, k)
    ensures s.submits[t] == 1 || Unsubmitted(s, k, t)
  {
    hide NoneLeft, LeasesHeld, Exclusive;
    if s.submits[t] != 1 && !FreshBy(s, t) {
      assert SlotOk(s, k);
    }
  }
}
