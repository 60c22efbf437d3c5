/** The converter object, the full conversion pass, and the lock-step of its planner-only twin.

A page never converts the transcript before its window. It replays that prefix through
`ConsumeHistoryPlannerState`, which must leave the planner queues and the suppression flag exactly
as converting the prefix would.
*/
module HistoryConvert {
  import opened HistoryModel
  import HistoryRows

  function PlannerTurnKept(env: Env, t: PlannerTurn): bool {
    env.trimSpace(t.userHash) != "" && t.messages != []
  }

  function QueueAt(queues: map<string, seq<PlannerTurn>>, key: string): seq<PlannerTurn> {
    if key in queues then queues[key] else []
  }

  /** The displays recorded for one user text, in recorded order. */
  function TurnsFor(env: Env, turns: seq<PlannerTurn>, key: string): seq<PlannerTurn> {
    if turns == [] then []
    else
      var t := turns[|turns| - 1];
      TurnsFor(env, turns[..|turns| - 1], key) + (if PlannerTurnKept(env, t) && t.userHash == key then [t] else [])
  }

  /** The queues a conversion starts with. */
  function PlannerQueues(env: Env, turns: seq<PlannerTurn>): map<string, seq<PlannerTurn>> {
    if turns == [] then map[]
    else
      var t := turns[|turns| - 1];
      var before := PlannerQueues(env, turns[..|turns| - 1]);
      if PlannerTurnKept(env, t) then before[t.userHash := QueueAt(before, t.userHash) + [t]] else before
  }

  lemma {:induction false} PlannerQueuesAreTurns(env: Env, turns: seq<PlannerTurn>, key: string)
    ensures QueueAt(PlannerQueues(env, turns), key) == TurnsFor(env, turns, key)
    ensures key in PlannerQueues(env, turns) <==> TurnsFor(env, turns, key) != []
  {
    if turns != [] {
      var t := turns[|turns| - 1];
      PlannerQueuesAreTurns(env, turns[..|turns| - 1], key);
    }
  }

  /** A queue holds the recorded displays of its text that have something to show; none are kept for a blank text. */
  lemma {:induction false} QueueHolds(env: Env, turns: seq<PlannerTurn>, key: string, t: PlannerTurn)
    ensures t in QueueAt(PlannerQueues(env, turns), key) <==>
            t in turns && t.userHash == key && env.trimSpace(key) != "" && t.messages != []
  {
    if turns != [] {
      var n := |turns| - 1;
      QueueHolds(env, turns[..n], key, t);
      assert turns == turns[..n] + [turns[n]];
    }
  }

  function InitState(env: Env, turns: seq<PlannerTurn>): ConvState {
    ConvState(PlannerQueues(env, turns), false)
  }

  /** The state after the planner-only replay of one message. */
  function ConsumeState(env: Env, st: ConvState, m: Message): ConvState {
    if m.decisionReceipt.Some? || (m.localOnly && env.steerText(env.userMessageText(m)).Some?) then st
    else if st.suppressCanonicalTurn && StaysHidden(env, m) then st
    else if m.role != User || env.isSynthetic(UserDisplayContent(env, m)) then Unsuppressed(st)
    else TakePlanner(env, Unsuppressed(st), m)
  }

  class HistoryMessageConvertState {
    var plannerByUserHash: map<string, seq<PlannerTurn>>
    var suppressCanonicalTurn: bool

    ghost function Value(): ConvState
      reads this
    {
      ConvState(plannerByUserHash, suppressCanonicalTurn)
    }

    constructor (env: Env, plannerTurns: seq<PlannerTurn>)
      ensures Value() == InitState(env, plannerTurns)
    {
      var queues := map[];
      for i := 0 to |plannerTurns|
        invariant queues == PlannerQueues(env, plannerTurns[..i])
      {
        var turn := plannerTurns[i];
        assert plannerTurns[..i + 1][..i] == plannerTurns[..i];
        if env.trimSpace(turn.userHash) == "" || |turn.messages| == 0 {
          continue;
        }
        queues := queues[turn.userHash := QueueAt(queues, turn.userHash) + [turn]];
      }
      assert plannerTurns[..|plannerTurns|] == plannerTurns;
      plannerByUserHash, suppressCanonicalTurn := queues, false;
    }

    /** Converts one message into its rows; `index` is its position in `checkpoints`. */
    method ConvertHistoryMessage(env: Env, index: int, m: Message, checkpoints: map<int, int>,
                                 todoArgs: map<string, string>, results: map<string, Message>)
      returns (out: seq<Row>)
      modifies this
      ensures out == RowsOf(env, old(Value()), index, m, checkpoints, todoArgs, results)
      ensures Value() == ConvertState(env, old(Value()), m)
      ensures HistoryRows.Shows(env, old(Value()), index, m, checkpoints, todoArgs, results, out)
      ensures HistoryRows.Leaves(env, old(Value()), m, Value())
    {
      hide HistoryRows.Shows, HistoryRows.Leaves;
      HistoryRows.RowsTold(env, Value(), index, m, checkpoints, todoArgs, results);
      HistoryRows.StateTold(env, Value(), m);
      out := [];
      if m.decisionReceipt.Some? {
        return [ReceiptRow(m.decisionReceipt.value)];
      }
      var text := env.userMessageText(m);
      if m.localOnly {
        if env.steerText(text).Some? {
          return [NoticeRow(env.unappliedSteerNotice(env.steerText(text).value), CODE_UNAPPLIED_STEER, "warn", None)];
        }
      }
      if suppressCanonicalTurn {
        if m.role != User || !env.isUserAuthoredTurn(text) {
          return;
        }
        suppressCanonicalTurn := false;
      }
      if m.role == User {
        if env.steerText(text).Some? {
          return [NoticeRow(STEER_ARROW + env.steerText(text).value, "", "", None)];
        }
        if env.isSynthetic(UserDisplayContent(env, m)) {
          return;
        }
      }
      out := ConvertOwnRows(env, index, m, checkpoints, todoArgs, results);
      if m.role == User {
        var key := env.messageDisplayKey(text);
        var turns := QueueAt(plannerByUserHash, key);
        if |turns| > 0 {
          out := out + turns[0].messages;
          suppressCanonicalTurn := SuppressesCanonical(turns[0]);
          plannerByUserHash := plannerByUserHash[key := turns[1..]];
        }
      }
    }

    /** The part of the conversion that touches no state. */
    static method ConvertOwnRows(env: Env, index: int, m: Message, checkpoints: map<int, int>,
                                 todoArgs: map<string, string>, results: map<string, Message>)
      returns (out: seq<Row>)
      ensures out == OwnRows(env, index, m, checkpoints, todoArgs, results)
    {
      out := [];
      var hm := MainRow(env, index, m, checkpoints, todoArgs, results);
      if MainRowShown(env, m, hm) {
        out := [hm];
      }
      ghost var head := out;
      var rs := m.decisionReceipts;
      for i := 0 to |rs|
        invariant out + ReceiptRows(rs[i..]) == head + ReceiptRows(rs)
      {
        if rs[i].Some? {
          out := out + [ReceiptRow(rs[i].value)];
        }
        assert rs[i..][1..] == rs[i + 1..];
      }
      if m.localOnly && m.interruptedTurn {
        out := out + [CancelledRow(env)];
      }
    }

    /** Advances only the planner state, for a message that is not rendered. */
    method ConsumeHistoryPlannerState(env: Env, m: Message)
      modifies this
      ensures Value() == ConsumeState(env, old(Value()), m)
    {
      if m.decisionReceipt.Some? {
        return;
      }
      var text := env.userMessageText(m);
      if m.localOnly {
        if env.steerText(text).Some? {
          return;
        }
      }
      if suppressCanonicalTurn {
        if m.role != User || !env.isUserAuthoredTurn(text) {
          return;
        }
        suppressCanonicalTurn := false;
      }
      if m.role != User {
        return;
      }
      if env.isSynthetic(UserDisplayContent(env, m)) {
        return;
      }
      var key := env.messageDisplayKey(text);
      var turns := QueueAt(plannerByUserHash, key);
      if |turns| > 0 {
        suppressCanonicalTurn := SuppressesCanonical(turns[0]);
        plannerByUserHash := plannerByUserHash[key := turns[1..]];
      }
    }
  }

  // ---- Lock-step ------------------------------------------------------------------

  /** The one way the two methods part: a steer that reaches the planner step of the replay and
      whose text has a planner display queued. Only the converter looks for such steers. */
  predicate SteerTakesPlanner(env: Env, st: ConvState, m: Message) {
    FateOf(env, st.suppressCanonicalTurn, m).AsSteer? &&
    !env.isSynthetic(UserDisplayContent(env, m)) &&
    AttachedPlanner(env, st, m).Some?
  }

  /** Replaying a message leaves the state that converting it leaves, exactly unless it is such a steer. */
  lemma LockStep(env: Env, st: ConvState, m: Message)
    ensures ConsumeState(env, st, m) == ConvertState(env, st, m) <==> !SteerTakesPlanner(env, st, m)
  {
    if SteerTakesPlanner(env, st, m) {
      var key := env.messageDisplayKey(env.userMessageText(m));
      var taken := TakePlanner(env, Unsuppressed(st), m);
      assert |taken.plannerByUserHash[key]| == |st.plannerByUserHash[key]| - 1;
    }
  }

  function Replayed(env: Env, st: ConvState, msgs: seq<Message>): ConvState {
    if msgs == [] then st
    else ConsumeState(env, Replayed(env, st, msgs[..|msgs| - 1]), msgs[|msgs| - 1])
  }

  function Converted(env: Env, st: ConvState, msgs: seq<Message>): ConvState {
    if msgs == [] then st
    else ConvertState(env, Converted(env, st, msgs[..|msgs| - 1]), msgs[|msgs| - 1])
  }

  /** No steer meets a queued planner display when the transcript is converted. */
  ghost predicate SteersMissPlanner(env: Env, st: ConvState, msgs: seq<Message>) {
    forall i | 0 <= i < |msgs| :: !SteerTakesPlanner(env, Converted(env, st, msgs[..i]), msgs[i])
  }

  ghost predicate ReplayAgrees(env: Env, st: ConvState, msgs: seq<Message>, n: nat)
    requires n <= |msgs|
  {
    Replayed(env, st, msgs[..n]) == Converted(env, st, msgs[..n])
  }

  /** Priming a prefix equals converting it, for every prefix, exactly when no steer meets a planner display. */
  lemma {:induction false} ReplayEqualsConversion(env: Env, st: ConvState, msgs: seq<Message>)
    ensures (forall n: nat | n <= |msgs| :: ReplayAgrees(env, st, msgs, n)) <==> SteersMissPlanner(env, st, msgs)
  {
    if SteersMissPlanner(env, st, msgs) {
      forall n: nat | n <= |msgs| ensures ReplayAgrees(env, st, msgs, n) {
        ReplayPrefix(env, st, msgs, n);
      }
    }
    if forall n: nat | n <= |msgs| :: ReplayAgrees(env, st, msgs, n) {
      forall i | 0 <= i < |msgs| ensures !SteerTakesPlanner(env, Converted(env, st, msgs[..i]), msgs[i]) {
        assert ReplayAgrees(env, st, msgs, i) && ReplayAgrees(env, st, msgs, i + 1);
        assert msgs[..i + 1][..i] == msgs[..i];
        LockStep(env, Converted(env, st, msgs[..i]), msgs[i]);
      }
    }
  }

  lemma {:induction false} ReplayPrefix(env: Env, st: ConvState, msgs: seq<Message>, n: nat)
    requires n <= |msgs| && SteersMissPlanner(env, st, msgs)
    ensures ReplayAgrees(env, st, msgs, n)
  {
    if n > 0 {
      ReplayPrefix(env, st, msgs, n - 1);
      assert msgs[..n][..n - 1] == msgs[..n - 1];
      LockStep(env, Converted(env, st, msgs[..n - 1]), msgs[n - 1]);
    }
  }

  // ---- A check on the recorded displays that is enough -----------------------------

  /** Every steer counts as synthetic, or no recorded display is keyed on its text. */
  ghost predicate SteersKeyNoPlanner(env: Env, turns: seq<PlannerTurn>, msgs: seq<Message>) {
    forall m | m in msgs && m.role == User && env.steerText(env.userMessageText(m)).Some? ::
      env.isSynthetic(UserDisplayContent(env, m)) ||
      TurnsFor(env, turns, env.messageDisplayKey(env.userMessageText(m))) == []
  }

  lemma {:induction false} ConvertedQueueIsTail(env: Env, st: ConvState, msgs: seq<Message>, key: string)
    requires QueueAt(st.plannerByUserHash, key) == []
    ensures QueueAt(Converted(env, st, msgs).plannerByUserHash, key) == []
  {
    if msgs != [] {
      ConvertedQueueIsTail(env, st, msgs[..|msgs| - 1], key);
    }
  }

  lemma UnkeyedSteersMissPlanner(env: Env, turns: seq<PlannerTurn>, msgs: seq<Message>)
    requires SteersKeyNoPlanner(env, turns, msgs)
    ensures SteersMissPlanner(env, InitState(env, turns), msgs)
  {
    var st := InitState(env, turns);
    forall i | 0 <= i < |msgs| ensures !SteerTakesPlanner(env, Converted(env, st, msgs[..i]), msgs[i]) {
      var key := env.messageDisplayKey(env.userMessageText(msgs[i]));
      PlannerQueuesAreTurns(env, turns, key);
      if TurnsFor(env, turns, key) == [] {
        ConvertedQueueIsTail(env, st, msgs[..i], key);
      }
    }
  }

  /** With no displays recorded the replay is skipped; nothing is lost by that. */
  lemma {:induction false} NoPlannerNoState(env: Env, st: ConvState, msgs: seq<Message>)
    requires st == ConvState(map[], false)
    ensures Replayed(env, st, msgs) == st
  {
    if msgs != [] {
      NoPlannerNoState(env, st, msgs[..|msgs| - 1]);
    }
  }

  /** Displays for one text are handed out in recorded order: a shown message takes the head of
      its own queue and leaves every other queue alone. */
  lemma PlannerQueuesAreFifo(env: Env, st: ConvState, m: Message, key: string, index: int,
                             checkpoints: map<int, int>, todoArgs: map<string, string>, results: map<string, Message>)
    ensures var before, after := QueueAt(st.plannerByUserHash, key), QueueAt(ConvertState(env, st, m).plannerByUserHash, key);
            after == before ||
            (before != [] && after == before[1..] && m.role == User &&
             key == env.messageDisplayKey(env.userMessageText(m)) &&
             EndsWith(RowsOf(env, st, index, m, checkpoints, todoArgs, results), before[0].messages))
  {
  }

  predicate EndsWith(rows: seq<Row>, tail: seq<Row>) {
    |tail| <= |rows| && rows[|rows| - |tail|..] == tail
  }
}
