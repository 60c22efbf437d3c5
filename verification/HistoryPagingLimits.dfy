/** Two transcripts on which pages and full conversion part, one for each promise paging relies on. */
module HistoryPagingLimits {
  import opened HistoryModel
  import opened HistoryConvert
  import opened HistorySource
  import opened HistoryTodo
  import opened HistoryPaging
  import opened HistoryPagingTheorem

  /** Foreign functions that keep every text as it is; "steer" is the one steer. */
  function PlainEnv(): Env {
    Env(s => if s == "steer" then Some("go on") else None, s => true, (m: Message) => m.content, s => false, s => s, s => s, s => s,
        s => s, s => s, s => false, s => s, "", (name, args) => "", (name, args, output) => output)
  }

  function PlainView(planner: seq<PlannerTurn>): View {
    View(PlainEnv(), TodoEnv(s => [], t => t, s => s, (s, t) => None, (t, i) => None, t => None), planner, map[])
  }

  function PlainMessage(role: Role, content: string, calls: seq<ToolCall>, answers: string): Message {
    Message(role, content, "", false, "", 0, calls, answers, "", None, [], false)
  }

  /** One call answered twice. */
  const REUSED_ID: seq<Message> := [
    PlainMessage(Assistant, "", [ToolCall("c", "read", "", "")], ""),
    PlainMessage(Tool, "x", [], "c"),
    PlainMessage(Tool, "y", [], "c")]

  /** Cut after the call, the page shows the first result; the full conversion shows the last. */
  lemma ReusedIDChangesRow()
    ensures !OneResultAfter(REUSED_ID, 0, "c")
    ensures PagedLookup(REUSED_ID, 0, 1, "c") == 1 && FullLookup(REUSED_ID, "c") == 2
    ensures ResultContent(PageResults(REUSED_ID, 0, 1), "c") == "x"
    ensures ResultContent(ToolResultsIn(REUSED_ID, 0, 3), "c") == "y"
    ensures PageRowsOf(PlainView([]), REUSED_ID, 0, 1)[0] != FullRowsOf(PlainView([]), REUSED_ID)[0]
  {
    var msgs := REUSED_ID;
    assert CallsTool(msgs[0..1][0], "c") by {
      assert msgs[0].toolCalls[0].id == "c";
    }
    assert FirstResult(msgs, 2, 3, "c") == 2 && FirstResult(msgs, 1, 3, "c") == 1;
    assert LastResult(msgs, 0, 1, "c") == -1 && LastResult(msgs, 0, 3, "c") == 2;
    PageResultsAreLookups(msgs, 0, 1, "c");
    ToolResultsAreLast(msgs, 0, 3, "c");
    ShownSummary(PlainView([]), StateAt(PlainView([]), msgs, 0), msgs[0],
                 TodoArgs(PlainEnv(), PlainView([]).tenv, msgs), ToolResultsIn(msgs, 0, 3));
    assert msgs[0..0] == [] && msgs[..0] == [];
    ShownSummary(PlainView([]), PrimedState(PlainView([]), msgs, 0), msgs[0], PageTodo(PlainView([]), msgs, 0, 1), PageResults(msgs, 0, 1));
  }

  /** The row of the reused call shows the content its lookup found. */
  lemma ShownSummary(view: View, st: ConvState, m: Message, todoArgs: map<string, string>, results: map<string, Message>)
    requires view.env == PlainEnv() && st.suppressCanonicalTurn == false
    requires m == PlainMessage(Assistant, "", [ToolCall("c", "read", "", "")], "")
    ensures var rows := RowsOf(view.env, st, 0, m, view.checkpoints, todoArgs, results);
            |rows| == 1 && |rows[0].toolCalls| == 1 && rows[0].toolCalls[0].summary == ResultContent(results, "c")
  {
    assert FateOf(view.env, false, m) == Shown;
    assert AttachedPlanner(view.env, st, m).None?;
    assert ReceiptRows(m.decisionReceipts) == [];
    var calls := CallRows(view.env, m, todoArgs, results);
    assert |calls| == 1 && calls[0].summary == ResultContent(results, "c");
  }

  /** A steer whose text has a planner display recorded: replaying it takes the display, converting it does not. */
  lemma KeyedSteerBreaksLockStep()
    ensures var view := PlainView([PlannerTurn("steer", [NoticeRow("plan", "", "", None)])]);
            var st := InitState(view.env, view.planner);
            var m := PlainMessage(User, "steer", [], "");
            SteerTakesPlanner(view.env, st, m) &&
            ConsumeState(view.env, st, m) != ConvertState(view.env, st, m)
  {
    var turn := PlannerTurn("steer", [NoticeRow("plan", "", "", None)]);
    var view := PlainView([turn]);
    var st := InitState(view.env, view.planner);
    var m := PlainMessage(User, "steer", [], "");
    assert [turn][..0] == [] && view.env.trimSpace(turn.userHash) == "steer" && |turn.messages| == 1;
    assert TurnsFor(view.env, [], "steer") == [];
    assert PlannerTurnKept(view.env, turn);
    assert TurnsFor(view.env, [turn], "steer") == [turn];
    PlannerQueuesAreTurns(view.env, [turn], "steer");
    assert FateOf(view.env, false, m) == AsSteer("go on");
    LockStep(view.env, st, m);
  }

  /** A steer, whose text has the display of an interrupted turn recorded, and an answer. */
  const KEYED_STEER: seq<Message> := [PlainMessage(User, "steer", [], ""), PlainMessage(Assistant, "done", [], "")]

  const INTERRUPTED: PlannerTurn := PlannerTurn("steer", [NoticeRow("", CODE_CANCELLED_TURN, "info", None)])

  lemma InterruptedIsQueued()
    ensures var view := PlainView([INTERRUPTED]);
            var st := InitState(view.env, view.planner);
            "steer" in st.plannerByUserHash && st.plannerByUserHash["steer"] == [INTERRUPTED] && !st.suppressCanonicalTurn
  {
    var view := PlainView([INTERRUPTED]);
    assert [INTERRUPTED][..0] == [] && view.env.trimSpace(INTERRUPTED.userHash) == "steer" && |INTERRUPTED.messages| == 1;
    assert TurnsFor(view.env, [], "steer") == [];
    assert PlannerTurnKept(view.env, INTERRUPTED);
    assert TurnsFor(view.env, [INTERRUPTED], "steer") == [INTERRUPTED];
    PlannerQueuesAreTurns(view.env, [INTERRUPTED], "steer");
  }

  /** Replaying the steer takes its display and hides what follows; converting it does neither. */
  lemma SteerHidesAnswer()
    ensures var view := PlainView([INTERRUPTED]);
            var st := InitState(view.env, view.planner);
            ConsumeState(view.env, st, KEYED_STEER[0]).suppressCanonicalTurn && !ConvertState(view.env, st, KEYED_STEER[0]).suppressCanonicalTurn
  {
    var view := PlainView([INTERRUPTED]);
    var st := InitState(view.env, view.planner);
    InterruptedIsQueued();
    var m := KEYED_STEER[0];
    assert FateOf(view.env, false, m) == AsSteer("go on");
    assert INTERRUPTED.messages[0].role == "notice" && INTERRUPTED.messages[0].code == CODE_CANCELLED_TURN;
    assert SuppressesCanonical(INTERRUPTED);
    assert AttachedPlanner(view.env, Unsuppressed(st), m) == Some(INTERRUPTED);
  }

  /** A page that starts after the steer shows no row for the answer; the full conversion shows it. */
  lemma KeyedSteerHidesRow()
    ensures var view := PlainView([INTERRUPTED]);
            PageRowsOf(view, KEYED_STEER, 1, 2)[1] == [] && FullRowsOf(view, KEYED_STEER)[1] != []
  {
    var view := PlainView([INTERRUPTED]);
    var st := InitState(view.env, view.planner);
    var msgs := KEYED_STEER;
    SteerHidesAnswer();
    InterruptedIsQueued();
    assert msgs[..1] == [msgs[0]] && [msgs[0]][..0] == [] && msgs[1..1] == [];
    assert Replayed(view.env, st, msgs[..1]) == ConsumeState(view.env, st, msgs[0]);
    assert Converted(view.env, st, msgs[..1]) == ConvertState(view.env, st, msgs[0]);
    AnswerRows(view, ConsumeState(view.env, st, msgs[0]), PageTodo(view, msgs, 1, 2), PageResults(msgs, 1, 2));
    AnswerRows(view, ConvertState(view.env, st, msgs[0]), TodoArgs(view.env, view.tenv, msgs), ToolResultsIn(msgs, 0, 2));
  }

  /** The two messages as a session on disk, whose first message is too heavy for one window. */
  function HeavySteer(): Source {
    Source(KEYED_STEER, [0, 0], 0, 0, false, "", (lo, hi) => false,
           Some((lo: nat, hi: nat) => if lo == 0 then HISTORY_SLICE_COLD_WINDOW_BYTES + 1 else 0))
  }

  /** The page served for it starts at the answer and is empty; the full conversion has an entry there. */
  lemma KeyedSteerChangesPage(req: Request)
    requires req.turns > 0
    ensures var view, src := PlainView([INTERRUPTED]), HeavySteer();
            src.Valid() && PageAt(view, src, req, 2) == ([], 1) && FullEntries(view, src, 1, 2) != []
  {
    var view, src := PlainView([INTERRUPTED]), HeavySteer();
    KeyedSteerHidesRow();
    assert CandidateLo(src, req.turns, 2) == 1 by {
      assert Shrunk(src, 1, 2) == 1;
    }
    var rows, full := PageRowsOf(view, src.msgs, 1, 2), FullRowsOf(view, src.msgs);
    assert rows[0] == [];
    hide PageRowsOf, FullRowsOf;
    assert GroupsRange(rows, src.turns, 0) == [] && GroupsRange(rows, src.turns, 1) == [] && GroupsRange(rows, src.turns, 2) == [];
    assert EntriesRange(full, src.turns, 1, 1) == [];
    assert |EntriesRange(full, src.turns, 1, 2)| == |full[1]|;
  }

  lemma AnswerRows(view: View, st: ConvState, todoArgs: map<string, string>, results: map<string, Message>)
    requires view.env == PlainEnv()
    ensures RowsOf(view.env, st, 1, KEYED_STEER[1], view.checkpoints, todoArgs, results) == [] <==> st.suppressCanonicalTurn
  {
    assert !KEYED_STEER[1].localOnly;
  }
}
