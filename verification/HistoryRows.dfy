/** What the converter shows, told from the message alone.

These predicates say what a reader of the history sees of a message and of each kind of message in particular. They
share no definition with the conversion; `RowsTold` and `StateTold` connect the two.
*/
module HistoryRows {
  import opened HistoryModel
  import Utf8

  // ---- Kinds of rows ---------------------------------------------------------------

  /** A notice, and nothing but a notice. */
  predicate IsNotice(row: Row, content: string, code: string, level: string, receipt: Option<Receipt>) {
    row.role == "notice" && row.content == content && row.code == code && row.level == level && row.decisionReceipt == receipt &&
    row.detail == "" && row.summary == "" && row.archive == "" && row.reasoning == "" && row.submitText == "" &&
    row.toolCallID == "" && row.toolName == "" && row.toolResultError == "" && !row.toolResultArchived &&
    row.checkpointTurn.None? && row.createdAt == 0 && row.toolCalls == []
  }

  const FAILURE_MARKS := ["error:", "blocked:", "Error:", "[error"]

  /** The trimmed result begins with a mark of failure. */
  predicate Failed(env: Env, content: string) {
    exists k | 0 <= k < |FAILURE_MARKS| :: FAILURE_MARKS[k] <= env.trimSpace(content)
  }

  /** An error preview: the whole text, or its beginning and an ellipsis. */
  predicate Shortens(env: Env, text: string, shown: string) {
    (|text| <= 2000 ==> shown == text) &&
    (|text| > 2000 ==> shown == env.trimSpace(Utf8.Clip(text, 2000)) + "\n...")
  }

  /** A result without a call id shows in full. One with a call id is archived: nothing of it shows, unless it failed;
      then its error shows, and counts as archived if that is not the whole content. */
  predicate ShowsResult(env: Env, content: string, named: bool, row: Row) {
    (content == "" ==> row.content == "" && !row.toolResultArchived && row.toolResultError == "") &&
    (content != "" && !named ==>
       row.content == content && !row.toolResultArchived && row.toolResultError == if Failed(env, content) then content else "") &&
    (content != "" && named && !Failed(env, content) ==>
       row.content == "" && row.toolResultArchived && row.toolResultError == "") &&
    (content != "" && named && Failed(env, content) ==>
       Shortens(env, env.trimSpace(content), row.content) && row.toolResultError == row.content &&
       (row.toolResultArchived <==> row.content != content))
  }

  /** A user message shows its resolved text if that differs from what was replayed, else the replayed or raw text with
      pastes collapsed. */
  predicate ShowsUserText(env: Env, m: Message, shown: string) {
    var resolved, replayed := env.trimSpace(env.resolveUserContent(m.content)), env.trimSpace(env.replayUserContent(m.content));
    (resolved != "" && resolved != replayed ==> shown == resolved) &&
    (resolved == "" || resolved == replayed ==>
       (m.rawContent == "" ==> shown == env.collapsePaste(replayed)) &&
       (m.rawContent != "" ==> shown == env.collapsePaste(env.userMessageText(m))))
  }

  /** The text to submit again, kept where it is not what shows; of a compiled message only a slash command. */
  predicate ShowsSubmitText(env: Env, m: Message, row: Row) {
    var replay := env.replayUserContent(m.content);
    var kept := row.content != m.content && replay != row.content &&
                (env.containsExecution(m.content) ==> "/" <= env.trimSpace(replay));
    (kept ==> row.submitText == replay) && (!kept ==> row.submitText == "")
  }

  /** A call shows its arguments if it writes todos or has no id; otherwise it only tells that it had some. */
  predicate ShowsCall(env: Env, tc: ToolCall, todoArgs: map<string, string>, results: map<string, Message>, call: RowCall) {
    var args := if tc.name == "todo_write" && tc.id in todoArgs then todoArgs[tc.id] else tc.arguments;
    var result := if tc.id in results then results[tc.id].content else "";
    call.id == tc.id && call.name == tc.name && call.diff == tc.diff &&
    call.subject == env.toolSubject(tc.name, args) && call.summary == env.toolSummary(tc.name, args, result) &&
    (tc.name == "todo_write" || tc.id == "" ==> call.arguments == args && !call.argumentsArchived) &&
    (tc.name != "todo_write" && tc.id != "" ==> call.arguments == "" && (call.argumentsArchived <==> args != ""))
  }

  predicate ShowsCalls(env: Env, m: Message, todoArgs: map<string, string>, results: map<string, Message>, calls: seq<RowCall>) {
    |calls| == |m.toolCalls| && forall i | 0 <= i < |calls| :: ShowsCall(env, m.toolCalls[i], todoArgs, results, calls[i])
  }

  predicate ShowsRole(m: Message, role: string) {
    if m.localOnly then role == "assistant"
    else match m.role
      case System => role == "system"
      case User => role == "user"
      case Assistant => role == "assistant"
      case Tool => role == "tool"
      case OtherRole(name) => role == name
  }

  /** What every row of a message has, and what only its role gives it. */
  predicate ShowsOwn(env: Env, index: int, m: Message, checkpoints: map<int, int>,
                     todoArgs: map<string, string>, results: map<string, Message>, row: Row) {
    ShowsRole(m, row.role) && row.createdAt == m.createdAt &&
    row.code == "" && row.level == "" && row.detail == "" && row.summary == "" && row.archive == "" && row.decisionReceipt.None? &&
    (if m.role == Assistant || m.localOnly
     then row.reasoning == m.reasoning && ShowsCalls(env, m, todoArgs, results, row.toolCalls)
     else row.reasoning == "" && row.toolCalls == []) &&
    (if m.role == User
     then ShowsUserText(env, m, row.content) && ShowsSubmitText(env, m, row) &&
          row.checkpointTurn == (if index in checkpoints then Some(checkpoints[index]) else None)
     else row.submitText == "" && row.checkpointTurn.None?) &&
    (if m.role == Tool && !m.localOnly
     then row.toolCallID == m.toolCallID && row.toolName == m.name && ShowsResult(env, m.content, m.toolCallID != "", row)
     else row.toolCallID == "" && row.toolName == "" && !row.toolResultArchived && row.toolResultError == "" &&
          (m.role != User ==> row.content == m.content))
  }

  // ---- The rows of a message ---------------------------------------------------------

  /** The receipts that are there, in order. */
  function Given(rs: seq<Option<Receipt>>): seq<Receipt> {
    if rs == [] then []
    else Given(rs[..|rs| - 1]) + (if rs[|rs| - 1].Some? then [rs[|rs| - 1].value] else [])
  }

  predicate ReceiptNotices(rs: seq<Receipt>, rows: seq<Row>) {
    |rows| == |rs| && forall k | 0 <= k < |rs| :: IsNotice(rows[k], "", "decision_receipt", "info", Some(rs[k]))
  }

  /** The message's own row; a local-only message has one only if there is something to read in it. */
  ghost predicate OwnPart(env: Env, index: int, m: Message, checkpoints: map<int, int>,
                          todoArgs: map<string, string>, results: map<string, Message>, rows: seq<Row>) {
    exists row :: ShowsOwn(env, index, m, checkpoints, todoArgs, results, row) &&
      if !m.localOnly || env.trimSpace(row.content) != "" || env.trimSpace(row.reasoning) != "" || row.toolCalls != []
      then rows == [row] else rows == []
  }

  predicate EndPart(env: Env, m: Message, rows: seq<Row>) {
    if m.localOnly && m.interruptedTurn then |rows| == 1 && IsNotice(rows[0], env.cancelledText, "cancelled_turn_display", "info", None)
    else rows == []
  }

  /** The displays a planner recorded for the text of a user message, the next of them first. */
  function Displays(env: Env, st: ConvState, m: Message): seq<PlannerTurn> {
    var key := env.messageDisplayKey(env.userMessageText(m));
    if m.role == User && key in st.plannerByUserHash then st.plannerByUserHash[key] else []
  }

  /** A message that is none of the special ones: its own row, its receipts, the notice of its interruption, and the next
      planner display of its text. */
  ghost predicate ShowsAll(env: Env, st: ConvState, index: int, m: Message, checkpoints: map<int, int>,
                           todoArgs: map<string, string>, results: map<string, Message>, out: seq<Row>) {
    exists own, receipts, end :: OwnPart(env, index, m, checkpoints, todoArgs, results, own) &&
      ReceiptNotices(Given(m.decisionReceipts), receipts) && EndPart(env, m, end) &&
      out == own + receipts + end + (if Displays(env, st, m) == [] then [] else Displays(env, st, m)[0].messages)
  }

  /** The text a user message shows is one the program wrote itself. */
  ghost predicate Synthesized(env: Env, m: Message) {
    m.role == User && exists shown :: ShowsUserText(env, m, shown) && env.isSynthetic(shown)
  }

  /** A planner's interruption hides all up to the next message the user wrote. */
  predicate Hidden(env: Env, st: ConvState, m: Message) {
    st.suppressCanonicalTurn && !(m.role == User && env.isUserAuthoredTurn(env.userMessageText(m)))
  }

  /** What a message shows, by the first of the cases it falls under. */
  ghost predicate Shows(env: Env, st: ConvState, index: int, m: Message, checkpoints: map<int, int>,
                        todoArgs: map<string, string>, results: map<string, Message>, out: seq<Row>) {
    var steer := env.steerText(env.userMessageText(m));
    if m.decisionReceipt.Some? then ReceiptNotices([m.decisionReceipt.value], out)
    else if m.localOnly && steer.Some? then
      |out| == 1 && IsNotice(out[0], env.unappliedSteerNotice(steer.value), "unapplied_steer", "warn", None)
    else if Hidden(env, st, m) then out == []
    else if m.role == User && steer.Some? then |out| == 1 && IsNotice(out[0], STEER_ARROW + steer.value, "", "", None)
    else if Synthesized(env, m) then out == []
    else ShowsAll(env, st, index, m, checkpoints, todoArgs, results, out)
  }

  predicate IsCancelledNotice(row: Row) {
    row.role == "notice" && row.code == "cancelled_turn_display"
  }

  /** What is left to show after a message: a planner display that was shown is gone from its queue, and hides what
      follows if it tells of an interruption. */
  ghost predicate Leaves(env: Env, st: ConvState, m: Message, after: ConvState) {
    var steer := env.steerText(env.userMessageText(m));
    var queue := Displays(env, st, m);
    if m.decisionReceipt.Some? || (m.localOnly && steer.Some?) || Hidden(env, st, m) then after == st
    else if (m.role == User && steer.Some?) || Synthesized(env, m) || queue == [] then after == ConvState(st.plannerByUserHash, false)
    else
      after.plannerByUserHash.Keys == st.plannerByUserHash.Keys &&
      (forall k | k in st.plannerByUserHash ::
         after.plannerByUserHash[k] == if k == env.messageDisplayKey(env.userMessageText(m)) then queue[1..] else st.plannerByUserHash[k]) &&
      (after.suppressCanonicalTurn <==> exists i | 0 <= i < |queue[0].messages| :: IsCancelledNotice(queue[0].messages[i]))
  }

  // ---- The conversion does so ---------------------------------------------------------

  lemma FailedTold(env: Env, content: string)
    ensures ToolResultFailed(env, content) <==> Failed(env, content)
  {
    assert FAILURE_MARKS[0] == "error:" && FAILURE_MARKS[1] == "blocked:" && FAILURE_MARKS[2] == "Error:" && FAILURE_MARKS[3] == "[error";
  }

  lemma ResultTold(env: Env, content: string, named: bool, row: Row)
    requires (row.content, row.toolResultArchived, row.toolResultError) == ToolResultContent(env, content, named)
    ensures ShowsResult(env, content, named, row)
  {
    hide ToolResultFailed, Failed;
    FailedTold(env, content);
  }

  lemma UserTextTold(env: Env, m: Message, shown: string)
    ensures ShowsUserText(env, m, shown) <==> shown == UserDisplayContent(env, m)
  {
  }

  lemma CallsTold(env: Env, m: Message, todoArgs: map<string, string>, results: map<string, Message>)
    ensures ShowsCalls(env, m, todoArgs, results, CallRows(env, m, todoArgs, results))
  {
  }

  lemma OwnTold(env: Env, index: int, m: Message, checkpoints: map<int, int>, todoArgs: map<string, string>, results: map<string, Message>)
    ensures ShowsOwn(env, index, m, checkpoints, todoArgs, results, MainRow(env, index, m, checkpoints, todoArgs, results))
  {
    var row := MainRow(env, index, m, checkpoints, todoArgs, results);
    hide UserDisplayContent, ToolResultContent, CallRows, ShowsUserText, ShowsResult, ShowsCalls;
    UserTextTold(env, m, UserDisplayContent(env, m));
    CallsTold(env, m, todoArgs, results);
    if m.role == Tool && !m.localOnly {
      ResultTold(env, m.content, m.toolCallID != "", row);
    }
  }

  lemma {:induction false} ReceiptsTold(rs: seq<Option<Receipt>>)
    ensures ReceiptNotices(Given(rs), ReceiptRows(rs))
  {
    if rs != [] {
      var n := |rs| - 1;
      ReceiptsTold(rs[..n]);
      ReceiptsAppend(rs[..n], rs[n]);
      assert rs == rs[..n] + [rs[n]];
    }
  }

  lemma {:induction false} ReceiptsAppend(rs: seq<Option<Receipt>>, r: Option<Receipt>)
    ensures ReceiptRows(rs + [r]) == ReceiptRows(rs) + (if r.Some? then [ReceiptRow(r.value)] else [])
  {
    if rs == [] {
      assert rs + [r] == [r];
    } else {
      ReceiptsAppend(rs[1..], r);
      assert (rs + [r])[1..] == rs[1..] + [r];
    }
  }

  lemma OwnRowsTold(env: Env, st: ConvState, index: int, m: Message, checkpoints: map<int, int>,
                    todoArgs: map<string, string>, results: map<string, Message>)
    ensures var queue := Displays(env, st, m);
            ShowsAll(env, st, index, m, checkpoints, todoArgs, results,
                     OwnRows(env, index, m, checkpoints, todoArgs, results) + (if queue == [] then [] else queue[0].messages))
  {
    hide MainRow, ShowsOwn, ReceiptRows, Given, ReceiptNotices, Displays;
    var row := MainRow(env, index, m, checkpoints, todoArgs, results);
    OwnTold(env, index, m, checkpoints, todoArgs, results);
    ReceiptsTold(m.decisionReceipts);
    var own := if MainRowShown(env, m, row) then [row] else [];
    var end := if m.localOnly && m.interruptedTurn then [CancelledRow(env)] else [];
    assert OwnPart(env, index, m, checkpoints, todoArgs, results, own);
    assert EndPart(env, m, end);
  }

  /** The messages counted as turns are the user's that are neither steers nor written by the program. */
  lemma VisibleTold(env: Env, m: Message)
    ensures IsVisibleHistoryUser(env, m) <==> m.role == User && env.steerText(env.userMessageText(m)).None? && !Synthesized(env, m)
  {
    hide ShowsUserText, UserDisplayContent;
    UserTextTold(env, m, UserDisplayContent(env, m));
    forall shown | ShowsUserText(env, m, shown) ensures shown == UserDisplayContent(env, m) {
      UserTextTold(env, m, shown);
    }
  }

  /** A provider message counts as a turn if and only if the first row it shows is the user's, unless a planner's
      interruption hides it. */
  lemma TurnsAreUserRows(env: Env, st: ConvState, index: int, m: Message, checkpoints: map<int, int>,
                         todoArgs: map<string, string>, results: map<string, Message>, out: seq<Row>)
    requires Shows(env, st, index, m, checkpoints, todoArgs, results, out)
    requires m.decisionReceipt.None? && !m.localOnly && m.role == User && !Hidden(env, st, m)
    ensures IsVisibleHistoryUser(env, m) <==> out != [] && out[0].role == "user"
  {
    VisibleTold(env, m);
    hide ShowsUserText, IsVisibleHistoryUser, ShowsSubmitText, ShowsResult, ShowsCalls, Synthesized, ReceiptNotices, Given;
    assert "notice" != "user";
  }

  /** The rows of the conversion are what the message shows. */
  lemma RowsTold(env: Env, st: ConvState, index: int, m: Message, checkpoints: map<int, int>,
                 todoArgs: map<string, string>, results: map<string, Message>)
    ensures Shows(env, st, index, m, checkpoints, todoArgs, results, RowsOf(env, st, index, m, checkpoints, todoArgs, results))
  {
    hide OwnRows, ShowsAll, ShowsUserText, UserDisplayContent;
    UserTextTold(env, m, UserDisplayContent(env, m));
    forall shown | ShowsUserText(env, m, shown) ensures shown == UserDisplayContent(env, m) {
      UserTextTold(env, m, shown);
    }
    OwnRowsTold(env, st, index, m, checkpoints, todoArgs, results);
  }

  /** The state of the conversion is what is left. */
  lemma StateTold(env: Env, st: ConvState, m: Message)
    ensures Leaves(env, st, m, ConvertState(env, st, m))
  {
    hide ShowsUserText, UserDisplayContent;
    UserTextTold(env, m, UserDisplayContent(env, m));
    forall shown | ShowsUserText(env, m, shown) ensures shown == UserDisplayContent(env, m) {
      UserTextTold(env, m, shown);
    }
  }
}
