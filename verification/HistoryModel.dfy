/** Transcript messages, display rows and the conversion of one message.

The conversion threads two pieces of state from message to message: a FIFO queue of planner
displays per user text, and a flag that hides the canonical turn a planner interrupt replaced.
`FateOf` names the way a message goes through the converter; `RowsOf` and `ConvertState` give its
rows and the state after it, and are what the imperative converter is proved against.
*/
module HistoryModel {
  import Utf8

  datatype Option<+T> = None | Some(value: T)

  datatype Result<+T> = Ok(value: T) | Err

  datatype Role = System | User | Assistant | Tool | OtherRole(name: string)

  function RoleName(r: Role): string {
    match r
    case System => "system"
    case User => "user"
    case Assistant => "assistant"
    case Tool => "tool"
    case OtherRole(name) => name
  }

  datatype Receipt = Receipt(id: string, decision: string)

  datatype ToolCall = ToolCall(id: string, name: string, arguments: string, diff: string)

  /** One provider message of the transcript. */
  datatype Message = Message(
    role: Role,
    content: string,
    rawContent: string,
    localOnly: bool,
    reasoning: string,
    createdAt: int,
    toolCalls: seq<ToolCall>,
    toolCallID: string,
    name: string,
    decisionReceipt: Option<Receipt>,
    decisionReceipts: seq<Option<Receipt>>,
    interruptedTurn: bool)

  datatype RowCall = RowCall(
    id: string, name: string, subject: string, summary: string, diff: string,
    arguments: string, argumentsArchived: bool)

  /** One display row. */
  datatype Row = Row(
    role: string,
    content: string,
    code: string,
    level: string,
    detail: string,
    summary: string,
    archive: string,
    checkpointTurn: Option<int>,
    createdAt: int,
    reasoning: string,
    submitText: string,
    toolCalls: seq<RowCall>,
    toolCallID: string,
    toolName: string,
    toolResultArchived: bool,
    toolResultError: string,
    decisionReceipt: Option<Receipt>)

  function NoticeRow(content: string, code: string, level: string, receipt: Option<Receipt>): Row {
    Row("notice", content, code, level, "", "", "", None, 0, "", "", [], "", "", false, "", receipt)
  }

  datatype PlannerTurn = PlannerTurn(userHash: string, messages: seq<Row>)

  const CODE_DECISION_RECEIPT := "decision_receipt"
  const CODE_UNAPPLIED_STEER := "unapplied_steer"
  const CODE_CANCELLED_TURN := "cancelled_turn_display"
  /** The bytes of the arrow and the space before a steer's text. */
  const STEER_ARROW := "\U{E2}\U{86}\U{AA} "
  const HISTORY_TOOL_PREVIEW_LIMIT := 2000

  /** The functions of other packages the converter calls, left uninterpreted. */
  datatype Env = Env(
    steerText: string -> Option<string>,
    isUserAuthoredTurn: string -> bool,
    userMessageText: Message -> string,
    isSynthetic: string -> bool,
    resolveUserContent: string -> string,
    messageDisplayKey: string -> string,
    trimSpace: string -> string,
    replayUserContent: string -> string,
    collapsePaste: string -> string,
    containsExecution: string -> bool,
    unappliedSteerNotice: string -> string,
    cancelledText: string,                    // the fixed text of the interrupted-turn notice
    toolSubject: (string, string) -> string,
    toolSummary: (string, string, string) -> string)

  datatype ConvState = ConvState(plannerByUserHash: map<string, seq<PlannerTurn>>, suppressCanonicalTurn: bool)

  // ---- Pieces of the conversion -----------------------------------------------

  function UserDisplayContent(env: Env, m: Message): string {
    var resolved := env.trimSpace(env.resolveUserContent(m.content));
    var fallback := env.trimSpace(env.replayUserContent(m.content));
    if resolved != "" && resolved != fallback then resolved
    else env.collapsePaste(if m.rawContent == "" then fallback else env.userMessageText(m))
  }

  function ToolResultFailed(env: Env, content: string): bool {
    var c := env.trimSpace(content);
    "error:" <= c || "blocked:" <= c || "Error:" <= c || "[error" <= c
  }

  function ClipToolPreview(env: Env, s: string): string {
    if |s| <= HISTORY_TOOL_PREVIEW_LIMIT then s
    else env.trimSpace(Utf8.Clip(s, HISTORY_TOOL_PREVIEW_LIMIT)) + "\n..."
  }

  /** What a tool result shows: the text, whether the text was archived, and the error preview. */
  function ToolResultContent(env: Env, content: string, canArchive: bool): (string, bool, string) {
    if content == "" then ("", false, "")
    else if !canArchive then (content, false, if ToolResultFailed(env, content) then content else "")
    else if ToolResultFailed(env, content) then
      var display := ClipToolPreview(env, env.trimSpace(content));
      (display, display != content, display)
    else ("", true, "")
  }

  function ResultContent(results: map<string, Message>, id: string): string {
    if id in results then results[id].content else ""
  }

  /** The arguments a call shows: a todo_write shows the replayed list when there is one. */
  function CallArguments(tc: ToolCall, todoArgs: map<string, string>): string {
    if tc.name == "todo_write" && tc.id in todoArgs then todoArgs[tc.id] else tc.arguments
  }

  function CallRow(env: Env, tc: ToolCall, args: string, resultContent: string): RowCall {
    var inl := tc.name == "todo_write" || tc.id == "";
    RowCall(tc.id, tc.name, env.toolSubject(tc.name, args), env.toolSummary(tc.name, args, resultContent), tc.diff,
            if inl then args else "", !inl && args != "")
  }

  function CallRows(env: Env, m: Message, todoArgs: map<string, string>, results: map<string, Message>): seq<RowCall> {
    seq(|m.toolCalls|, i requires 0 <= i < |m.toolCalls| =>
      var tc := m.toolCalls[i];
      CallRow(env, tc, CallArguments(tc, todoArgs), ResultContent(results, tc.id)))
  }

  function ReceiptRow(r: Receipt): Row {
    NoticeRow("", CODE_DECISION_RECEIPT, "info", Some(r))
  }

  function ReceiptRows(rs: seq<Option<Receipt>>): seq<Row> {
    if rs == [] then []
    else (if rs[0].Some? then [ReceiptRow(rs[0].value)] else []) + ReceiptRows(rs[1..])
  }

  function CancelledRow(env: Env): Row {
    NoticeRow(env.cancelledText, CODE_CANCELLED_TURN, "info", None)
  }

  function SubmitText(env: Env, m: Message, content: string): string {
    if m.role != User || content == m.content then ""
    else
      var replay := env.replayUserContent(m.content);
      if replay == content then ""
      else if env.containsExecution(m.content) then (if "/" <= env.trimSpace(replay) then replay else "")
      else replay
  }

  /** The row of the message itself, for a message the converter shows. */
  function MainRow(env: Env, index: int, m: Message, checkpoints: map<int, int>,
                   todoArgs: map<string, string>, results: map<string, Message>): Row {
    var speaks := m.role == Assistant || m.localOnly;
    var isUser, isResult := m.role == User, m.role == Tool && !m.localOnly;
    var content := if isUser then UserDisplayContent(env, m) else m.content;
    var result := if isResult then ToolResultContent(env, m.content, m.toolCallID != "") else (content, false, "");
    Row(if m.localOnly then "assistant" else RoleName(m.role), result.0, "", "", "", "", "",
        if isUser && index in checkpoints then Some(checkpoints[index]) else None,
        m.createdAt,
        if speaks then m.reasoning else "",
        SubmitText(env, m, content),
        if speaks then CallRows(env, m, todoArgs, results) else [],
        if isResult then m.toolCallID else "",
        if isResult then m.name else "",
        result.1, result.2, None)
  }

  /** A local-only message shows its own row only when there is something to read in it. */
  predicate MainRowShown(env: Env, m: Message, row: Row) {
    !m.localOnly || env.trimSpace(row.content) != "" || env.trimSpace(row.reasoning) != "" || row.toolCalls != []
  }

  /** The rows of a shown message: itself, its receipts, and the notice of an interrupted turn. */
  function OwnRows(env: Env, index: int, m: Message, checkpoints: map<int, int>,
                   todoArgs: map<string, string>, results: map<string, Message>): seq<Row> {
    var main := MainRow(env, index, m, checkpoints, todoArgs, results);
    (if MainRowShown(env, m, main) then [main] else [])
    + ReceiptRows(m.decisionReceipts)
    + (if m.localOnly && m.interruptedTurn then [CancelledRow(env)] else [])
  }

  predicate SuppressesCanonical(t: PlannerTurn) {
    exists i | 0 <= i < |t.messages| :: t.messages[i].role == "notice" && t.messages[i].code == CODE_CANCELLED_TURN
  }

  // ---- The way of a message through the converter -------------------------------

  datatype Fate = AsReceipt(receipt: Receipt) | AsUnappliedSteer(text: string) | Suppressed | AsSteer(text: string) | Synthetic | Shown

  /** A message the suppressed canonical turn still hides. */
  predicate StaysHidden(env: Env, m: Message) {
    m.role != User || !env.isUserAuthoredTurn(env.userMessageText(m))
  }

  function FateOf(env: Env, suppressed: bool, m: Message): Fate {
    var steer := env.steerText(env.userMessageText(m));
    if m.decisionReceipt.Some? then AsReceipt(m.decisionReceipt.value)
    else if m.localOnly && steer.Some? then AsUnappliedSteer(steer.value)
    else if suppressed && StaysHidden(env, m) then Suppressed
    else if m.role == User && steer.Some? then AsSteer(steer.value)
    else if m.role == User && env.isSynthetic(UserDisplayContent(env, m)) then Synthetic
    else Shown
  }

  /** Planner displays attached to a shown user message: the head of the queue for its text. */
  function AttachedPlanner(env: Env, st: ConvState, m: Message): Option<PlannerTurn> {
    var key := env.messageDisplayKey(env.userMessageText(m));
    if m.role == User && key in st.plannerByUserHash && st.plannerByUserHash[key] != []
    then Some(st.plannerByUserHash[key][0]) else None
  }

  function RowsOf(env: Env, st: ConvState, index: int, m: Message, checkpoints: map<int, int>,
                  todoArgs: map<string, string>, results: map<string, Message>): seq<Row> {
    match FateOf(env, st.suppressCanonicalTurn, m)
    case AsReceipt(r) => [ReceiptRow(r)]
    case AsUnappliedSteer(text) =>
      [NoticeRow(env.unappliedSteerNotice(text), CODE_UNAPPLIED_STEER, "warn", None)]
    case Suppressed => []
    case AsSteer(text) => [NoticeRow(STEER_ARROW + text, "", "", None)]
    case Synthetic => []
    case Shown =>
      var planner := AttachedPlanner(env, st, m);
      OwnRows(env, index, m, checkpoints, todoArgs, results) + (if planner.Some? then planner.value.messages else [])
  }

  /** The state with the head of the queue for `m`'s text taken. */
  function TakePlanner(env: Env, st: ConvState, m: Message): ConvState {
    var planner := AttachedPlanner(env, st, m);
    if planner.None? then st
    else
      var key := env.messageDisplayKey(env.userMessageText(m));
      ConvState(st.plannerByUserHash[key := st.plannerByUserHash[key][1..]], SuppressesCanonical(planner.value))
  }

  /** A message that reaches the end of the suppressed turn lifts the suppression. */
  function Unsuppressed(st: ConvState): ConvState {
    st.(suppressCanonicalTurn := false)
  }

  function ConvertState(env: Env, st: ConvState, m: Message): ConvState {
    match FateOf(env, st.suppressCanonicalTurn, m)
    case AsReceipt(_) => st
    case AsUnappliedSteer(_) => st
    case Suppressed => st
    case AsSteer(_) => Unsuppressed(st)
    case Synthetic => Unsuppressed(st)
    case Shown => TakePlanner(env, Unsuppressed(st), m)
  }

  predicate IsVisibleHistoryUser(env: Env, m: Message) {
    m.role == User && env.steerText(env.userMessageText(m)).None? && !env.isSynthetic(UserDisplayContent(env, m))
  }

  // ---- Facts about single messages ------------------------------------------------

  /** Rows of a message depend on the lookups only through the contents found for its own calls. */
  lemma RowsDependOnOwnCalls(env: Env, st: ConvState, index: int, m: Message, checkpoints: map<int, int>,
                             todoA: map<string, string>, todoB: map<string, string>,
                             resultsA: map<string, Message>, resultsB: map<string, Message>)
    requires forall i | 0 <= i < |m.toolCalls| ::
               CallArguments(m.toolCalls[i], todoA) == CallArguments(m.toolCalls[i], todoB) &&
               ResultContent(resultsA, m.toolCalls[i].id) == ResultContent(resultsB, m.toolCalls[i].id)
    ensures RowsOf(env, st, index, m, checkpoints, todoA, resultsA) == RowsOf(env, st, index, m, checkpoints, todoB, resultsB)
  {
    hide *;
    CallsDependOnOwn(env, m, todoA, todoB, resultsA, resultsB);
    MainRowDepends(env, index, m, checkpoints, todoA, todoB, resultsA, resultsB);
    RowsDepend(env, st, index, m, checkpoints, todoA, todoB, resultsA, resultsB);
  }

  lemma CallsDependOnOwn(env: Env, m: Message, todoA: map<string, string>, todoB: map<string, string>,
                         resultsA: map<string, Message>, resultsB: map<string, Message>)
    requires forall i | 0 <= i < |m.toolCalls| ::
               CallArguments(m.toolCalls[i], todoA) == CallArguments(m.toolCalls[i], todoB) &&
               ResultContent(resultsA, m.toolCalls[i].id) == ResultContent(resultsB, m.toolCalls[i].id)
    ensures CallRows(env, m, todoA, resultsA) == CallRows(env, m, todoB, resultsB)
  {
    hide CallRow, CallArguments, ResultContent;
  }

  lemma MainRowDepends(env: Env, index: int, m: Message, checkpoints: map<int, int>,
                       todoA: map<string, string>, todoB: map<string, string>,
                       resultsA: map<string, Message>, resultsB: map<string, Message>)
    requires CallRows(env, m, todoA, resultsA) == CallRows(env, m, todoB, resultsB)
    ensures MainRow(env, index, m, checkpoints, todoA, resultsA) == MainRow(env, index, m, checkpoints, todoB, resultsB)
  {
    hide CallRows, UserDisplayContent, ToolResultContent, SubmitText, RoleName;
  }

  lemma RowsDepend(env: Env, st: ConvState, index: int, m: Message, checkpoints: map<int, int>,
                   todoA: map<string, string>, todoB: map<string, string>,
                   resultsA: map<string, Message>, resultsB: map<string, Message>)
    requires MainRow(env, index, m, checkpoints, todoA, resultsA) == MainRow(env, index, m, checkpoints, todoB, resultsB)
    ensures RowsOf(env, st, index, m, checkpoints, todoA, resultsA) == RowsOf(env, st, index, m, checkpoints, todoB, resultsB)
  {
    hide MainRow, MainRowShown, ReceiptRows, CancelledRow, AttachedPlanner, FateOf, ReceiptRow, NoticeRow;
  }
}
