/** Page entries with their previews and references, and the budget rule that decides how many fit. */
module HistoryEntries {
  import opened HistoryModel
  import Utf8

  const HISTORY_INLINE_REF_THRESHOLD: nat := 65536
  const HISTORY_FIELD_PREVIEW_BYTES: nat := 4096

  datatype Field = ContentField | ReasoningField | SubmitTextField | DetailField | CodeField | SummaryField | ArchiveField
    | ToolResultErrorField | ToolArgumentsField | ToolSubjectField | ToolSummaryField | ToolDiffField | OtherField(name: string)
  {
    predicate OfCall() {
      ToolArgumentsField? || ToolSubjectField? || ToolSummaryField? || ToolDiffField?
    }
  }

  /** Marks a field replaced by a preview; the full value stays retrievable. */
  datatype Ref = Ref(field: Field, toolCallID: string, size: nat)

  datatype Entry = Entry(order: nat, sub: nat, turn: nat, message: Row, refs: seq<Ref>)

  function Preview(value: string): string {
    if |value| <= HISTORY_INLINE_REF_THRESHOLD then value else Utf8.Clip(value, HISTORY_FIELD_PREVIEW_BYTES)
  }

  /** One field a preview may replace, with its full value. */
  datatype FieldAt = FieldAt(field: Field, toolCallID: string, value: string)

  function CallFields(c: RowCall): seq<FieldAt> {
    [FieldAt(ToolArgumentsField, c.id, c.arguments), FieldAt(ToolSubjectField, c.id, c.subject),
     FieldAt(ToolSummaryField, c.id, c.summary), FieldAt(ToolDiffField, c.id, c.diff)]
  }

  function AllCallFields(calls: seq<RowCall>): seq<FieldAt> {
    if calls == [] then [] else CallFields(calls[0]) + AllCallFields(calls[1..])
  }

  function OwnFields(row: Row): seq<FieldAt> {
    [FieldAt(ContentField, "", row.content), FieldAt(ReasoningField, "", row.reasoning),
     FieldAt(SubmitTextField, "", row.submitText), FieldAt(DetailField, "", row.detail),
     FieldAt(CodeField, "", row.code), FieldAt(SummaryField, "", row.summary),
     FieldAt(ArchiveField, "", row.archive), FieldAt(ToolResultErrorField, "", row.toolResultError)]
  }

  /** The references of a row: its oversized fields, in order. */
  function RefsOf(fields: seq<FieldAt>): seq<Ref> {
    if fields == [] then []
    else
      var f := fields[0];
      (if |f.value| > HISTORY_INLINE_REF_THRESHOLD then [Ref(f.field, f.toolCallID, |f.value|)] else []) + RefsOf(fields[1..])
  }

  function CallPreview(c: RowCall): RowCall {
    c.(arguments := Preview(c.arguments), subject := Preview(c.subject), summary := Preview(c.summary), diff := Preview(c.diff))
  }

  function CallPreviews(calls: seq<RowCall>): seq<RowCall> {
    if calls == [] then [] else [CallPreview(calls[0])] + CallPreviews(calls[1..])
  }

  function RowPreview(row: Row): Row {
    row.(content := Preview(row.content), reasoning := Preview(row.reasoning), submitText := Preview(row.submitText),
         detail := Preview(row.detail), code := Preview(row.code), summary := Preview(row.summary),
         archive := Preview(row.archive), toolResultError := Preview(row.toolResultError),
         toolCalls := CallPreviews(row.toolCalls))
  }

  function RowRefs(row: Row): seq<Ref> {
    RefsOf(Fields(row))
  }

  function NewHistoryEntry(order: nat, sub: nat, turn: nat, row: Row): Entry {
    Entry(order, sub, turn, RowPreview(row), RowRefs(row))
  }

  /** One field of a converted row, by its reference name. */
  function EntryFieldValue(row: Row, field: Field, toolCallID: string): Option<string> {
    match field
    case ContentField => Some(row.content)
    case ReasoningField => Some(row.reasoning)
    case SubmitTextField => Some(row.submitText)
    case DetailField => Some(row.detail)
    case CodeField => Some(row.code)
    case SummaryField => Some(row.summary)
    case ArchiveField => Some(row.archive)
    case ToolResultErrorField => Some(row.toolResultError)
    case OtherField(_) => None
    case _ => CallFieldValue(row.toolCalls, field, toolCallID)
  }

  function CallFieldValue(calls: seq<RowCall>, field: Field, toolCallID: string): Option<string> {
    if calls == [] then None
    else if calls[0].id != toolCallID then CallFieldValue(calls[1..], field, toolCallID)
    else match field
      case ToolArgumentsField => Some(calls[0].arguments)
      case ToolSubjectField => Some(calls[0].subject)
      case ToolSummaryField => Some(calls[0].summary)
      case ToolDiffField => Some(calls[0].diff)
      case _ => None
  }

  predicate DistinctCallIDs(calls: seq<RowCall>) {
    forall i, j | 0 <= i < j < |calls| :: calls[i].id != calls[j].id
  }

  /** The fields a reference may name. */
  function Fields(row: Row): seq<FieldAt> {
    OwnFields(row) + AllCallFields(row.toolCalls)
  }

  function RefTo(f: FieldAt): Ref {
    Ref(f.field, f.toolCallID, |f.value|)
  }

  predicate FirstWithID(calls: seq<RowCall>, i: nat, id: string) {
    i < |calls| && calls[i].id == id && forall h | 0 <= h < i :: calls[h].id != id
  }

  /** The first call with the id of `f` holds the value of `f`. */
  ghost predicate FirstHolds(calls: seq<RowCall>, f: FieldAt) {
    exists i: nat :: FirstWithID(calls, i, f.toolCallID) && f in CallFields(calls[i])
  }

  lemma {:induction false} RefComesFromField(fields: seq<FieldAt>, ref: Ref) returns (f: FieldAt)
    requires ref in RefsOf(fields)
    ensures f in fields && ref == Ref(f.field, f.toolCallID, |f.value|) && |f.value| > HISTORY_INLINE_REF_THRESHOLD
  {
    f := fields[0];
    if !(|f.value| > HISTORY_INLINE_REF_THRESHOLD && ref == Ref(f.field, f.toolCallID, |f.value|)) {
      f := RefComesFromField(fields[1..], ref);
    }
  }

  lemma {:induction false} RefOfField(fields: seq<FieldAt>, f: FieldAt)
    requires f in fields && |f.value| > HISTORY_INLINE_REF_THRESHOLD
    ensures RefTo(f) in RefsOf(fields)
  {
    if f != fields[0] {
      RefOfField(fields[1..], f);
    }
  }

  lemma {:induction false} FieldHasCall(calls: seq<RowCall>, f: FieldAt) returns (i: nat)
    requires f in AllCallFields(calls)
    ensures i < |calls| && f in CallFields(calls[i])
  {
    if f in CallFields(calls[0]) {
      i := 0;
    } else {
      i := FieldHasCall(calls[1..], f);
      i := i + 1;
    }
  }

  /** A field is read from the first call with the id. */
  lemma {:induction false} ReadsFirst(calls: seq<RowCall>, i: nat, f: FieldAt)
    requires FirstWithID(calls, i, f.toolCallID) && f.field.OfCall()
    ensures CallFieldValue(calls, f.field, f.toolCallID).Some?
    ensures CallFieldValue(calls, f.field, f.toolCallID) == Some(f.value) <==> f in CallFields(calls[i])
  {
    if i > 0 {
      forall h | 0 <= h < i - 1 ensures calls[1..][h].id != f.toolCallID {
        assert calls[1..][h] == calls[h + 1];
      }
      ReadsFirst(calls[1..], i - 1, f);
    }
  }

  lemma {:induction false} FirstExists(calls: seq<RowCall>, j: nat) returns (i: nat)
    requires j < |calls|
    ensures i <= j && FirstWithID(calls, i, calls[j].id)
  {
    if h: nat :| h < j && calls[h].id == calls[j].id {
      i := FirstExists(calls, h);
    } else {
      i := j;
    }
  }

  lemma CallReadsExact(calls: seq<RowCall>, f: FieldAt)
    requires f in AllCallFields(calls)
    ensures f.field.OfCall() && CallFieldValue(calls, f.field, f.toolCallID).Some?
    ensures CallFieldValue(calls, f.field, f.toolCallID) == Some(f.value) <==> FirstHolds(calls, f)
  {
    hide AllCallFields, CallFieldValue;
    var j := FieldHasCall(calls, f);
    var i := FirstExists(calls, j);
    ReadsFirst(calls, i, f);
    if h: nat :| FirstWithID(calls, h, f.toolCallID) && f in CallFields(calls[h]) {
      ReadsFirst(calls, h, f);
    }
  }

  /** A field past the inline threshold gets a reference, which reads that field's value back if and only if the field
      is the row's own, or the first call with its id holds that value. */
  lemma RefResolvesExact(row: Row, f: FieldAt)
    requires f in Fields(row) && |f.value| > HISTORY_INLINE_REF_THRESHOLD
    ensures RefTo(f) in RowRefs(row) && EntryFieldValue(row, f.field, f.toolCallID).Some?
    ensures EntryFieldValue(row, f.field, f.toolCallID) == Some(f.value) <==> f in OwnFields(row) || FirstHolds(row.toolCalls, f)
  {
    hide FirstHolds, AllCallFields, CallFieldValue, RefsOf, OwnFields, EntryFieldValue;
    RefOfField(Fields(row), f);
    if f in OwnFields(row) {
      OwnFieldReads(row, f);
    } else {
      CallReadsExact(row.toolCalls, f);
      CallFieldReads(row, f);
    }
  }

  lemma OwnFieldReads(row: Row, f: FieldAt)
    requires f in OwnFields(row)
    ensures EntryFieldValue(row, f.field, f.toolCallID) == Some(f.value)
  {
    hide CallFieldValue;
  }

  lemma CallFieldReads(row: Row, f: FieldAt)
    requires f.field.OfCall()
    ensures EntryFieldValue(row, f.field, f.toolCallID) == CallFieldValue(row.toolCalls, f.field, f.toolCallID)
  {
    hide CallFieldValue;
  }

  /** With distinct call ids every reference reads its own field back. */
  lemma DistinctIDsResolve(row: Row, f: FieldAt)
    requires f in Fields(row) && DistinctCallIDs(row.toolCalls)
    ensures f in OwnFields(row) || FirstHolds(row.toolCalls, f)
  {
    if f !in OwnFields(row) {
      var j := FieldHasCall(row.toolCalls, f);
      var i := FirstExists(row.toolCalls, j);
    }
  }

  /** Calls without an id keep their arguments inline, so two of them in one message can both be referred to; both
      references then read the first one's arguments. */
  lemma CallsWithoutIDShareRef(env: Env, m: Message, todoArgs: map<string, string>, results: map<string, Message>, row: Row)
    requires |m.toolCalls| == 2 && m.toolCalls[0].id == m.toolCalls[1].id == ""
    requires m.toolCalls[0].name != "todo_write" && m.toolCalls[1].name != "todo_write"
    requires m.toolCalls[0].arguments != m.toolCalls[1].arguments && |m.toolCalls[1].arguments| > HISTORY_INLINE_REF_THRESHOLD
    requires row.toolCalls == CallRows(env, m, todoArgs, results)
    ensures Ref(ToolArgumentsField, "", |m.toolCalls[1].arguments|) in RowRefs(row)
    ensures EntryFieldValue(row, ToolArgumentsField, "") == Some(m.toolCalls[0].arguments)
  {
    var calls := row.toolCalls;
    var f := FieldAt(ToolArgumentsField, "", m.toolCalls[1].arguments);
    assert f in CallFields(calls[1]) && calls[1..][0] == calls[1];
    assert f in AllCallFields(calls[1..]) && f in AllCallFields(calls);
    RefOfField(Fields(row), f);
  }

  lemma {:induction false} CallFieldPreview(calls: seq<RowCall>, field: Field, toolCallID: string)
    ensures var full, shown := CallFieldValue(calls, field, toolCallID), CallFieldValue(CallPreviews(calls), field, toolCallID);
            shown == if full.Some? then Some(Preview(full.value)) else None
  {
    if calls != [] {
      CallFieldPreview(calls[1..], field, toolCallID);
      assert CallPreviews(calls)[1..] == CallPreviews(calls[1..]);
    }
  }

  lemma FieldPreview(row: Row, field: Field, toolCallID: string)
    ensures var full, shown := EntryFieldValue(row, field, toolCallID), EntryFieldValue(RowPreview(row), field, toolCallID);
            shown == if full.Some? then Some(Preview(full.value)) else None
  {
    CallFieldPreview(row.toolCalls, field, toolCallID);
    assert RowPreview(row).toolCalls == CallPreviews(row.toolCalls);
  }

  /** The entry shows the preview of what a reference reads. */
  lemma RefsShowPreviews(row: Row, ref: Ref)
    requires ref in RowRefs(row)
    ensures var full, shown := EntryFieldValue(row, ref.field, ref.toolCallID), EntryFieldValue(RowPreview(row), ref.field, ref.toolCallID);
            full.Some? && shown == Some(Preview(full.value))
  {
    var f := RefComesFromField(Fields(row), ref);
    RefResolvesExact(row, f);
    FieldPreview(row, ref.field, ref.toolCallID);
  }

  /** With distinct call ids every reference of an entry names a field that holds, in the full row, a value of the
      recorded size that is past the inline threshold; the entry shows the preview of that value. */
  lemma RefsNameFullValues(row: Row, ref: Ref)
    requires ref in RowRefs(row) && DistinctCallIDs(row.toolCalls)
    ensures var full, shown := EntryFieldValue(row, ref.field, ref.toolCallID), EntryFieldValue(RowPreview(row), ref.field, ref.toolCallID);
            full.Some? && |full.value| == ref.size > HISTORY_INLINE_REF_THRESHOLD &&
            shown == Some(Utf8.Clip(full.value, HISTORY_FIELD_PREVIEW_BYTES))
  {
    var f := RefComesFromField(Fields(row), ref);
    DistinctIDsResolve(row, f);
    RefResolvesExact(row, f);
    RefsShowPreviews(row, ref);
  }

  // ---- What an entry holds, field by field --------------------------------------------

  /** A field shows in full, or, past the threshold, as its clip with a reference of its size. */
  predicate Keeps(refs: seq<Ref>, field: Field, id: string, full: string, shown: string) {
    if |full| <= HISTORY_INLINE_REF_THRESHOLD then shown == full
    else shown == Utf8.Clip(full, HISTORY_FIELD_PREVIEW_BYTES) && Ref(field, id, |full|) in refs
  }

  predicate KeepsTexts(refs: seq<Ref>, row: Row, m: Row) {
    Keeps(refs, ContentField, "", row.content, m.content) && Keeps(refs, ReasoningField, "", row.reasoning, m.reasoning) &&
    Keeps(refs, SubmitTextField, "", row.submitText, m.submitText) && Keeps(refs, DetailField, "", row.detail, m.detail) &&
    Keeps(refs, CodeField, "", row.code, m.code) && Keeps(refs, SummaryField, "", row.summary, m.summary) &&
    Keeps(refs, ArchiveField, "", row.archive, m.archive) &&
    Keeps(refs, ToolResultErrorField, "", row.toolResultError, m.toolResultError)
  }

  predicate KeepsCalls(refs: seq<Ref>, calls: seq<RowCall>, shown: seq<RowCall>) {
    |shown| == |calls| && forall i | 0 <= i < |calls| :: KeepsCall(refs, calls[i], shown[i])
  }

  /** An entry keeps every field of its row, and each of its calls. */
  predicate KeepsRow(row: Row, e: Entry) {
    var m := e.message;
    KeepsTexts(e.refs, row, m) && KeepsCalls(e.refs, row.toolCalls, m.toolCalls) &&
    m == row.(content := m.content, reasoning := m.reasoning, submitText := m.submitText, detail := m.detail, code := m.code,
              summary := m.summary, archive := m.archive, toolResultError := m.toolResultError, toolCalls := m.toolCalls)
  }

  predicate KeepsCall(refs: seq<Ref>, call: RowCall, shown: RowCall) {
    Keeps(refs, ToolArgumentsField, call.id, call.arguments, shown.arguments) &&
    Keeps(refs, ToolSubjectField, call.id, call.subject, shown.subject) &&
    Keeps(refs, ToolSummaryField, call.id, call.summary, shown.summary) &&
    Keeps(refs, ToolDiffField, call.id, call.diff, shown.diff) &&
    shown == call.(arguments := shown.arguments, subject := shown.subject, summary := shown.summary, diff := shown.diff)
  }

  lemma {:induction false} CallIsField(calls: seq<RowCall>, i: nat)
    requires i < |calls|
    ensures forall f | f in CallFields(calls[i]) :: f in AllCallFields(calls)
  {
    hide CallFields;
    if i > 0 {
      CallIsField(calls[1..], i - 1);
    }
  }

  lemma FieldKept(fields: seq<FieldAt>, f: FieldAt)
    requires f in fields
    ensures Keeps(RefsOf(fields), f.field, f.toolCallID, f.value, Preview(f.value))
  {
    if |f.value| > HISTORY_INLINE_REF_THRESHOLD {
      RefOfField(fields, f);
    }
  }

  lemma {:induction false} CallPreviewAt(calls: seq<RowCall>, i: nat)
    requires i < |calls|
    ensures |CallPreviews(calls)| == |calls| && CallPreviews(calls)[i] == CallPreview(calls[i])
  {
    hide CallPreview;
    if i > 0 {
      CallPreviewAt(calls[1..], i - 1);
    } else {
      SameCount(calls);
    }
  }

  lemma {:induction false} SameCount(calls: seq<RowCall>)
    ensures |CallPreviews(calls)| == |calls|
  {
    if calls != [] {
      SameCount(calls[1..]);
    }
  }

  lemma CallKept(row: Row, i: nat)
    requires i < |row.toolCalls|
    ensures KeepsCall(RowRefs(row), row.toolCalls[i], CallPreview(row.toolCalls[i]))
  {
    hide AllCallFields, RefsOf, Preview, OwnFields, Keeps;
    var c := row.toolCalls[i];
    CallIsField(row.toolCalls, i);
    FieldKept(Fields(row), FieldAt(ToolArgumentsField, c.id, c.arguments));
    FieldKept(Fields(row), FieldAt(ToolSubjectField, c.id, c.subject));
    FieldKept(Fields(row), FieldAt(ToolSummaryField, c.id, c.summary));
    FieldKept(Fields(row), FieldAt(ToolDiffField, c.id, c.diff));
  }

  lemma OwnKept(row: Row, f: FieldAt)
    requires f in OwnFields(row)
    ensures Keeps(RowRefs(row), f.field, f.toolCallID, f.value, Preview(f.value))
  {
    hide AllCallFields, RefsOf, Preview, OwnFields, Keeps;
    FieldKept(Fields(row), f);
  }

  lemma TextsKept(row: Row)
    ensures KeepsTexts(RowRefs(row), row, RowPreview(row))
  {
    forall f | f in OwnFields(row) ensures Keeps(RowRefs(row), f.field, f.toolCallID, f.value, Preview(f.value)) {
      OwnKept(row, f);
    }
    hide RowRefs, Preview, Keeps, CallPreviews;
    var own := OwnFields(row);
    assert own[0] in own && own[1] in own && own[2] in own && own[3] in own;
    assert own[4] in own && own[5] in own && own[6] in own && own[7] in own;
  }

  lemma CallsKept(row: Row)
    ensures KeepsCalls(RowRefs(row), row.toolCalls, CallPreviews(row.toolCalls))
  {
    hide KeepsCall, RowRefs, CallPreview;
    SameCount(row.toolCalls);
    forall i | 0 <= i < |row.toolCalls| ensures KeepsCall(RowRefs(row), row.toolCalls[i], CallPreviews(row.toolCalls)[i]) {
      CallKept(row, i);
      CallPreviewAt(row.toolCalls, i);
    }
  }

  /** Nothing of a row is lost in its entry. */
  lemma EntryKeepsRow(order: nat, sub: nat, turn: nat, row: Row)
    ensures var e := NewHistoryEntry(order, sub, turn, row);
            KeepsRow(row, e) && e.order == order && e.sub == sub && e.turn == turn
  {
    hide KeepsTexts, KeepsCalls, CallPreviews, RowRefs, Preview;
    TextsKept(row);
    CallsKept(row);
  }

  /** What the names of a row's own fields stand for. */
  lemma FieldNames(row: Row, id: string)
    ensures EntryFieldValue(row, ContentField, id) == Some(row.content) && EntryFieldValue(row, ReasoningField, id) == Some(row.reasoning)
    ensures EntryFieldValue(row, SubmitTextField, id) == Some(row.submitText) && EntryFieldValue(row, DetailField, id) == Some(row.detail)
    ensures EntryFieldValue(row, CodeField, id) == Some(row.code) && EntryFieldValue(row, SummaryField, id) == Some(row.summary)
    ensures EntryFieldValue(row, ArchiveField, id) == Some(row.archive)
    ensures EntryFieldValue(row, ToolResultErrorField, id) == Some(row.toolResultError)
    ensures row.toolCalls != [] ==>
              var c := row.toolCalls[0];
              EntryFieldValue(row, ToolArgumentsField, c.id) == Some(c.arguments) && EntryFieldValue(row, ToolSubjectField, c.id) == Some(c.subject) &&
              EntryFieldValue(row, ToolSummaryField, c.id) == Some(c.summary) && EntryFieldValue(row, ToolDiffField, c.id) == Some(c.diff)
  {
  }

  // ---- Inline size ---------------------------------------------------------------

  function CallBytes(calls: seq<RowCall>): nat {
    if calls == [] then 0
    else
      var c := calls[|calls| - 1];
      CallBytes(calls[..|calls| - 1]) + |c.arguments| + |c.subject| + |c.summary| + |c.diff| + |c.id| + |c.name|
  }

  function FieldBytes(m: Row): nat {
    |m.content| + |m.detail| + |m.code| + |m.submitText| + |m.reasoning| + |m.summary| + |m.archive|
    + |m.toolResultError| + |m.toolCallID| + |m.toolName| + |m.role|
  }

  method InlineBytes(e: Entry) returns (n: nat)
    ensures n == EntryBytes(e)
  {
    var m := e.message;
    n := |m.content| + |m.detail| + |m.code| + |m.submitText| + |m.reasoning| + |m.summary| + |m.archive|
         + |m.toolResultError| + |m.toolCallID| + |m.toolName| + |m.role|;
    for i := 0 to |m.toolCalls|
      invariant n == FieldBytes(m) + CallBytes(m.toolCalls[..i])
    {
      var c := m.toolCalls[i];
      assert m.toolCalls[..i + 1][..i] == m.toolCalls[..i];
      n := n + |c.arguments| + |c.subject| + |c.summary| + |c.diff| + |c.id| + |c.name|;
    }
    assert m.toolCalls[..|m.toolCalls|] == m.toolCalls;
  }

  function EntryBytes(e: Entry): nat {
    FieldBytes(e.message) + CallBytes(e.message.toolCalls)
  }

  /** Every text of a row counts once: taking one out takes out its length, and nothing is left when all are out. */
  lemma EveryTextCounts(m: Row)
    ensures FieldBytes(m) == FieldBytes(m.(content := "")) + |m.content| == FieldBytes(m.(detail := "")) + |m.detail|
    ensures FieldBytes(m) == FieldBytes(m.(code := "")) + |m.code| == FieldBytes(m.(submitText := "")) + |m.submitText|
    ensures FieldBytes(m) == FieldBytes(m.(reasoning := "")) + |m.reasoning| == FieldBytes(m.(summary := "")) + |m.summary|
    ensures FieldBytes(m) == FieldBytes(m.(archive := "")) + |m.archive| == FieldBytes(m.(toolResultError := "")) + |m.toolResultError|
    ensures FieldBytes(m) == FieldBytes(m.(toolCallID := "")) + |m.toolCallID| == FieldBytes(m.(toolName := "")) + |m.toolName|
    ensures FieldBytes(m) == FieldBytes(m.(role := "")) + |m.role|
    ensures FieldBytes(m.(content := "", detail := "", code := "", submitText := "", reasoning := "", summary := "", archive := "",
                          toolResultError := "", toolCallID := "", toolName := "", role := "")) == 0
  {
  }

  /** So does every text of every call, and only these. */
  lemma EveryCallCounts(calls: seq<RowCall>, c: RowCall)
    ensures CallBytes(calls + [c]) == CallBytes(calls) + CallBytes([c])
    ensures CallBytes([c]) == CallBytes([c.(arguments := "")]) + |c.arguments| == CallBytes([c.(subject := "")]) + |c.subject|
    ensures CallBytes([c]) == CallBytes([c.(summary := "")]) + |c.summary| == CallBytes([c.(diff := "")]) + |c.diff|
    ensures CallBytes([c]) == CallBytes([c.(id := "")]) + |c.id| == CallBytes([c.(name := "")]) + |c.name|
    ensures CallBytes([c.(arguments := "", subject := "", summary := "", diff := "", id := "", name := "")]) == CallBytes([]) == 0
  {
    assert (calls + [c])[..|calls|] == calls;
    assert forall d: RowCall :: [d][..0] == [];
    assert forall d: RowCall :: CallBytes([d]) == |d.arguments| + |d.subject| + |d.summary| + |d.diff| + |d.id| + |d.name|;
  }

  function EntriesBytes(es: seq<Entry>): nat {
    if es == [] then 0 else EntriesBytes(es[..|es| - 1]) + EntryBytes(es[|es| - 1])
  }

  // ---- The longest suffix within budget ----------------------------------------------

  /** The rows of one message; a page keeps or drops them together. */
  datatype Group = Group(msgIndex: nat, entries: seq<Entry>)

  function Count(groups: seq<Group>): nat {
    if groups == [] then 0 else |groups[0].entries| + Count(groups[1..])
  }

  function Bytes(groups: seq<Group>): nat {
    if groups == [] then 0 else EntriesBytes(groups[0].entries) + Bytes(groups[1..])
  }

  function Flatten(groups: seq<Group>): seq<Entry> {
    if groups == [] then [] else groups[0].entries + Flatten(groups[1..])
  }

  predicate Fits(groups: seq<Group>, maxEntries: int, maxBytes: int) {
    Count(groups) <= maxEntries && Bytes(groups) <= maxBytes
  }

  /** How many of the oldest groups a page drops. */
  function Dropped(groups: seq<Group>, maxEntries: int, maxBytes: int): (k: nat)
    ensures k <= |groups| && (groups != [] ==> k < |groups|)
  {
    if |groups| <= 1 || Fits(groups, maxEntries, maxBytes) then 0 else 1 + Dropped(groups[1..], maxEntries, maxBytes)
  }

  lemma {:induction false} SumsAppend(groups: seq<Group>, g: Group)
    ensures Count(groups + [g]) == Count(groups) + |g.entries|
    ensures Bytes(groups + [g]) == Bytes(groups) + EntriesBytes(g.entries)
    ensures Flatten(groups + [g]) == Flatten(groups) + g.entries
  {
    if groups != [] {
      SumsAppend(groups[1..], g);
      assert (groups + [g])[1..] == groups[1..] + [g];
    } else {
      assert [] + [g] == [g];
    }
  }

  lemma {:induction false} SuffixSums(groups: seq<Group>, k: nat)
    requires k <= |groups|
    ensures Count(groups[k..]) <= Count(groups) && Bytes(groups[k..]) <= Bytes(groups)
  {
    if k > 0 {
      SuffixSums(groups[1..], k - 1);
      assert groups[1..][k - 1..] == groups[k..];
    } else {
      assert groups[0..] == groups;
    }
  }

  /** A page keeps exactly the longest suffix of groups within both budgets, or the newest group
      alone when not even that fits. */
  lemma {:induction false} DroppedLeavesLongestSuffix(groups: seq<Group>, maxEntries: int, maxBytes: int, k: nat)
    requires k < |groups|
    ensures k == Dropped(groups, maxEntries, maxBytes) <==>
            (k == |groups| - 1 || Fits(groups[k..], maxEntries, maxBytes)) &&
            (forall j | 0 <= j < k :: !Fits(groups[j..], maxEntries, maxBytes))
  {
    hide Fits;
    assert groups[0..] == groups;
    if |groups| > 1 && !Fits(groups, maxEntries, maxBytes) && k > 0 {
      var rest := groups[1..];
      DroppedLeavesLongestSuffix(rest, maxEntries, maxBytes, k - 1);
      SuffixesOfRest(groups, maxEntries, maxBytes, k);
    }
  }

  lemma SuffixesOfRest(groups: seq<Group>, maxEntries: int, maxBytes: int, k: nat)
    requires 0 < k < |groups| && !Fits(groups, maxEntries, maxBytes)
    ensures groups[1..][k - 1..] == groups[k..]
    ensures (forall j | 0 <= j < k :: !Fits(groups[j..], maxEntries, maxBytes)) <==>
            (forall j | 0 <= j < k - 1 :: !Fits(groups[1..][j..], maxEntries, maxBytes))
  {
    hide Fits;
    assert groups[0..] == groups;
    forall j | 0 <= j < k - 1 ensures groups[1..][j..] == groups[j + 1..] {
    }
    if forall j | 0 <= j < k - 1 :: !Fits(groups[1..][j..], maxEntries, maxBytes) {
      forall j | 0 <= j < k ensures !Fits(groups[j..], maxEntries, maxBytes) {
        if j > 0 {
          assert groups[1..][j - 1..] == groups[j..];
        }
      }
    }
  }

  /** A cut that fits while one more group does not is the cut of the budget rule. */
  lemma DroppedByGreedy(groups: seq<Group>, maxEntries: int, maxBytes: int, k: nat)
    requires k < |groups|
    requires k == |groups| - 1 || Fits(groups[k..], maxEntries, maxBytes)
    requires k > 0 ==> !Fits(groups[k - 1..], maxEntries, maxBytes)
    ensures Dropped(groups, maxEntries, maxBytes) == k
  {
    forall j | 0 <= j < k ensures !Fits(groups[j..], maxEntries, maxBytes) {
      SuffixSums(groups[j..], k - 1 - j);
      assert groups[j..][k - 1 - j..] == groups[k - 1..];
    }
    DroppedLeavesLongestSuffix(groups, maxEntries, maxBytes, k);
  }

  /** Dropping early and going on is dropping at the end: what no longer fits never fits again. */
  lemma {:induction false} DroppedAppend(groups: seq<Group>, g: Group, maxEntries: int, maxBytes: int)
    ensures var k := Dropped(groups, maxEntries, maxBytes);
            Dropped(groups + [g], maxEntries, maxBytes) == k + Dropped(groups[k..] + [g], maxEntries, maxBytes)
  {
    if |groups| <= 1 || Fits(groups, maxEntries, maxBytes) {
      assert groups[0..] == groups;
    } else {
      SumsAppend(groups, g);
      DroppedAppend(groups[1..], g, maxEntries, maxBytes);
      assert (groups + [g])[1..] == groups[1..] + [g];
      var k := Dropped(groups, maxEntries, maxBytes);
      assert groups[1..][k - 1..] == groups[k..];
    }
  }

  /** Drops the oldest groups until the rest is within budget, keeping the running totals. */
  method DropOldest(groups: seq<Group>, entryCount: nat, byteCount: nat, maxEntries: int, maxBytes: int)
    returns (kept: seq<Group>, keptEntries: nat, keptBytes: nat)
    requires entryCount == Count(groups) && byteCount == Bytes(groups)
    ensures kept == groups[Dropped(groups, maxEntries, maxBytes)..]
    ensures keptEntries == Count(kept) && keptBytes == Bytes(kept)
  {
    kept, keptEntries, keptBytes := groups, entryCount, byteCount;
    ghost var k: nat := 0;
    while |kept| > 1 && (keptEntries > maxEntries || keptBytes > maxBytes)
      invariant k <= |groups| && kept == groups[k..]
      invariant keptEntries == Count(kept) && keptBytes == Bytes(kept)
      invariant Dropped(groups, maxEntries, maxBytes) == k + Dropped(kept, maxEntries, maxBytes)
      decreases |kept|
    {
      keptEntries := keptEntries - |kept[0].entries|;
      var first := GroupBytes(kept[0]);
      keptBytes := keptBytes - first;
      kept := kept[1..];
      k := k + 1;
    }
  }

  method GroupBytes(g: Group) returns (n: nat)
    ensures n == EntriesBytes(g.entries)
  {
    n := 0;
    for i := 0 to |g.entries|
      invariant n == EntriesBytes(g.entries[..i])
    {
      assert g.entries[..i + 1][..i] == g.entries[..i];
      var b := InlineBytes(g.entries[i]);
      n := n + b;
    }
    assert g.entries[..|g.entries|] == g.entries;
  }
}
