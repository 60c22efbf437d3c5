/** Resolving a reference of a page entry: the message is converted again on its own, and the field
of the full conversion comes back, chunk by chunk.
*/
module HistoryContentRefs {
  import opened HistoryModel
  import opened HistoryConvert
  import opened HistorySource
  import opened HistoryTodo
  import opened HistoryEntries
  import opened HistoryPaging
  import opened HistoryPagingTheorem
  import Utf8

  datatype Resolved = StaleRef | NotFound | Found(value: string)

  /** Re-converts message `msgIndex` with a window of its own and reads one field of row `sub`. */
  method HistoryFieldValueForSource(view: View, src: Source, id: Cursor, msgIndex: int, sub: int, field: Field, toolCallID: string)
    returns (r: Resolved)
    requires src.Valid()
    ensures !IdentityMatches(src, id) || !(0 <= msgIndex < |src.msgs|) ==> r == StaleRef
    ensures IdentityMatches(src, id) && 0 <= msgIndex < |src.msgs| ==>
              var rows := PageRowsOf(view, src.msgs, msgIndex, msgIndex + 1)[msgIndex];
              !src.NeverFails() ||
              if 0 <= sub < |rows| then
                match EntryFieldValue(rows[sub], field, toolCallID)
                case Some(value) => r == Found(value)
                case None => r == NotFound
              else r == StaleRef
  {
    hide *;
    SourceShape(src);
    if !IdentityMatches(src, id) || msgIndex < 0 || msgIndex >= |src.msgs| {
      return StaleRef;
    }
    var window := Fetch(src, msgIndex, msgIndex + 1);
    if window.Err? {
      return StaleRef;
    }
    var own := HistoryToolResultsByID(src.msgs, msgIndex, window.value);
    var results := ExtendHistoryToolResults(src, msgIndex, msgIndex + 1, own);
    if results.Err? {
      return StaleRef;
    }
    var todoArgs := TodoArgsForWindow(view, src, msgIndex, msgIndex + 1, window.value);
    if todoArgs.Err? {
      return StaleRef;
    }
    var state := NewState(view);
    var primed := PrimeHistoryPlannerState(view.env, src, state, msgIndex);
    if !primed {
      return StaleRef;
    }
    PageRowsUnfold(view, src.msgs, msgIndex, msgIndex + 1);
    EmptyWindow(view, src.msgs, msgIndex, state.Value());
    var rows := ConvertAt(view, src.msgs, msgIndex, msgIndex + 1, state.Value(), msgIndex, state, todoArgs.value, results.value);
    if sub < 0 || sub >= |rows| {
      return StaleRef;
    }
    var value := EntryFieldValue(rows[sub], field, toolCallID);
    if value.None? {
      return NotFound;
    }
    return Found(value.value);
  }

  lemma SourceShape(src: Source)
    requires src.Valid()
    ensures |src.turns| == |src.msgs|
  {
  }

  lemma EmptyWindow(view: View, msgs: seq<Message>, i: nat, st: ConvState)
    requires i < |msgs|
    ensures Converted(view.env, st, msgs[i..i]) == st
    ensures |PageRowsOf(view, msgs, i, i + 1)| == i + 1
  {
  }

  /** A reference shown with an entry reads a field of the full conversion, whose clipped start the entry shows and whose
      chunks rebuild it. It is the very field that the reference was made for if and only if that is the row's own, or
      the first call with its id holds the same value; then it has the recorded size. */
  lemma RefResolvesToFullField(view: View, src: Source, i: nat, sub: nat, f: FieldAt)
    requires Pageable(view, src) && i < |src.msgs|
    requires sub < |FullRowsOf(view, src.msgs)[i]|
    requires f in Fields(FullRowsOf(view, src.msgs)[i][sub]) && |f.value| > HISTORY_INLINE_REF_THRESHOLD
    ensures var row := FullRowsOf(view, src.msgs)[i][sub];
            var again := PageRowsOf(view, src.msgs, i, i + 1)[i];
            RefTo(f) in RowRefs(row) && sub < |again| && again[sub] == row &&
            var value := EntryFieldValue(again[sub], f.field, f.toolCallID);
            value.Some? && (value == Some(f.value) <==> f in OwnFields(row) || FirstHolds(row.toolCalls, f)) &&
            EntryFieldValue(RowPreview(row), f.field, f.toolCallID) == Some(Preview(value.value)) &&
            (Utf8.Valid(value.value) ==>
               Utf8.Splittable(value.value) && Utf8.Concat(Utf8.Chunks(value.value)) == value.value)
  {
    hide PageRowsOf, FullRowsOf, SteersMissPlanner, ResultsFollowCalls, RowRefs, EntryFieldValue, RowPreview, Fields, OwnFields,
         FirstHolds, Preview, Utf8.Valid, Utf8.Splittable;
    PageRowsAreFullRows(view, src, i, i + 1, i);
    var row := FullRowsOf(view, src.msgs)[i][sub];
    RefResolvesExact(row, f);
    RefsShowPreviews(row, RefTo(f));
    var value := EntryFieldValue(row, f.field, f.toolCallID).value;
    if Utf8.Valid(value) {
      Utf8.ChunksRebuild(value);
    }
  }

  /** With distinct call ids every reference of a row resolves to the full field it was made for. */
  lemma DistinctIDsResolveToFullField(view: View, src: Source, i: nat, sub: nat, ref: Ref)
    requires Pageable(view, src) && i < |src.msgs| && sub < |FullRowsOf(view, src.msgs)[i]|
    requires var row := FullRowsOf(view, src.msgs)[i][sub]; ref in RowRefs(row) && DistinctCallIDs(row.toolCalls)
    ensures var row, again := FullRowsOf(view, src.msgs)[i][sub], PageRowsOf(view, src.msgs, i, i + 1)[i];
            sub < |again| && again[sub] == row &&
            exists f :: f in Fields(row) && ref == RefTo(f) && EntryFieldValue(again[sub], ref.field, ref.toolCallID) == Some(f.value)
  {
    hide PageRowsOf, FullRowsOf, SteersMissPlanner, ResultsFollowCalls, EntryFieldValue, RowPreview, OwnFields, FirstHolds,
         Preview, Utf8.Valid, Utf8.Splittable, AllCallFields;
    var row := FullRowsOf(view, src.msgs)[i][sub];
    var f := RefComesFromField(Fields(row), ref);
    DistinctIDsResolve(row, f);
    RefResolvesToFullField(view, src, i, sub, f);
  }
}
