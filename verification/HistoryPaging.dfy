/** The windowed pager and the theorem it exists for: pages concatenate to the full conversion.

A page takes a window of messages by its turn budget, primes the planner state over everything
before the window, converts forward, and drops the oldest groups to meet the entry and byte budgets.
`PageAt` is what the imperative pager is proved to return.
*/
module HistoryPaging {
  import opened HistoryModel
  import opened HistoryConvert
  import opened HistorySource
  import opened HistoryTodo
  import opened HistoryEntries
  import HistoryRows

  const HISTORY_SLICE_COLD_WINDOW_BYTES := 33554432

  /** Everything besides the session itself that a conversion reads. */
  datatype View = View(env: Env, tenv: TodoEnv, planner: seq<PlannerTurn>, checkpoints: map<int, int>)

  datatype Cursor = Cursor(revision: int, revKnown: bool, digest: string, before: nat)

  /** A page request; an undecodable cursor counts as none. */
  datatype Request = Request(cursor: Option<Cursor>, turns: int, entries: int, bytes: int)

  datatype Page = Page(entries: seq<Entry>, nextCursor: Option<Cursor>, hasOlder: bool,
                       totalTurns: nat, startTurn: nat, endTurn: nat)

  datatype PageResult = Stale | Failed | PageOk(page: Page)

  predicate IdentityMatches(src: Source, c: Cursor) {
    src.revKnown == c.revKnown && src.revision == (if c.revKnown then c.revision else 0) && src.digest == c.digest
  }

  function CursorAt(src: Source, before: nat): Cursor {
    Cursor(src.revision, src.revKnown, src.digest, before)
  }

  /** A session accepts a cursor exactly if it was handed out at the same revision, known or not, and digest; its own
      above all. */
  lemma OwnCursorAccepted(src: Source, issuer: Source, before: nat)
    requires src.Valid() && issuer.Valid()
    ensures IdentityMatches(src, CursorAt(issuer, before)) <==>
            src.revKnown == issuer.revKnown && src.revision == issuer.revision && src.digest == issuer.digest
  {
  }

  /** Whatever its origin, a cursor without a revision fits exactly a session without one, whatever number it bears. */
  lemma AnyCursorAccepted(src: Source, c: Cursor)
    requires src.Valid()
    ensures IdentityMatches(src, c) <==>
            src.digest == c.digest &&
            ((src.revKnown && c.revKnown && src.revision == c.revision) || (!src.revKnown && !c.revKnown))
  {
  }

  // ---- The full conversion pass ---------------------------------------------------------

  function StateAt(view: View, msgs: seq<Message>, i: nat): ConvState
    requires i <= |msgs|
  {
    Converted(view.env, InitState(view.env, view.planner), msgs[..i])
  }

  function FullRows(view: View, msgs: seq<Message>, i: nat): seq<Row>
    requires i < |msgs|
  {
    RowsOf(view.env, StateAt(view, msgs, i), i, msgs[i], view.checkpoints,
           TodoArgs(view.env, view.tenv, msgs), ToolResultsIn(msgs, 0, |msgs|))
  }

  /** One pass over the whole transcript. */
  method HistoryMessages(view: View, msgs: seq<Message>) returns (out: seq<Row>)
    ensures out == RowsRange(FullRowsOf(view, msgs), |msgs|)
  {
    var src := Source(msgs, seq(|msgs|, _ => 0), 0, 0, false, "", (lo, hi) => false, None);
    assert src.NeverFails();
    hide *;
    NothingConverted(view, msgs);
    var todo := HistoryTodoArgsForSource(view.env, view.tenv, src);
    var results := HistoryToolResultsByID(msgs, 0, msgs);
    var state := new HistoryMessageConvertState(view.env, view.planner);
    out := [];
    for i := 0 to |msgs|
      invariant state.Value() == StateAt(view, msgs, i)
      invariant out == RowsRange(FullRowsOf(view, msgs), i)
    {
      var rows := state.ConvertHistoryMessage(view.env, i, msgs[i], view.checkpoints, todo.value, results);
      OneMoreConverted(view, msgs, i);
      out := out + rows;
    }
  }

  lemma NothingConverted(view: View, msgs: seq<Message>)
    ensures StateAt(view, msgs, 0) == InitState(view.env, view.planner) && RowsRange(FullRowsOf(view, msgs), 0) == []
  {
  }

  lemma OneMoreConverted(view: View, msgs: seq<Message>, i: nat)
    requires i < |msgs|
    ensures StateAt(view, msgs, i + 1) == ConvertState(view.env, StateAt(view, msgs, i), msgs[i])
    ensures RowsRange(FullRowsOf(view, msgs), i + 1) ==
            RowsRange(FullRowsOf(view, msgs), i) +
            RowsOf(view.env, StateAt(view, msgs, i), i, msgs[i], view.checkpoints,
                   TodoArgs(view.env, view.tenv, msgs), ToolResultsIn(msgs, 0, |msgs|))
  {
    hide RowsOf, ConvertState, TodoArgs, ToolResultsIn, InitState;
    assert msgs[..i + 1][..i] == msgs[..i];
  }

  /** The rows of every message in the full pass. */
  function FullRowsOf(view: View, msgs: seq<Message>): (rows: seq<seq<Row>>)
    ensures |rows| == |msgs|
  {
    seq(|msgs|, i requires 0 <= i < |msgs| => FullRows(view, msgs, i))
  }

  // ---- Entries of given rows ---------------------------------------------------------------

  function EntriesOf(order: nat, turn: nat, rows: seq<Row>): (es: seq<Entry>)
    ensures |es| == |rows|
  {
    seq(|rows|, sub requires 0 <= sub < |rows| => NewHistoryEntry(order, sub, turn, rows[sub]))
  }

  /** The entries of the messages [lo, hi), message i having the rows `rows[i]`. */
  function EntriesRange(rows: seq<seq<Row>>, turns: seq<nat>, lo: nat, hi: nat): seq<Entry>
    requires lo <= hi <= |rows| && hi <= |turns|
    decreases hi - lo
  {
    if lo == hi then [] else EntriesRange(rows, turns, lo, hi - 1) + EntriesOf(hi - 1, turns[hi - 1], rows[hi - 1])
  }

  lemma {:induction false} EntriesSplit(rows: seq<seq<Row>>, turns: seq<nat>, lo: nat, mid: nat, hi: nat)
    requires lo <= mid <= hi <= |rows| && hi <= |turns|
    ensures EntriesRange(rows, turns, lo, hi) == EntriesRange(rows, turns, lo, mid) + EntriesRange(rows, turns, mid, hi)
    decreases hi
  {
    if mid < hi {
      EntriesSplit(rows, turns, lo, mid, hi - 1);
    }
  }

  function RowsRange(rows: seq<seq<Row>>, n: nat): seq<Row>
    requires n <= |rows|
  {
    if n == 0 then [] else RowsRange(rows, n - 1) + rows[n - 1]
  }

  /** Row by row, entries show the previews of the rows they were made from. */
  lemma {:induction false} EntriesShowRows(rows: seq<seq<Row>>, turns: seq<nat>, n: nat)
    requires n <= |rows| && n <= |turns|
    ensures |EntriesRange(rows, turns, 0, n)| == |RowsRange(rows, n)|
    ensures forall k | 0 <= k < |RowsRange(rows, n)| ::
              EntriesRange(rows, turns, 0, n)[k].message == RowPreview(RowsRange(rows, n)[k]) &&
              EntriesRange(rows, turns, 0, n)[k].refs == RowRefs(RowsRange(rows, n)[k])
  {
    if n > 0 {
      EntriesShowRows(rows, turns, n - 1);
    }
  }

  /** The non-empty row groups of the messages before `n`. */
  function GroupsRange(rows: seq<seq<Row>>, turns: seq<nat>, n: nat): (groups: seq<Group>)
    requires n <= |rows| && n <= |turns|
    ensures forall k | 0 <= k < |groups| :: groups[k].msgIndex < n && rows[groups[k].msgIndex] != []
  {
    if n == 0 then []
    else
      GroupsRange(rows, turns, n - 1)
      + (if rows[n - 1] == [] then [] else [Group(n - 1, EntriesOf(n - 1, turns[n - 1], rows[n - 1]))])
  }

  /** Keeping the groups from the k-th on keeps all entries of the messages from that group's on. */
  lemma {:induction false} KeptGroupsAreRange(rows: seq<seq<Row>>, turns: seq<nat>, n: nat, k: nat)
    requires n <= |rows| && n <= |turns|
    requires k < |GroupsRange(rows, turns, n)|
    ensures var groups := GroupsRange(rows, turns, n);
            Flatten(groups[k..]) == EntriesRange(rows, turns, groups[k].msgIndex, n)
  {
    var groups := GroupsRange(rows, turns, n);
    var before := GroupsRange(rows, turns, n - 1);
    if k < |before| {
      KeptGroupsAreRange(rows, turns, n - 1, k);
      if rows[n - 1] == [] {
        assert groups == before;
      } else {
        var g := groups[|groups| - 1];
        assert groups[k..] == before[k..] + [g];
        SumsAppend(before[k..], g);
      }
    } else {
      assert groups[k..] == [groups[k]];
      assert Flatten([groups[k]]) == groups[k].entries + Flatten([]);
      assert EntriesRange(rows, turns, n - 1, n) == EntriesRange(rows, turns, n - 1, n - 1) + groups[k].entries;
    }
  }

  /** Messages without rows contribute no group and no entry. */
  lemma {:induction false} NoGroupsNoEntries(rows: seq<seq<Row>>, turns: seq<nat>, lo: nat, n: nat)
    requires lo <= n <= |rows| && n <= |turns|
    requires GroupsRange(rows, turns, n) == []
    ensures EntriesRange(rows, turns, lo, n) == []
  {
    if lo < n {
      NoGroupsNoEntries(rows, turns, lo, n - 1);
    }
  }

  // ---- The window of a page ----------------------------------------------------------------

  /** Least index below `hi` whose turn reaches `turn`; `hi` when there is none. */
  function FirstAtLeast(turns: seq<nat>, hi: nat, turn: int): (i: nat)
    requires hi <= |turns|
    ensures i <= hi && forall k | 0 <= k < i :: turns[k] < turn
    ensures i < hi ==> turns[i] >= turn
    decreases hi
  {
    if hi == 0 then 0
    else
      var i := FirstAtLeast(turns, hi - 1, turn);
      if i < hi - 1 || turns[hi - 1] >= turn then i else hi
  }

  method SearchFirst(turns: seq<nat>, hi: nat, turn: int) returns (i: nat)
    requires hi <= |turns|
    requires forall a, b | 0 <= a <= b < |turns| :: turns[a] <= turns[b]
    ensures i == FirstAtLeast(turns, hi, turn)
  {
    var lo, up := 0, hi;
    while lo < up
      invariant lo <= up <= hi
      invariant forall k | 0 <= k < lo :: turns[k] < turn
      invariant forall k | up <= k < hi :: turns[k] >= turn
    {
      var mid := (lo + up) / 2;
      if turns[mid] >= turn {
        up := mid;
      } else {
        lo := mid + 1;
      }
    }
    FirstIsUnique(turns, hi, turn, lo);
    return lo;
  }

  lemma FirstIsUnique(turns: seq<nat>, hi: nat, turn: int, i: nat)
    requires i <= hi <= |turns|
    requires forall k | 0 <= k < i :: turns[k] < turn
    requires i < hi ==> turns[i] >= turn
    ensures i == FirstAtLeast(turns, hi, turn)
  {
  }

  /** The oldest visible turn a page ending before `hi` may reach. */
  function OldestTurn(src: Source, turns: int, hi: nat): int
    requires 0 < hi <= |src.turns|
  {
    var newest := src.turns[hi - 1];
    if newest == 0 then 0 else if newest - turns + 1 > 1 then newest - turns + 1 else 1
  }

  function Shrunk(src: Source, lo: nat, hi: nat): (r: nat)
    requires lo < hi
    ensures lo <= r < hi
    decreases hi - lo
  {
    if src.windowBytes.Some? && lo < hi - 1 && src.windowBytes.value(lo, hi) > HISTORY_SLICE_COLD_WINDOW_BYTES
    then Shrunk(src, lo + 1, hi) else lo
  }

  function CandidateLo(src: Source, turns: int, hi: nat): (lo: nat)
    requires src.Valid() && 0 < hi <= |src.msgs| && turns > 0
    ensures lo < hi
  {
    var oldest := OldestTurn(src, turns, hi);
    Shrunk(src, if oldest <= 1 then 0 else FirstAtLeast(src.turns, hi, oldest), hi)
  }

  /** Message `i` is within the turn budget of a page ending before `hi`: it belongs to the last `budget` visible turns, or
      these go back to the first turn, and then everything before it counts in. */
  predicate WithinTurns(turns: seq<nat>, budget: int, hi: nat, i: nat)
    requires i < hi <= |turns|
  {
    turns[i] > turns[hi - 1] - budget || turns[hi - 1] <= budget
  }

  predicate SpanFits(src: Source, lo: nat, hi: nat) {
    src.windowBytes.Some? ==> src.windowBytes.value(lo, hi) <= HISTORY_SLICE_COLD_WINDOW_BYTES
  }

  /** `lo` is the oldest message within the turn budget from which the window fits, or the newest message of all. */
  predicate StartsWindow(src: Source, budget: int, hi: nat, lo: nat)
    requires 0 < hi <= |src.turns|
  {
    lo < hi && WithinTurns(src.turns, budget, hi, lo) && (lo == hi - 1 || SpanFits(src, lo, hi)) &&
    forall i | 0 <= i < lo && WithinTurns(src.turns, budget, hi, i) :: !SpanFits(src, i, hi)
  }

  /** There is one such window, and it is the one a page converts. */
  lemma WindowIsTurnBudget(src: Source, budget: int, hi: nat, lo: nat)
    requires src.Valid() && 0 < hi <= |src.msgs| && budget > 0
    ensures StartsWindow(src, budget, hi, lo) <==> lo == CandidateLo(src, budget, hi)
    ensures src.windowBytes.None? && StartsWindow(src, budget, hi, lo) ==>
              forall i | 0 <= i < hi :: lo <= i <==> WithinTurns(src.turns, budget, hi, i)
  {
    hide Shrunk;
    var oldest := OldestTurn(src, budget, hi);
    var first := if oldest <= 1 then 0 else FirstAtLeast(src.turns, hi, oldest);
    assert forall i | 0 <= i < hi :: first <= i <==> WithinTurns(src.turns, budget, hi, i);
    ShrunkIsFirstFit(src, first, hi);
    var c := CandidateLo(src, budget, hi);
    assert StartsWindow(src, budget, hi, c);
  }

  lemma {:induction false} ShrunkIsFirstFit(src: Source, lo: nat, hi: nat)
    requires lo < hi
    ensures var r := Shrunk(src, lo, hi);
            lo <= r < hi && (r == hi - 1 || SpanFits(src, r, hi)) && forall i | lo <= i < r :: !SpanFits(src, i, hi)
    decreases hi - lo
  {
    if !SpanFits(src, lo, hi) && lo < hi - 1 {
      ShrunkIsFirstFit(src, lo + 1, hi);
    }
  }

  predicate ContainsTodoWrite(window: seq<Message>) {
    exists k | 0 <= k < |window| :: exists c | 0 <= c < |window[k].toolCalls| :: window[k].toolCalls[c].name == "todo_write"
  }

  method HistoryWindowContainsTodoWrite(window: seq<Message>) returns (found: bool)
    ensures found == ContainsTodoWrite(window)
  {
    for k := 0 to |window|
      invariant !ContainsTodoWrite(window[..k])
    {
      for c := 0 to |window[k].toolCalls|
        invariant forall d | 0 <= d < c :: window[k].toolCalls[d].name != "todo_write"
      {
        if window[k].toolCalls[c].name == "todo_write" {
          return true;
        }
      }
    }
    assert window[..|window|] == window;
    return false;
  }

  function PageTodo(view: View, msgs: seq<Message>, lo: nat, hi: nat): map<string, string>
    requires lo <= hi <= |msgs|
  {
    if ContainsTodoWrite(msgs[lo..hi]) then TodoArgs(view.env, view.tenv, msgs) else map[]
  }

  /** The rows of every message before `hi` in a conversion of [lo, hi) that starts in state `st`;
      none before `lo`. */
  function WindowRowsOf(view: View, msgs: seq<Message>, lo: nat, hi: nat, st: ConvState,
                        todoArgs: map<string, string>, results: map<string, Message>)
    : (rows: seq<seq<Row>>)
    requires lo <= hi <= |msgs|
    ensures |rows| == hi
  {
    seq(hi, i requires 0 <= i < hi =>
      if i < lo then []
      else RowsOf(view.env, Converted(view.env, st, msgs[lo..i]), i, msgs[i], view.checkpoints, todoArgs, results))
  }

  /** The converter state of a page when it reaches its window from `lo`. */
  function PrimedState(view: View, msgs: seq<Message>, lo: nat): ConvState
    requires lo <= |msgs|
  {
    Replayed(view.env, InitState(view.env, view.planner), msgs[..lo])
  }

  /** The rows of every message before `hi` in a page with window [lo, hi). */
  function PageRowsOf(view: View, msgs: seq<Message>, lo: nat, hi: nat): (rows: seq<seq<Row>>)
    requires lo <= hi <= |msgs|
    ensures |rows| == hi
  {
    WindowRowsOf(view, msgs, lo, hi, PrimedState(view, msgs, lo), PageTodo(view, msgs, lo, hi), PageResults(msgs, lo, hi))
  }

  /** The groups of the messages before `n` that fit. */
  function Kept(rows: seq<seq<Row>>, turns: seq<nat>, n: nat, req: Request): seq<Group>
    requires n <= |rows| && n <= |turns|
  {
    var groups := GroupsRange(rows, turns, n);
    groups[Dropped(groups, req.entries, req.bytes)..]
  }

  /** The entries of the page ending before `hi`, and the message index where it starts. */
  function PageAt(view: View, src: Source, req: Request, hi: nat): (r: (seq<Entry>, nat))
    requires src.Valid() && 0 < hi <= |src.msgs| && req.turns > 0
    ensures r.1 < hi
  {
    var lo := CandidateLo(src, req.turns, hi);
    var kept := Kept(PageRowsOf(view, src.msgs, lo, hi), src.turns, hi, req);
    (Flatten(kept), if kept == [] then lo else kept[0].msgIndex)
  }

  /** `first` and `last` are the oldest and the newest visible turn among `entries`; 0 when there is none. */
  ghost predicate TurnBounds(entries: seq<Entry>, first: nat, last: nat) {
    (forall k | 0 <= k < |entries| && entries[k].turn > 0 :: 0 < first <= entries[k].turn <= last) &&
    (first > 0 ==> exists k | 0 <= k < |entries| :: entries[k].turn == first) &&
    (last > 0 ==> exists k | 0 <= k < |entries| :: entries[k].turn == last)
  }

  /** The message index a request's page ends before. */
  function PageEnd(src: Source, req: Request): nat {
    if req.cursor.Some? && req.cursor.value.before < |src.msgs| then req.cursor.value.before else |src.msgs|
  }

  /** `page` is the page of `req`. */
  ghost predicate IsPage(view: View, src: Source, req: Request, page: Page)
    requires src.Valid() && req.turns > 0
  {
    var hi := PageEnd(src, req);
    page.totalTurns == src.totalTurns &&
    TurnBounds(page.entries, page.startTurn, page.endTurn) &&
    if hi == 0 then page.entries == [] && !page.hasOlder && page.nextCursor.None?
    else
      var (entries, start) := PageAt(view, src, req, hi);
      page.entries == entries && page.hasOlder == (start > 0) &&
      page.nextCursor == if start > 0 then Some(CursorAt(src, start)) else None
  }

  // ---- The imperative pager ------------------------------------------------------------------

  method CandidateWindowStart(src: Source, turns: int, hi: nat) returns (lo: nat)
    requires src.Valid() && 0 < hi <= |src.msgs| && turns > 0
    ensures lo == CandidateLo(src, turns, hi) && StartsWindow(src, turns, hi, lo)
  {
    hide StartsWindow;
    var newestTurn := src.turns[hi - 1];
    var oldestTurn := 0;
    if newestTurn > 0 {
      oldestTurn := if newestTurn - turns + 1 > 1 then newestTurn - turns + 1 else 1;
    }
    lo := SearchFirst(src.turns, hi, oldestTurn);
    if oldestTurn <= 1 {
      lo := 0;
    }
    if src.windowBytes.Some? {
      ghost var lo0 := lo;
      while lo < hi - 1 && src.windowBytes.value(lo, hi) > HISTORY_SLICE_COLD_WINDOW_BYTES
        invariant lo0 <= lo < hi
        invariant Shrunk(src, lo, hi) == Shrunk(src, lo0, hi)
      {
        lo := lo + 1;
      }
    }
    WindowIsTurnBudget(src, turns, hi, lo);
  }

  method TurnRange(entries: seq<Entry>) returns (first: nat, last: nat)
    ensures TurnBounds(entries, first, last)
  {
    first, last := 0, 0;
    for k := 0 to |entries|
      invariant TurnBounds(entries[..k], first, last)
    {
      var e := entries[k];
      ghost var more := entries[..k + 1];
      assert more[..k] == entries[..k] && more[k] == e;
      assert first > 0 ==> exists j | 0 <= j < k :: more[j].turn == first by {
        if first > 0 {
          var j :| 0 <= j < |entries[..k]| && entries[..k][j].turn == first;
          assert more[j].turn == first;
        }
      }
      assert last > 0 ==> exists j | 0 <= j < k :: more[j].turn == last by {
        if last > 0 {
          var j :| 0 <= j < |entries[..k]| && entries[..k][j].turn == last;
          assert more[j].turn == last;
        }
      }
      if e.turn == 0 {
        continue;
      }
      if first == 0 || e.turn < first {
        first := e.turn;
      }
      if e.turn > last {
        last := e.turn;
      }
    }
    assert entries[..|entries|] == entries;
  }

  method EntriesOfRows(order: nat, turn: nat, rows: seq<Row>) returns (es: seq<Entry>)
    ensures es == EntriesOf(order, turn, rows)
  {
    es := [];
    for sub := 0 to |rows|
      invariant |es| == sub && forall k | 0 <= k < sub :: es[k] == NewHistoryEntry(order, k, turn, rows[k])
    {
      es := es + [NewHistoryEntry(order, sub, turn, rows[sub])];
    }
  }

  method ConvertAt(view: View, msgs: seq<Message>, ghost lo: nat, ghost hi: nat, ghost st: ConvState, i: nat,
                   state: HistoryMessageConvertState, todoArgs: map<string, string>, results: map<string, Message>)
    returns (rows: seq<Row>)
    requires lo <= i < hi <= |msgs|
    requires state.Value() == Converted(view.env, st, msgs[lo..i])
    modifies state
    ensures rows == WindowRowsOf(view, msgs, lo, hi, st, todoArgs, results)[i]
    ensures state.Value() == Converted(view.env, st, msgs[lo..i + 1])
  {
    hide RowsOf, ConvertState, HistoryRows.Shows, HistoryRows.Leaves;
    rows := state.ConvertHistoryMessage(view.env, i, msgs[i], view.checkpoints, todoArgs, results);
    assert msgs[lo..i + 1][..i - lo] == msgs[lo..i];
  }

  /** Adds the group of message `n`, if it has rows, and drops what no longer fits. */
  method KeepGroup(ghost all: seq<seq<Row>>, turns: seq<nat>, n: nat, req: Request, rows: seq<Row>,
                   kept: seq<Group>, entryCount: nat, byteCount: nat)
    returns (kept': seq<Group>, entryCount': nat, byteCount': nat)
    requires n < |all| && n < |turns| && rows == all[n]
    requires kept == Kept(all, turns, n, req) && entryCount == Count(kept) && byteCount == Bytes(kept)
    ensures kept' == Kept(all, turns, n + 1, req) && entryCount' == Count(kept') && byteCount' == Bytes(kept')
  {
    if |rows| == 0 {
      assert GroupsRange(all, turns, n + 1) == GroupsRange(all, turns, n);
      return kept, entryCount, byteCount;
    }
    var entries := EntriesOfRows(n, turns[n], rows);
    var g := Group(n, entries);
    var bytes := GroupBytes(g);
    SumsAppend(kept, g);
    DroppedSuffix(GroupsRange(all, turns, n), g, req.entries, req.bytes);
    kept', entryCount', byteCount' := DropOldest(kept + [g], entryCount + |entries|, byteCount + bytes, req.entries, req.bytes);
  }

  /** Converts the window forward and keeps the newest groups that fit. */
  method ConvertWindow(view: View, src: Source, req: Request, lo: nat, hi: nat, state: HistoryMessageConvertState,
                       todoArgs: map<string, string>, results: map<string, Message>)
    returns (kept: seq<Group>)
    requires lo <= hi <= |src.msgs| == |src.turns|
    modifies state
    ensures kept == Kept(WindowRowsOf(view, src.msgs, lo, hi, old(state.Value()), todoArgs, results), src.turns, hi, req)
  {
    hide *;
    kept := [];
    var entryCount, byteCount := 0, 0;
    ghost var st := state.Value();
    ghost var all := WindowRowsOf(view, src.msgs, lo, hi, st, todoArgs, results);
    NothingBeforeWindow(view, src.msgs, src.turns, lo, hi, st, todoArgs, results, req);
    assert src.msgs[lo..lo] == [];
    var i := lo;
    while i < hi
      invariant lo <= i <= hi
      invariant state.Value() == Converted(view.env, st, src.msgs[lo..i])
      invariant kept == Kept(all, src.turns, i, req) && entryCount == Count(kept) && byteCount == Bytes(kept)
    {
      var rows := ConvertAt(view, src.msgs, lo, hi, st, i, state, todoArgs, results);
      kept, entryCount, byteCount := KeepGroup(all, src.turns, i, req, rows, kept, entryCount, byteCount);
      i := i + 1;
    }
  }

  lemma {:induction false} NoGroups(rows: seq<seq<Row>>, turns: seq<nat>, n: nat)
    requires n <= |rows| && n <= |turns|
    requires forall i | 0 <= i < n :: rows[i] == []
    ensures GroupsRange(rows, turns, n) == []
  {
    if n > 0 {
      NoGroups(rows, turns, n - 1);
    }
  }

  lemma NothingBeforeWindow(view: View, msgs: seq<Message>, turns: seq<nat>, lo: nat, hi: nat, st: ConvState,
                            todoArgs: map<string, string>, results: map<string, Message>, req: Request)
    requires lo <= hi <= |msgs| == |turns|
    ensures Kept(WindowRowsOf(view, msgs, lo, hi, st, todoArgs, results), turns, lo, req) == []
    ensures Count([]) == Bytes([]) == 0
    ensures Converted(view.env, st, []) == st
  {
    hide RowsOf;
    NoGroups(WindowRowsOf(view, msgs, lo, hi, st, todoArgs, results), turns, lo);
  }

  lemma DroppedSuffix(groups: seq<Group>, g: Group, maxEntries: int, maxBytes: int)
    ensures var k := Dropped(groups, maxEntries, maxBytes);
            var more := groups[k..] + [g];
            (groups + [g])[Dropped(groups + [g], maxEntries, maxBytes)..] == more[Dropped(more, maxEntries, maxBytes)..]
  {
    DroppedAppend(groups, g, maxEntries, maxBytes);
    var k := Dropped(groups, maxEntries, maxBytes);
    assert (groups + [g])[k..] == groups[k..] + [g];
  }

  /** The todo lists a page needs; none when its window writes none. */
  method TodoArgsForWindow(view: View, src: Source, lo: nat, hi: nat, window: seq<Message>) returns (r: Result<map<string, string>>)
    requires lo <= hi <= |src.msgs| && window == src.msgs[lo..hi]
    ensures r.Ok? ==> r.value == PageTodo(view, src.msgs, lo, hi)
    ensures r.Err? ==> !src.NeverFails()
  {
    var writes := HistoryWindowContainsTodoWrite(window);
    if !writes {
      return Ok(map[]);
    }
    r := HistoryTodoArgsForSource(view.env, view.tenv, src);
  }

  /** Cuts one page. */
  method PageHistorySliceSource(view: View, src: Source, req: Request) returns (r: PageResult)
    requires src.Valid() && req.turns > 0
    ensures r.Stale? <==> req.cursor.Some? && !IdentityMatches(src, req.cursor.value)
    ensures r.PageOk? ==> IsPage(view, src, req, r.page)
    ensures r.Failed? ==> !src.NeverFails()
  {
    hide *;
    if req.cursor.Some? && !IdentityMatches(src, req.cursor.value) {
      return Stale;
    }
    PageShape(src, req);
    var hi := |src.msgs|;
    if req.cursor.Some? && req.cursor.value.before < hi {
      hi := req.cursor.value.before;
    }
    if hi == 0 {
      NoPage(view, src, req);
      return PageOk(Page([], None, false, src.totalTurns, 0, 0));
    }
    var lo := CandidateWindowStart(src, req.turns, hi);
    var window := Fetch(src, lo, hi);
    if window.Err? {
      return Failed;
    }
    var todoArgs := TodoArgsForWindow(view, src, lo, hi, window.value);
    if todoArgs.Err? {
      return Failed;
    }
    var own := HistoryToolResultsByID(src.msgs, lo, window.value);
    var results := ExtendHistoryToolResults(src, lo, hi, own);
    if results.Err? {
      return Failed;
    }
    var state := NewState(view);
    var primed := PrimeHistoryPlannerState(view.env, src, state, lo);
    if !primed {
      return Failed;
    }
    PageRowsUnfold(view, src.msgs, lo, hi);
    var kept := ConvertWindow(view, src, req, lo, hi, state, todoArgs.value, results.value);
    var pageStart := lo;
    if |kept| > 0 {
      pageStart := kept[0].msgIndex;
    }
    var entries := FlattenGroups(kept);
    var first, last := TurnRange(entries);
    PageAtUnfold(view, src, req, hi);
    var next := if pageStart > 0 then Some(Cursor(src.revision, src.revKnown, src.digest, pageStart)) else None;
    r := PageOk(Page(entries, next, pageStart > 0, src.totalTurns, first, last));
    AssemblePage(view, src, req, r.page, pageStart);
  }

  method NewState(view: View) returns (state: HistoryMessageConvertState)
    ensures fresh(state) && state.Value() == InitState(view.env, view.planner) && !state.suppressCanonicalTurn
  {
    state := new HistoryMessageConvertState(view.env, view.planner);
  }

  lemma NoPage(view: View, src: Source, req: Request)
    requires src.Valid() && req.turns > 0 && PageEnd(src, req) == 0
    ensures IsPage(view, src, req, Page([], None, false, src.totalTurns, 0, 0))
  {
  }

  lemma PageShape(src: Source, req: Request)
    requires src.Valid()
    ensures |src.turns| == |src.msgs|
    ensures PageEnd(src, req) == if req.cursor.Some? && req.cursor.value.before < |src.msgs| then req.cursor.value.before else |src.msgs|
  {
  }

  lemma PageRowsUnfold(view: View, msgs: seq<Message>, lo: nat, hi: nat)
    requires lo <= hi <= |msgs|
    ensures PageRowsOf(view, msgs, lo, hi) ==
            WindowRowsOf(view, msgs, lo, hi, PrimedState(view, msgs, lo), PageTodo(view, msgs, lo, hi), PageResults(msgs, lo, hi))
    ensures PrimedState(view, msgs, lo) == Replayed(view.env, InitState(view.env, view.planner), msgs[..lo])
  {
    hide WindowRowsOf;
  }

  lemma PageAtUnfold(view: View, src: Source, req: Request, hi: nat)
    requires src.Valid() && 0 < hi <= |src.msgs| && req.turns > 0
    ensures var lo := CandidateLo(src, req.turns, hi);
            var kept := Kept(PageRowsOf(view, src.msgs, lo, hi), src.turns, hi, req);
            PageAt(view, src, req, hi) == (Flatten(kept), if kept == [] then lo else kept[0].msgIndex)
  {
    hide Kept, PageRowsOf, CandidateLo;
  }

  lemma AssemblePage(view: View, src: Source, req: Request, page: Page, start: nat)
    requires src.Valid() && req.turns > 0 && PageEnd(src, req) > 0
    requires PageAt(view, src, req, PageEnd(src, req)) == (page.entries, start)
    requires TurnBounds(page.entries, page.startTurn, page.endTurn) && page.totalTurns == src.totalTurns
    requires page.hasOlder == (start > 0)
    requires page.nextCursor == if start > 0 then Some(Cursor(src.revision, src.revKnown, src.digest, start)) else None
    ensures IsPage(view, src, req, page)
  {
    hide PageAt, TurnBounds;
  }

  method FlattenGroups(groups: seq<Group>) returns (out: seq<Entry>)
    ensures out == Flatten(groups)
  {
    out := [];
    for k := 0 to |groups|
      invariant out == Flatten(groups[..k])
    {
      SumsAppend(groups[..k], groups[k]);
      assert groups[..k + 1] == groups[..k] + [groups[k]];
      out := out + groups[k].entries;
    }
    assert groups[..|groups|] == groups;
  }
}
