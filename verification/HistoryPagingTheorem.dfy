/** Concatenated pages reproduce the full conversion, for every budget of every page. */
module HistoryPagingTheorem {
  import opened HistoryModel
  import opened HistoryConvert
  import opened HistorySource
  import opened HistoryTodo
  import opened HistoryEntries
  import opened HistoryPaging
  import HistoryRows

  /** Every named call of the transcript has its results in the shape `OneResultAfter` asks for. */
  ghost predicate ResultsFollowCalls(msgs: seq<Message>) {
    forall i: nat, id | i < |msgs| && id != "" && CallsTool(msgs[i], id) :: OneResultAfter(msgs, i, id)
  }

  /** The transcript keeps the two promises the paging relies on: tool results answer their calls,
      and no steer takes a planner display. */
  ghost predicate Pageable(view: View, src: Source) {
    src.Valid() &&
    ResultsFollowCalls(src.msgs) &&
    SteersMissPlanner(view.env, InitState(view.env, view.planner), src.msgs)
  }

  lemma {:induction false} ConvertedSplit(env: Env, st: ConvState, a: seq<Message>, b: seq<Message>)
    ensures Converted(env, st, a + b) == Converted(env, Converted(env, st, a), b)
  {
    hide ConvertState;
    if b == [] {
      assert a + b == a;
    } else {
      ConvertedSplit(env, st, a, b[..|b| - 1]);
      assert (a + b)[..|a + b| - 1] == a + b[..|b| - 1];
    }
  }

  /** Priming and then converting the window reaches each message in the state of the full pass. */
  lemma WindowStateIsFullState(view: View, msgs: seq<Message>, lo: nat, i: nat)
    requires lo <= i <= |msgs|
    requires SteersMissPlanner(view.env, InitState(view.env, view.planner), msgs)
    ensures Converted(view.env, PrimedState(view, msgs, lo), msgs[lo..i]) == StateAt(view, msgs, i)
  {
    hide Converted, Replayed, SteersMissPlanner, InitState;
    var st := InitState(view.env, view.planner);
    ReplayPrefix(view.env, st, msgs, lo);
    ConvertedSplit(view.env, st, msgs[..lo], msgs[lo..i]);
    assert msgs[..lo] + msgs[lo..i] == msgs[..i];
  }

  /** A call of the window shows on the page what it shows in the full pass. */
  lemma CallLookupsAgree(view: View, msgs: seq<Message>, lo: nat, hi: nat, i: nat, c: nat)
    requires lo <= i < hi <= |msgs| && c < |msgs[i].toolCalls|
    requires ResultsFollowCalls(msgs)
    ensures var tc := msgs[i].toolCalls[c];
            CallArguments(tc, PageTodo(view, msgs, lo, hi)) == CallArguments(tc, TodoArgs(view.env, view.tenv, msgs)) &&
            ResultContent(PageResults(msgs, lo, hi), tc.id) == ResultContent(ToolResultsIn(msgs, 0, |msgs|), tc.id)
  {
    hide TodoArgs;
    var tc := msgs[i].toolCalls[c];
    assert msgs[lo..hi][i - lo] == msgs[i];
    ToolResultsAreLast(msgs, 0, |msgs|, tc.id);
    if tc.id == "" {
      ToolResultsAreLast(msgs, lo, hi, "");
      ScannedIsFirst(msgs, hi, |msgs|, Wanted(msgs[lo..hi], ToolResultsIn(msgs, lo, hi)), "");
    } else {
      assert CallsTool(msgs[lo..hi][i - lo], tc.id);
      PageResultsAreLookups(msgs, lo, hi, tc.id);
      assert CallsTool(msgs[i], tc.id);
      PagedLookupExact(msgs, i, tc.id);
    }
  }

  /** Every message of a page's window gets the rows of the full pass. */
  lemma PageRowsAreFullRows(view: View, src: Source, lo: nat, hi: nat, i: nat)
    requires lo <= i < hi <= |src.msgs| && Pageable(view, src)
    ensures PageRowsOf(view, src.msgs, lo, hi)[i] == FullRowsOf(view, src.msgs)[i]
  {
    hide RowsOf, PageTodo, PageResults, TodoArgs, ToolResultsIn, Converted, PrimedState, SteersMissPlanner, CallArguments, ResultContent;
    var msgs := src.msgs;
    WindowStateIsFullState(view, msgs, lo, i);
    forall c | 0 <= c < |msgs[i].toolCalls|
      ensures var tc := msgs[i].toolCalls[c];
              CallArguments(tc, PageTodo(view, msgs, lo, hi)) == CallArguments(tc, TodoArgs(view.env, view.tenv, msgs)) &&
              ResultContent(PageResults(msgs, lo, hi), tc.id) == ResultContent(ToolResultsIn(msgs, 0, |msgs|), tc.id)
    {
      CallLookupsAgree(view, msgs, lo, hi, i, c);
    }
    RowsDependOnOwnCalls(view.env, StateAt(view, msgs, i), i, msgs[i], view.checkpoints,
      PageTodo(view, msgs, lo, hi), TodoArgs(view.env, view.tenv, msgs), PageResults(msgs, lo, hi), ToolResultsIn(msgs, 0, |msgs|));
  }

  lemma {:induction false} RangeDependsOnRows(rowsA: seq<seq<Row>>, rowsB: seq<seq<Row>>, turns: seq<nat>, lo: nat, hi: nat)
    requires lo <= hi <= |rowsA| && hi <= |rowsB| && hi <= |turns|
    requires forall i | lo <= i < hi :: rowsA[i] == rowsB[i]
    ensures EntriesRange(rowsA, turns, lo, hi) == EntriesRange(rowsB, turns, lo, hi)
  {
    hide EntriesOf;
    if lo < hi {
      RangeDependsOnRows(rowsA, rowsB, turns, lo, hi - 1);
    }
  }

  /** The entries of the messages [lo, hi) in the full pass. */
  function FullEntries(view: View, src: Source, lo: nat, hi: nat): seq<Entry>
    requires lo <= hi <= |src.msgs| == |src.turns|
  {
    EntriesRange(FullRowsOf(view, src.msgs), src.turns, lo, hi)
  }

  /** A page shows exactly the entries the full pass has for the messages from its start to its end. */
  lemma PageIsSliceOfFull(view: View, src: Source, req: Request, hi: nat)
    requires Pageable(view, src) && 0 < hi <= |src.msgs| && req.turns > 0
    ensures var (entries, start) := PageAt(view, src, req, hi);
            entries == FullEntries(view, src, start, hi)
  {
    hide PageRowsOf, FullRowsOf, SteersMissPlanner, ResultsFollowCalls, CandidateLo, EntriesRange;
    var lo := CandidateLo(src, req.turns, hi);
    var rows := PageRowsOf(view, src.msgs, lo, hi);
    forall i | lo <= i < hi ensures rows[i] == FullRowsOf(view, src.msgs)[i] {
      PageRowsAreFullRows(view, src, lo, hi, i);
    }
    KeptIsRange(rows, src.turns, lo, hi, req);
    StartInWindow(view, src, req, lo, hi);
    var (entries, start) := PageAt(view, src, req, hi);
    RangeDependsOnRows(rows, FullRowsOf(view, src.msgs), src.turns, start, hi);
  }

  lemma KeptIsRange(rows: seq<seq<Row>>, turns: seq<nat>, lo: nat, hi: nat, req: Request)
    requires lo < hi <= |rows| && hi <= |turns|
    ensures var kept := Kept(rows, turns, hi, req);
            kept != [] ==> kept[0].msgIndex < hi && rows[kept[0].msgIndex] != [] &&
                           Flatten(kept) == EntriesRange(rows, turns, kept[0].msgIndex, hi)
    ensures Kept(rows, turns, hi, req) == [] ==> EntriesRange(rows, turns, lo, hi) == []
  {
    hide EntriesRange, Flatten;
    var groups := GroupsRange(rows, turns, hi);
    if groups == [] {
      NoGroupsNoEntries(rows, turns, lo, hi);
    } else {
      var k := Dropped(groups, req.entries, req.bytes);
      KeptGroupsAreRange(rows, turns, hi, k);
    }
  }

  lemma StartInWindow(view: View, src: Source, req: Request, lo: nat, hi: nat)
    requires src.Valid() && lo < hi <= |src.msgs|
    ensures var kept := Kept(PageRowsOf(view, src.msgs, lo, hi), src.turns, hi, req);
            kept != [] ==> lo <= kept[0].msgIndex
  {
    hide RowsOf, Converted, PrimedState, PageTodo, PageResults, EntriesRange;
    KeptIsRange(PageRowsOf(view, src.msgs, lo, hi), src.turns, lo, hi, req);
  }

  /** What the full pass, and so every page, shows of a message is what the message tells, in the state left by those
      before it. */
  lemma FullRowsShow(view: View, msgs: seq<Message>, i: nat)
    requires i < |msgs|
    ensures HistoryRows.Shows(view.env, StateAt(view, msgs, i), i, msgs[i], view.checkpoints,
                              TodoArgs(view.env, view.tenv, msgs), ToolResultsIn(msgs, 0, |msgs|), FullRowsOf(view, msgs)[i])
    ensures HistoryRows.Leaves(view.env, StateAt(view, msgs, i), msgs[i], StateAt(view, msgs, i + 1))
  {
    hide HistoryRows.Shows, HistoryRows.Leaves, RowsOf, ConvertState, TodoArgs, ToolResultsIn;
    HistoryRows.RowsTold(view.env, StateAt(view, msgs, i), i, msgs[i], view.checkpoints,
                         TodoArgs(view.env, view.tenv, msgs), ToolResultsIn(msgs, 0, |msgs|));
    HistoryRows.StateTold(view.env, StateAt(view, msgs, i), msgs[i]);
    assert msgs[..i + 1][..i] == msgs[..i];
  }

  // ---- Following the cursors ------------------------------------------------------------------

  /** The pages from the one ending before `hi` to the oldest, concatenated oldest first. The
      request of each page may carry budgets of its own. */
  function Walk(view: View, src: Source, reqs: nat -> Request, hi: nat): seq<Entry>
    requires src.Valid() && hi <= |src.msgs| && forall k: nat :: reqs(k).turns > 0
    decreases hi
  {
    if hi == 0 then []
    else
      var (entries, start) := PageAt(view, src, reqs(hi), hi);
      Walk(view, src, reqs, start) + entries
  }

  lemma {:induction false} WalkIsFull(view: View, src: Source, reqs: nat -> Request, hi: nat)
    requires Pageable(view, src) && hi <= |src.msgs| && forall k: nat :: reqs(k).turns > 0
    ensures Walk(view, src, reqs, hi) == FullEntries(view, src, 0, hi)
    decreases hi
  {
    hide PageAt, FullRowsOf, SteersMissPlanner, ResultsFollowCalls;
    if hi > 0 {
      var (entries, start) := PageAt(view, src, reqs(hi), hi);
      PageIsSliceOfFull(view, src, reqs(hi), hi);
      WalkIsFull(view, src, reqs, start);
      EntriesSplit(FullRowsOf(view, src.msgs), src.turns, 0, start, hi);
    }
  }

  /** From the latest page to the oldest, the pages give the entries of one full conversion, each
      once and in order; and those entries show, row by row, what that conversion returns. */
  lemma PagesEqualFullConversion(view: View, src: Source, reqs: nat -> Request)
    requires Pageable(view, src) && forall k: nat :: reqs(k).turns > 0
    ensures var walk, rows := Walk(view, src, reqs, |src.msgs|), RowsRange(FullRowsOf(view, src.msgs), |src.msgs|);
            walk == FullEntries(view, src, 0, |src.msgs|) && |walk| == |rows| &&
            forall k | 0 <= k < |rows| :: walk[k].message == RowPreview(rows[k]) && walk[k].refs == RowRefs(rows[k])
  {
    hide FullRowsOf, SteersMissPlanner, ResultsFollowCalls, Walk, RowPreview, RowRefs;
    WalkIsFull(view, src, reqs, |src.msgs|);
    EntriesShowRows(FullRowsOf(view, src.msgs), src.turns, |src.msgs|);
  }

  /** A client that follows the cursors of served pages collects the walk. */
  method CollectPages(view: View, src: Source, req: Request) returns (ok: bool, all: seq<Entry>)
    requires src.Valid() && req.turns > 0
    ensures ok ==> all == Walk(view, src, _ => req, |src.msgs|)
    ensures !ok ==> !src.NeverFails()
  {
    hide PageAt;
    var next := req.(cursor := None);
    all := [];
    ghost var hi := |src.msgs|;
    while true
      invariant hi <= |src.msgs| && PageEnd(src, next) == hi
      invariant next == req.(cursor := next.cursor)
      invariant next.cursor.Some? ==> IdentityMatches(src, next.cursor.value)
      invariant Walk(view, src, _ => req, hi) + all == Walk(view, src, _ => req, |src.msgs|)
      decreases hi
    {
      var r := PageHistorySliceSource(view, src, next);
      if !r.PageOk? {
        return false, [];
      }
      BudgetsOnly(view, src, req, next, hi);
      all := r.page.entries + all;
      if !r.page.hasOlder {
        return true, all;
      }
      next := req.(cursor := r.page.nextCursor);
      hi := r.page.nextCursor.value.before;
    }
  }

  /** The cursor of a request decides only where its page ends. */
  lemma BudgetsOnly(view: View, src: Source, a: Request, b: Request, hi: nat)
    requires src.Valid() && hi <= |src.msgs| && a.turns > 0 && b == a.(cursor := b.cursor)
    ensures hi > 0 ==> PageAt(view, src, a, hi) == PageAt(view, src, b, hi)
  {
    hide PageRowsOf, GroupsRange, Flatten, CandidateLo;
  }

  // ---- Budgets ---------------------------------------------------------------------------------

  /** A page never reaches past its turn budget, and reaches the messages before the first turn only
      together with that turn. */
  lemma PageWithinTurnBudget(view: View, src: Source, req: Request, hi: nat, i: nat)
    requires src.Valid() && 0 < hi <= |src.msgs| && req.turns > 0
    requires PageAt(view, src, req, hi).1 <= i < hi
    ensures src.turns[i] <= src.turns[hi - 1]
    ensures src.turns[hi - 1] - req.turns < src.turns[i] || (src.turns[i] == 0 && src.turns[hi - 1] == req.turns)
  {
    hide PageRowsOf, EntriesRange;
    var lo := CandidateLo(src, req.turns, hi);
    StartInWindow(view, src, req, lo, hi);
    assert lo <= i;
    assert src.turns[lo] <= src.turns[i] <= src.turns[hi - 1];
  }

  /** A page holds at most the entry budget, unless the rows of one message alone exceed it. */
  lemma PageWithinEntryBudget(view: View, src: Source, req: Request, hi: nat)
    requires src.Valid() && 0 < hi <= |src.msgs| && req.turns > 0
    ensures var (entries, start) := PageAt(view, src, req, hi);
            var lo := CandidateLo(src, req.turns, hi);
            (|entries| <= req.entries && EntriesBytes(entries) <= req.bytes) || entries == [] ||
            |Kept(PageRowsOf(view, src.msgs, lo, hi), src.turns, hi, req)| == 1
  {
    hide PageRowsOf, EntriesRange;
    var lo := CandidateLo(src, req.turns, hi);
    var groups := GroupsRange(PageRowsOf(view, src.msgs, lo, hi), src.turns, hi);
    if groups != [] {
      var k := Dropped(groups, req.entries, req.bytes);
      DroppedLeavesLongestSuffix(groups, req.entries, req.bytes, k);
      FlattenSizes(groups[k..]);
    }
  }

  lemma {:induction false} FlattenSizes(groups: seq<Group>)
    ensures |Flatten(groups)| == Count(groups) && EntriesBytes(Flatten(groups)) == Bytes(groups)
  {
    hide EntryBytes;
    if groups != [] {
      FlattenSizes(groups[1..]);
      BytesSplit(groups[0].entries, Flatten(groups[1..]));
    }
  }

  lemma {:induction false} BytesSplit(a: seq<Entry>, b: seq<Entry>)
    ensures EntriesBytes(a + b) == EntriesBytes(a) + EntriesBytes(b)
  {
    hide EntryBytes;
    if b == [] {
      assert a + b == a;
    } else {
      BytesSplit(a, b[..|b| - 1]);
      assert (a + b)[..|a + b| - 1] == a + b[..|b| - 1];
    }
  }

  // ---- How far a page reaches ------------------------------------------------------------------

  predicate Ascending(groups: seq<Group>) {
    forall a, b | 0 <= a < b < |groups| :: groups[a].msgIndex < groups[b].msgIndex
  }

  lemma {:induction false} GroupsAscend(rows: seq<seq<Row>>, turns: seq<nat>, n: nat)
    requires n <= |rows| && n <= |turns|
    ensures Ascending(GroupsRange(rows, turns, n))
  {
    hide EntriesOf;
    if n > 0 {
      GroupsAscend(rows, turns, n - 1);
    }
  }

  /** A message with rows has its group; it is the newest if and only if no later message has rows. */
  lemma {:induction false} GroupOf(rows: seq<seq<Row>>, turns: seq<nat>, n: nat, i: nat) returns (g: nat)
    requires i < n <= |rows| && n <= |turns| && rows[i] != []
    ensures var groups := GroupsRange(rows, turns, n);
            g < |groups| && groups[g].msgIndex == i && (g == |groups| - 1 <==> forall k | i < k < n :: rows[k] == [])
  {
    hide EntriesOf;
    if i == n - 1 {
      g := |GroupsRange(rows, turns, n)| - 1;
    } else {
      g := GroupOf(rows, turns, n - 1, i);
      var before := GroupsRange(rows, turns, n - 1);
      assert GroupsRange(rows, turns, n)[..|before|] == before;
      if rows[n - 1] == [] {
        assert forall k | i < k < n :: k < n - 1 || rows[k] == [];
      } else {
        assert |GroupsRange(rows, turns, n)| == |before| + 1;
      }
    }
  }

  /** The budgets hold these entries. */
  predicate Holds(entries: seq<Entry>, req: Request) {
    |entries| <= req.entries && EntriesBytes(entries) <= req.bytes
  }

  lemma KeptExact(groups: seq<Group>, req: Request, g: nat)
    requires g < |groups|
    ensures Dropped(groups, req.entries, req.bytes) <= g <==> g == |groups| - 1 || Holds(Flatten(groups[g..]), req)
  {
    hide Flatten, EntriesBytes, Count, Bytes;
    var k := Dropped(groups, req.entries, req.bytes);
    DroppedLeavesLongestSuffix(groups, req.entries, req.bytes, k);
    FlattenSizes(groups[g..]);
    if k <= g {
      SuffixSums(groups[k..], g - k);
      assert groups[k..][g - k..] == groups[g..];
    }
  }

  /** The rows [lo, hi) kept within the budgets reach back to a message with rows if and only if no later one has any, or
      all entries from there on are held. */
  lemma KeptReachesExact(rows: seq<seq<Row>>, turns: seq<nat>, hi: nat, req: Request, i: nat)
    requires i < hi <= |rows| && hi <= |turns| && rows[i] != []
    ensures var kept := Kept(rows, turns, hi, req);
            kept != [] &&
            (kept[0].msgIndex <= i <==> (forall k | i < k < hi :: rows[k] == []) || Holds(EntriesRange(rows, turns, i, hi), req))
  {
    hide EntriesRange, GroupsRange, Flatten, Holds, Dropped;
    var g := GroupOf(rows, turns, hi, i);
    GroupsAscend(rows, turns, hi);
    KeptGroupsAreRange(rows, turns, hi, g);
    KeptExact(GroupsRange(rows, turns, hi), req, g);
  }

  /** What a served page shows of the full conversion, told without its window: all of it from `start` on. A message
      with rows is shown if and only if it is in the window, which starts at `lo`, and either nothing newer has rows or
      the budgets hold everything from it on. The cursor names the start. */
  lemma ServedPageExact(view: View, src: Source, req: Request, page: Page, lo: nat)
    requires Pageable(view, src) && req.turns > 0 && IsPage(view, src, req, page)
    requires PageEnd(src, req) > 0 && StartsWindow(src, req.turns, PageEnd(src, req), lo)
    ensures var hi := PageEnd(src, req);
            exists start: nat :: lo <= start < hi && page.entries == FullEntries(view, src, start, hi) &&
              page.nextCursor == (if start > 0 then Some(CursorAt(src, start)) else None) &&
              (forall i: nat | i < hi && FullRowsOf(view, src.msgs)[i] != [] ::
                 start <= i <==> lo <= i && ((forall k | i < k < hi :: FullRowsOf(view, src.msgs)[k] == []) ||
                                             Holds(FullEntries(view, src, i, hi), req))) &&
              (FullRowsOf(view, src.msgs)[start] != [] || start == lo)
  {
    hide PageRowsOf, FullRowsOf, SteersMissPlanner, ResultsFollowCalls, CandidateLo, EntriesRange, StartsWindow, Kept, Holds, TurnBounds;
    var hi, full := PageEnd(src, req), FullRowsOf(view, src.msgs);
    WindowIsTurnBudget(src, req.turns, hi, lo);
    var rows := PageRowsOf(view, src.msgs, lo, hi);
    forall i: nat | lo <= i < hi ensures rows[i] == full[i] {
      PageRowsAreFullRows(view, src, lo, hi, i);
    }
    PageIsSliceOfFull(view, src, req, hi);
    StartInWindow(view, src, req, lo, hi);
    KeptIsRange(rows, src.turns, lo, hi, req);
    var start := PageAt(view, src, req, hi).1;
    forall i: nat | lo <= i < hi && full[i] != []
      ensures start <= i <==> (forall k | i < k < hi :: full[k] == []) || Holds(FullEntries(view, src, i, hi), req)
    {
      KeptReachesExact(rows, src.turns, hi, req, i);
      RangeDependsOnRows(rows, full, src.turns, i, hi);
    }
  }

  /** When the entry and byte budgets hold the whole window, the page is the whole window. */
  lemma PageFillsWindow(view: View, src: Source, req: Request, page: Page, lo: nat)
    requires Pageable(view, src) && req.turns > 0 && IsPage(view, src, req, page)
    requires PageEnd(src, req) > 0 && StartsWindow(src, req.turns, PageEnd(src, req), lo)
    requires Holds(FullEntries(view, src, lo, PageEnd(src, req)), req)
    ensures page.entries == FullEntries(view, src, lo, PageEnd(src, req))
    ensures FullRowsOf(view, src.msgs)[lo] != [] ==> page.nextCursor == if lo > 0 then Some(CursorAt(src, lo)) else None
  {
    hide IsPage, FullRowsOf, SteersMissPlanner, ResultsFollowCalls, EntriesRange, StartsWindow, EntriesBytes;
    var hi, full := PageEnd(src, req), FullRowsOf(view, src.msgs);
    ServedPageExact(view, src, req, page, lo);
    var start: nat :| lo <= start < hi && page.entries == FullEntries(view, src, start, hi) &&
      page.nextCursor == (if start > 0 then Some(CursorAt(src, start)) else None) &&
      (forall i: nat | i < hi && full[i] != [] ::
         start <= i <==> lo <= i && ((forall k | i < k < hi :: full[k] == []) || Holds(FullEntries(view, src, i, hi), req))) &&
      (full[start] != [] || start == lo);
    EntriesSplit(full, src.turns, lo, start, hi);
    forall i: nat | lo <= i < start ensures full[i] == [] {
      EntriesSplit(full, src.turns, lo, i, hi);
      BytesSplit(EntriesRange(full, src.turns, lo, i), EntriesRange(full, src.turns, i, hi));
    }
    EmptyRange(full, src.turns, lo, start);
  }

  lemma {:induction false} EmptyRange(rows: seq<seq<Row>>, turns: seq<nat>, lo: nat, hi: nat)
    requires lo <= hi <= |rows| && hi <= |turns| && forall i: nat | lo <= i < hi :: rows[i] == []
    ensures EntriesRange(rows, turns, lo, hi) == []
  {
    if lo < hi {
      EmptyRange(rows, turns, lo, hi - 1);
    }
  }
}
