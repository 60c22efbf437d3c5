/** Filtered paging over a catalog: full-text search hits, and the session list.

The catalog has a strict order; a cursor is a key of it. Search reads batches of 200 rows and filters
them; the catalog itself drops rows that lie outside their root after cutting the batch, and a batch
that comes out short ends the search.
*/
module SearchPaging {

  datatype Option<+T> = None | Some(value: T)

  const BATCH_LIMIT: nat := 200

  /** One catalog row. `key` is its place in the catalog order. */
  datatype Candidate = Candidate(key: int, path: string, withinRoot: bool)

  type Messages = string

  /** The rest of the world as a search sees it. */
  datatype World = World(
    admits: Candidate -> bool,                        // status and time filters
    catalogDigest: string -> string,                  // digest recorded with a session; empty when none
    identity: string -> Option<string>,               // digest of the session on disk, when known
    load: string -> Option<Messages>,
    text: (Messages, Candidate) -> Option<string>,
    searchFails: Option<int> -> bool)                 // the catalog query after a cursor breaks

  predicate StaleOnDisk(w: World, path: string) {
    w.identity(path).Some? && w.catalogDigest(path) != "" && w.identity(path).value != w.catalogDigest(path)
  }

  /** The hit a row gives on its own. */
  function Hit(w: World, c: Candidate): Option<string> {
    if !w.admits(c) || StaleOnDisk(w, c.path) || w.load(c.path).None? then None
    else w.text(w.load(c.path).value, c)
  }

  /** Sessions loaded so far in this search, with their messages. */
  ghost predicate LoadedOk(w: World, loaded: map<string, Messages>) {
    forall path | path in loaded :: !StaleOnDisk(w, path) && w.load(path) == Some(loaded[path])
  }

  method HistoryHitFromCandidate(w: World, c: Candidate, loaded: map<string, Messages>)
    returns (hit: Option<string>, loaded': map<string, Messages>)
    requires LoadedOk(w, loaded)
    ensures hit == Hit(w, c) && LoadedOk(w, loaded')
    // A row that is not admitted, or whose session is not the one the catalog knew, or cannot be loaded, gives none.
    ensures !w.admits(c) || w.load(c.path).None? ==> hit == None
    ensures w.catalogDigest(c.path) != "" && w.identity(c.path) != None && w.identity(c.path) != Some(w.catalogDigest(c.path)) ==> hit == None
    ensures w.admits(c) && w.load(c.path).Some? &&
            (w.catalogDigest(c.path) == "" || w.identity(c.path) in {None, Some(w.catalogDigest(c.path))}) ==>
              hit == w.text(w.load(c.path).value, c)
  {
    loaded' := loaded;
    if !w.admits(c) {
      return None, loaded';
    }
    if c.path !in loaded {
      if StaleOnDisk(w, c.path) {
        return None, loaded';
      }
      var session := w.load(c.path);
      if session.None? {
        return None, loaded';
      }
      loaded' := loaded[c.path := session.value];
    }
    return w.text(loaded'[c.path], c), loaded';
  }

  predicate Matches(w: World, c: Candidate) {
    c.withinRoot && Hit(w, c).Some?
  }

  /** The matching rows among the first `n`, from `i` on, in catalog order. */
  function MatchesIn(w: World, rows: seq<Candidate>, i: nat, n: nat): seq<Candidate>
    requires i <= n <= |rows|
    decreases n - i
  {
    if i == n then [] else MatchesIn(w, rows, i, n - 1) + if Matches(w, rows[n - 1]) then [rows[n - 1]] else []
  }

  ghost predicate Ordered(rows: seq<Candidate>) {
    forall i, j | 0 <= i < j < |rows| :: rows[i].key < rows[j].key
  }

  /** The first row after a cursor. */
  function StartOf(rows: seq<Candidate>, after: Option<int>): (i: nat)
    ensures i <= |rows|
    ensures forall k | 0 <= k < i :: after.Some? && rows[k].key <= after.value
    ensures i < |rows| ==> after.None? || rows[i].key > after.value
  {
    if rows == [] || after.None? || rows[0].key > after.value then 0 else 1 + StartOf(rows[1..], after)
  }

  function BatchEnd(rows: seq<Candidate>, start: nat): nat {
    if start + BATCH_LIMIT < |rows| then start + BATCH_LIMIT else |rows|
  }

  /** The catalog's answer: the next 200 rows, less those outside their root. */
  function Within(rows: seq<Candidate>): seq<Candidate> {
    if rows == [] then []
    else Within(rows[..|rows| - 1]) + if rows[|rows| - 1].withinRoot then [rows[|rows| - 1]] else []
  }

  lemma {:induction false} WithinSize(rows: seq<Candidate>)
    ensures |Within(rows)| <= |rows|
    ensures |Within(rows)| == |rows| <==> forall i | 0 <= i < |rows| :: rows[i].withinRoot
    ensures |Within(rows)| == |rows| ==> Within(rows) == rows
  {
    if rows != [] {
      WithinSize(rows[..|rows| - 1]);
      assert rows == rows[..|rows| - 1] + [rows[|rows| - 1]];
    }
  }

  method Search(rows: seq<Candidate>, after: Option<int>) returns (items: seq<Candidate>)
    requires Ordered(rows)
    ensures var start := StartOf(rows, after); start <= BatchEnd(rows, start) && items == Within(rows[start..BatchEnd(rows, start)])
  {
    hide Ordered, StartOf, Within;
    var i := FirstAfter(rows, after);
    items := DropOutside(rows[i..BatchEnd(rows, i)]);
  }

  method FirstAfter(rows: seq<Candidate>, after: Option<int>) returns (i: nat)
    ensures i == StartOf(rows, after)
  {
    i := 0;
    while i < |rows| && after.Some? && rows[i].key <= after.value
      invariant i <= |rows| && StartOf(rows, after) == i + StartOf(rows[i..], after)
    {
      assert rows[i..][1..] == rows[i + 1..];
      i := i + 1;
    }
  }

  method DropOutside(batch: seq<Candidate>) returns (items: seq<Candidate>)
    ensures items == Within(batch)
  {
    items := [];
    for k := 0 to |batch|
      invariant items == Within(batch[..k])
    {
      assert batch[..k + 1][..k] == batch[..k];
      if batch[k].withinRoot {
        items := items + [batch[k]];
      }
    }
    assert batch[..|batch|] == batch;
  }

  /** How far a search from `start` reads: it goes on past a batch only when that is full. */
  function Reach(rows: seq<Candidate>, start: nat): (r: nat)
    requires start <= |rows|
    ensures start <= r <= |rows|
    decreases |rows| - start
  {
    var end := BatchEnd(rows, start);
    if end - start == BATCH_LIMIT && |Within(rows[start..end])| == BATCH_LIMIT then Reach(rows, end) else end
  }

  /** The end of the batch that row `k` falls in, when batches start at `start`. */
  function EndOfBatchOf(start: nat, k: nat): nat
    requires start <= k
  {
    start + BATCH_LIMIT * ((k - start) / BATCH_LIMIT + 1)
  }

  /** A search reads the whole rest of the catalog exactly when every row outside its root falls in the last batch. */
  lemma {:induction false} ReachIsWholeCatalog(rows: seq<Candidate>, start: nat)
    requires start <= |rows|
    ensures Reach(rows, start) == |rows| <==>
            forall k | start <= k < |rows| && !rows[k].withinRoot :: EndOfBatchOf(start, k) >= |rows|
    decreases |rows| - start
  {
    var end := BatchEnd(rows, start);
    var batch := rows[start..end];
    WithinSize(batch);
    if end - start == BATCH_LIMIT {
      if |Within(batch)| == BATCH_LIMIT {
        ReachIsWholeCatalog(rows, end);
        assert forall k | start <= k < end :: rows[k] == batch[k - start];
        assert forall k | end <= k < |rows| :: EndOfBatchOf(start, k) == EndOfBatchOf(end, k);
      } else {
        var i :| 0 <= i < |batch| && !batch[i].withinRoot;
        assert rows[start + i] == batch[i];
        assert start <= start + i < |rows| && !rows[start + i].withinRoot;
        if end < |rows| {
          assert EndOfBatchOf(start, start + i) == end;
        }
      }
    }
    if end == |rows| {
      forall k | start <= k < |rows| && !rows[k].withinRoot ensures EndOfBatchOf(start, k) >= |rows| {
        assert (k - start) / BATCH_LIMIT == 0 || k - start == BATCH_LIMIT;
      }
    }
  }

  /** The first `limit` of the matches a search can see, and whether there is one more. */
  ghost predicate IsSearchPage(w: World, rows: seq<Candidate>, after: Option<int>, limit: nat, items: seq<Candidate>, next: Option<int>) {
    var start := StartOf(rows, after);
    var found := MatchesIn(w, rows, start, Reach(rows, start));
    if |found| > limit then items == found[..limit] && limit > 0 && next == Some(items[limit - 1].key)
    else items == found && next.None?
  }

  lemma {:induction false} MatchesSplit(w: World, rows: seq<Candidate>, i: nat, m: nat, n: nat)
    requires i <= m <= n <= |rows|
    ensures MatchesIn(w, rows, i, n) == MatchesIn(w, rows, i, m) + MatchesIn(w, rows, m, n)
    decreases n
  {
    hide Matches;
    if m < n {
      MatchesSplit(w, rows, i, m, n - 1);
    }
  }

  /** The hits of a batch. */
  function HitsOf(w: World, items: seq<Candidate>): seq<Candidate> {
    if items == [] then []
    else HitsOf(w, items[..|items| - 1]) + if Hit(w, items[|items| - 1]).Some? then [items[|items| - 1]] else []
  }

  lemma {:induction false} BatchHits(w: World, rows: seq<Candidate>, start: nat, end: nat)
    requires start <= end <= |rows|
    ensures HitsOf(w, Within(rows[start..end])) == MatchesIn(w, rows, start, end)
    decreases end - start
  {
    hide Hit;
    if start < end {
      BatchHits(w, rows, start, end - 1);
      var batch := rows[start..end];
      assert batch[..|batch| - 1] == rows[start..end - 1];
      assert batch[|batch| - 1] == rows[end - 1];
      var init := Within(rows[start..end - 1]);
      if rows[end - 1].withinRoot {
        var grown := init + [rows[end - 1]];
        assert Within(batch) == grown && grown[..|grown| - 1] == init;
        assert HitsOf(w, grown) == HitsOf(w, init) + if Hit(w, rows[end - 1]).Some? then [rows[end - 1]] else [];
      } else {
        assert Within(batch) == init;
      }
    }
  }

  /** Adds the hits of one batch until `need` is reached. */
  method TakeHits(w: World, batch: seq<Candidate>, items: seq<Candidate>, need: nat, loaded: map<string, Messages>)
    returns (items': seq<Candidate>, loaded': map<string, Messages>)
    requires LoadedOk(w, loaded) && |items| < need
    ensures LoadedOk(w, loaded')
    ensures var all := items + HitsOf(w, batch); items' == if |all| > need then all[..need] else all
  {
    hide Hit, LoadedOk;
    items', loaded' := items, loaded;
    for k := 0 to |batch|
      invariant LoadedOk(w, loaded') && |items'| < need
      invariant items' == items + HitsOf(w, batch[..k])
    {
      var hit;
      hit, loaded' := HistoryHitFromCandidate(w, batch[k], loaded');
      assert batch[..k + 1][..k] == batch[..k];
      if hit.None? {
        continue;
      }
      items' := items' + [batch[k]];
      if |items'| == need {
        HitsPrefix(w, batch, k + 1);
        return;
      }
    }
    assert batch[..|batch|] == batch;
  }

  lemma {:induction false} HitsPrefix(w: World, batch: seq<Candidate>, k: nat)
    requires k <= |batch|
    ensures HitsOf(w, batch[..k]) <= HitsOf(w, batch)
    decreases |batch|
  {
    hide Hit;
    if k < |batch| {
      HitsPrefix(w, batch[..|batch| - 1], k);
      assert batch[..|batch| - 1][..k] == batch[..k];
    } else {
      assert batch[..k] == batch;
    }
  }

  function Take<T>(s: seq<T>, n: nat): seq<T> {
    if |s| > n then s[..n] else s
  }

  /** One batch of a search that has read the rows [first, start): the next start, or the end of the search. */
  method PullBatch(w: World, rows: seq<Candidate>, from: Option<int>, items: seq<Candidate>, need: nat,
                   loaded: map<string, Messages>, ghost first: nat, ghost start: nat)
    returns (done: bool, from': Option<int>, items': seq<Candidate>, loaded': map<string, Messages>, ghost start': nat)
    requires Ordered(rows) && LoadedOk(w, loaded) && first <= start <= |rows| && start == StartOf(rows, from)
    requires |items| < need && items == MatchesIn(w, rows, first, start)
    ensures LoadedOk(w, loaded')
    ensures !done ==> start < start' <= |rows| && start' == StartOf(rows, from') && Reach(rows, start') == Reach(rows, start) && |items'| < need && items' == MatchesIn(w, rows, first, start')
    ensures done ==> items' == Take(MatchesIn(w, rows, first, Reach(rows, start)), need)
  {
    hide Hit, Ordered, Within, HitsOf, MatchesIn, Reach, LoadedOk;
    from', items', loaded', start' := from, items, loaded, start;
    var batch := Search(rows, from);
    ghost var end := BatchEnd(rows, start);
    WithinSize(rows[start..end]);
    BatchHits(w, rows, start, end);
    MatchesSplit(w, rows, first, start, end);
    ReachPast(rows, start);
    MatchesSplit(w, rows, first, end, Reach(rows, start));
    if |batch| == 0 {
      NothingInBatch(w, rows, start, end);
      return true, from', items', loaded', start';
    }
    items', loaded' := TakeHits(w, batch, items, need, loaded);
    if |items'| == need {
      return true, from', items', loaded', start';
    }
    from' := Some(batch[|batch| - 1].key);
    if |batch| < BATCH_LIMIT {
      return true, from', items', loaded', start';
    }
    AfterLast(rows, end);
    start' := end;
    done := false;
  }

  /** Pulls batches until one page and one more hit are found, or the catalog gives no more. */
  method CollectHistorySearchItems(w: World, rows: seq<Candidate>, after: Option<int>, limit: nat)
    returns (failed: bool, items: seq<Candidate>, nextCursor: Option<int>)
    requires Ordered(rows) && limit > 0
    ensures !failed ==> IsSearchPage(w, rows, after, limit, items, nextCursor)
    ensures failed ==> exists from :: w.searchFails(from)
  {
    hide Ordered, Within, HitsOf, MatchesIn, Reach;
    var need := limit + 1;
    var loaded: map<string, Messages> := map[];
    items := [];
    var from := after;
    ghost var first := StartOf(rows, after);
    ghost var start := first;
    NoMatchesYet(w, rows, first);
    var done := false;
    while !done
      invariant LoadedOk(w, loaded)
      invariant !done ==> first <= start <= |rows| && start == StartOf(rows, from) && Reach(rows, start) == Reach(rows, first)
      invariant !done ==> |items| < need && items == MatchesIn(w, rows, first, start)
      invariant done ==> items == Take(MatchesIn(w, rows, first, Reach(rows, first)), need)
      decreases !done, |rows| - start
    {
      if w.searchFails(from) {
        return true, items, None;
      }
      done, from, items, loaded, start := PullBatch(w, rows, from, items, need, loaded, first, start);
    }
    failed, nextCursor := false, None;
    if |items| > limit {
      items := items[..limit];
      nextCursor := Some(items[limit - 1].key);
    }
  }

  lemma NoMatchesYet(w: World, rows: seq<Candidate>, i: nat)
    requires i <= |rows|
    ensures MatchesIn(w, rows, i, i) == []
  {
  }

  lemma ReachPast(rows: seq<Candidate>, start: nat)
    requires start <= |rows|
    ensures var end := BatchEnd(rows, start);
            start <= end <= Reach(rows, start) && Reach(rows, start) == if |Within(rows[start..end])| == BATCH_LIMIT then Reach(rows, end) else end
  {
    WithinSize(rows[start..BatchEnd(rows, start)]);
  }

  lemma NothingInBatch(w: World, rows: seq<Candidate>, start: nat, end: nat)
    requires start <= end <= |rows| && Within(rows[start..end]) == []
    ensures MatchesIn(w, rows, start, end) == []
  {
    BatchHits(w, rows, start, end);
  }

  lemma AfterLast(rows: seq<Candidate>, end: nat)
    requires Ordered(rows) && 0 < end <= |rows|
    ensures StartOf(rows, Some(rows[end - 1].key)) == end
  {
    var i := StartOf(rows, Some(rows[end - 1].key));
  }

  // ---- Following the cursors ------------------------------------------------------------------

  /** The matches after a cursor, in the whole catalog. */
  function AllMatches(w: World, rows: seq<Candidate>, start: nat): seq<Candidate>
    requires start <= |rows|
  {
    MatchesIn(w, rows, start, |rows|)
  }

  ghost predicate AllWithin(rows: seq<Candidate>) {
    forall i | 0 <= i < |rows| :: rows[i].withinRoot
  }

  lemma {:induction false} ReachAll(rows: seq<Candidate>, start: nat)
    requires start <= |rows| && AllWithin(rows)
    ensures Reach(rows, start) == |rows|
  {
    ReachIsWholeCatalog(rows, start);
  }

  /** With every row within its root, a page is the first `limit` matches after the cursor, and it has a
      cursor exactly when there is another match. */
  lemma SearchPageIsNextMatches(w: World, rows: seq<Candidate>, after: Option<int>, limit: nat, items: seq<Candidate>, next: Option<int>)
    requires AllWithin(rows) && limit > 0 && IsSearchPage(w, rows, after, limit, items, next)
    ensures var all := AllMatches(w, rows, StartOf(rows, after));
            items == (if |all| > limit then all[..limit] else all) && (next.Some? <==> |all| > limit)
  {
    ReachAll(rows, StartOf(rows, after));
  }

  lemma {:induction false} MatchPositions(w: World, rows: seq<Candidate>, i: nat, n: nat, k: nat) returns (p: nat)
    requires i <= n <= |rows| && k < |MatchesIn(w, rows, i, n)|
    ensures i <= p < n && rows[p] == MatchesIn(w, rows, i, n)[k] && Matches(w, rows[p])
    ensures MatchesIn(w, rows, i, p) == MatchesIn(w, rows, i, n)[..k]
    decreases n
  {
    var before := MatchesIn(w, rows, i, n - 1);
    if k < |before| {
      p := MatchPositions(w, rows, i, n - 1, k);
      assert MatchesIn(w, rows, i, n)[..k] == before[..k];
    } else {
      p := n - 1;
    }
  }

  lemma OneMoreShown(all: seq<Candidate>, limit: nat)
    requires 0 < limit <= |all|
    ensures all[..limit] == all[..limit - 1] + [all[limit - 1]]
  {
  }

  lemma MatchStep(w: World, rows: seq<Candidate>, i: nat, p: nat)
    requires i <= p < |rows| && Matches(w, rows[p])
    ensures MatchesIn(w, rows, i, p + 1) == MatchesIn(w, rows, i, p) + [rows[p]]
  {
    hide Matches;
  }

  lemma CursorIsLastShown(w: World, rows: seq<Candidate>, after: Option<int>, limit: nat, items: seq<Candidate>, next: Option<int>)
    requires AllWithin(rows) && limit > 0 && IsSearchPage(w, rows, after, limit, items, next) && next.Some?
    ensures var all := AllMatches(w, rows, StartOf(rows, after));
            |all| > limit && items == all[..limit] && next == Some(all[limit - 1].key)
  {
    hide MatchesIn, StartOf;
    ReachAll(rows, StartOf(rows, after));
  }

  /** Going on from the cursor of a page, the matches left are those the page did not show. */
  lemma CursorContinues(w: World, rows: seq<Candidate>, after: Option<int>, limit: nat, items: seq<Candidate>, next: Option<int>)
    requires Ordered(rows) && AllWithin(rows) && limit > 0 && IsSearchPage(w, rows, after, limit, items, next) && next.Some?
    ensures AllMatches(w, rows, StartOf(rows, after)) == items + AllMatches(w, rows, StartOf(rows, next))
    ensures StartOf(rows, next) > StartOf(rows, after)
  {
    hide IsSearchPage, AllWithin, Ordered, AllMatches, StartOf;
    CursorIsLastShown(w, rows, after, limit, items, next);
    var p := ShownThenRest(w, rows, StartOf(rows, after), limit);
    AfterLast(rows, p + 1);
  }

  lemma ShownThenRest(w: World, rows: seq<Candidate>, start: nat, limit: nat) returns (p: nat)
    requires start <= |rows| && 0 < limit <= |AllMatches(w, rows, start)|
    ensures start <= p < |rows| && rows[p] == AllMatches(w, rows, start)[limit - 1]
    ensures AllMatches(w, rows, start) == AllMatches(w, rows, start)[..limit] + AllMatches(w, rows, p + 1)
  {
    hide Matches, MatchesIn;
    p := MatchPositions(w, rows, start, |rows|, limit - 1);
    MatchesSplit(w, rows, start, p + 1, |rows|);
    MatchStep(w, rows, start, p);
    OneMoreShown(AllMatches(w, rows, start), limit);
  }

  /** Iterated pages give every match once and in order, whatever the limits and the batch boundaries. */
  method SearchAll(w: World, rows: seq<Candidate>, limits: nat -> nat) returns (failed: bool, out: seq<Candidate>)
    requires Ordered(rows) && AllWithin(rows) && forall k: nat :: limits(k) > 0
    ensures !failed ==> out == AllMatches(w, rows, 0)
    ensures failed ==> exists from :: w.searchFails(from)
  {
    hide Hit, Ordered, AllWithin, MatchesIn, IsSearchPage, StartOf;
    out := [];
    StartOfCatalog(rows);
    var after: Option<int> := None;
    var k: nat := 0;
    while true
      invariant AllMatches(w, rows, 0) == out + AllMatches(w, rows, StartOf(rows, after))
      decreases |rows| - StartOf(rows, after)
    {
      var items, next;
      failed, items, next := CollectHistorySearchItems(w, rows, after, limits(k));
      if failed {
        return;
      }
      SearchPageIsNextMatches(w, rows, after, limits(k), items, next);
      out := out + items;
      if next.None? {
        return;
      }
      CursorContinues(w, rows, after, limits(k), items, next);
      after := next;
      k := k + 1;
    }
  }

  lemma StartOfCatalog(rows: seq<Candidate>)
    ensures StartOf(rows, None) == 0
  {
  }

  /** A row outside its root cuts a search short: the match 200 rows later is neither shown nor promised. */
  lemma RowOutsideRootHidesMatch(w: World, rows: seq<Candidate>, items: seq<Candidate>, next: Option<int>)
    requires |rows| == BATCH_LIMIT + 1 && !rows[0].withinRoot && Matches(w, rows[BATCH_LIMIT])
    requires forall i | 0 < i < BATCH_LIMIT :: Hit(w, rows[i]).None?
    requires IsSearchPage(w, rows, None, 50, items, next)
    ensures items == [] && next.None? && rows[BATCH_LIMIT] in AllMatches(w, rows, 0)
  {
    hide Hit;
    WithinSize(rows[..BATCH_LIMIT]);
    assert !rows[..BATCH_LIMIT][0].withinRoot;
    assert rows[0..BATCH_LIMIT] == rows[..BATCH_LIMIT];
    assert Reach(rows, 0) == BATCH_LIMIT;
    NoMatches(w, rows, BATCH_LIMIT);
  }

  lemma {:induction false} NoMatches(w: World, rows: seq<Candidate>, n: nat)
    requires n <= |rows| && forall i | 0 <= i < n :: !Matches(w, rows[i])
    ensures MatchesIn(w, rows, 0, n) == []
  {
    if n > 0 {
      NoMatches(w, rows, n - 1);
    }
  }

  // ---- The session list -------------------------------------------------------------------------

  datatype SessionRecord = SessionRecord(path: string, lastActivityAt: int, title: string)

  datatype StatusFilter = OpenOnly | CurrentOnly | AnyStatus

  /** The status rule of searches and of the session list: "open" means open but not current. */
  predicate HistoryStatusMatches(status: StatusFilter, open: bool, current: bool) {
    match status
    case OpenOnly => open && !current
    case CurrentOnly => current
    case AnyStatus => true
  }

  /** The runtime state a status filter looks at. */
  datatype Runtime = Runtime(open: string -> bool, active: string)

  predicate Admits(status: StatusFilter, rt: Runtime, r: SessionRecord) {
    HistoryStatusMatches(status, rt.open(r.path), r.path == rt.active)
  }

  /** The current session is the active one; the open ones are all others that are open. */
  lemma StatusTold(rt: Runtime, r: SessionRecord)
    ensures Admits(CurrentOnly, rt, r) <==> r.path == rt.active
    ensures Admits(OpenOnly, rt, r) <==> rt.open(r.path) && r.path != rt.active
    ensures Admits(AnyStatus, rt, r)
  {
  }

  /** Where a page goes on: after so many records of the catalog at one revision. */
  datatype SessionCursor = SessionCursor(revision: int, index: nat)

  /** A page of the session list; or what had been collected when a query broke, or when the catalog had moved on
      to another revision. */
  datatype SessionPage =
    | SessionPage(items: seq<SessionRecord>, next: Option<SessionCursor>)
    | PartialPage(items: seq<SessionRecord>)
    | StalePage(items: seq<SessionRecord>)

  /** What the k-th query of a call meets: an error, or the catalog at some revision. */
  datatype Answer = Broken | At(revision: int)

  /** A page of the catalog itself. */
  datatype CatalogPage = CatalogPage(items: seq<SessionRecord>, next: Option<nat>)

  /** The catalog's page from index `from`: the next `limit` records, and where to go on. */
  function ListSessions(records: seq<SessionRecord>, from: nat, limit: nat): (page: CatalogPage)
    requires from <= |records|
  {
    if from + limit < |records| then CatalogPage(records[from..from + limit], Some(from + limit))
    else CatalogPage(records[from..], None)
  }

  /** The records of [i, n) that the status filter admits, in order. */
  function Admitted(status: StatusFilter, rt: Runtime, records: seq<SessionRecord>, i: nat, n: nat): seq<SessionRecord>
    requires i <= n <= |records|
    decreases n - i
  {
    if i == n then [] else Admitted(status, rt, records, i, n - 1) + if Admits(status, rt, records[n - 1]) then [records[n - 1]] else []
  }

  /** `items` are the first `limit` admitted records from `from`; when full the page goes on right after its last
      record, if the catalog has any more. */
  ghost predicate IsSessionPage(status: StatusFilter, rt: Runtime, records: seq<SessionRecord>, from: nat, limit: nat,
                                items: seq<SessionRecord>, next: Option<nat>)
    requires from <= |records|
  {
    if next.Some? then
      from < next.value <= |records| && items == Admitted(status, rt, records, from, next.value) && |items| == limit
    else items == Admitted(status, rt, records, from, |records|) && |items| <= limit
  }

  /** `items` are the admitted records from `from` up to some place, and no full page. */
  ghost predicate IsStartOfPage(status: StatusFilter, rt: Runtime, records: seq<SessionRecord>, from: nat, limit: nat, items: seq<SessionRecord>)
    requires from <= |records|
  {
    |items| < limit && exists m :: from <= m <= |records| && items == Admitted(status, rt, records, from, m)
  }

  lemma {:induction false} AdmittedSplit(status: StatusFilter, rt: Runtime, records: seq<SessionRecord>, i: nat, m: nat, n: nat)
    requires i <= m <= n <= |records|
    ensures Admitted(status, rt, records, i, n) == Admitted(status, rt, records, i, m) + Admitted(status, rt, records, m, n)
    decreases n
  {
    if m < n {
      AdmittedSplit(status, rt, records, i, m, n - 1);
    }
  }

  lemma AdmittedStep(status: StatusFilter, rt: Runtime, records: seq<SessionRecord>, i: nat, n: nat)
    requires i <= n < |records|
    ensures Admitted(status, rt, records, i, n + 1) ==
            Admitted(status, rt, records, i, n) + if Admits(status, rt, records[n]) then [records[n]] else []
  {
    hide Admits;
  }

  lemma NoneAdmitted(status: StatusFilter, rt: Runtime, records: seq<SessionRecord>, i: nat)
    requires i <= |records|
    ensures Admitted(status, rt, records, i, i) == []
  {
  }

  /** Takes the admitted records of a catalog page until `limit` are held. */
  method TakeAdmitted(status: StatusFilter, rt: Runtime, records: seq<SessionRecord>, ghost start: nat, ghost from: nat,
                      batch: seq<SessionRecord>, limit: nat, held: seq<SessionRecord>)
    returns (items: seq<SessionRecord>, taken: nat, full: bool)
    requires start <= from && from + |batch| <= |records| && batch == records[from..from + |batch|]
    requires held == Admitted(status, rt, records, start, from) && |held| < limit
    ensures taken <= |batch| && items == Admitted(status, rt, records, start, from + taken)
    ensures if full then |items| == limit && taken > 0 else |items| < limit && taken == |batch|
    ensures status.AnyStatus? ==> |items| == |held| + taken
  {
    hide Admitted;
    items := held;
    for i := 0 to |batch|
      invariant |items| < limit && items == Admitted(status, rt, records, start, from + i)
      invariant status.AnyStatus? ==> |items| == |held| + i
    {
      AdmittedStep(status, rt, records, start, from + i);
      var record := batch[i];
      if status.OpenOnly? && (!rt.open(record.path) || record.path == rt.active) {
        continue;
      }
      if status.CurrentOnly? && record.path != rt.active {
        continue;
      }
      items := items + [record];
      if |items| == limit {
        return items, i + 1, true;
      }
    }
    return items, |batch|, false;
  }

  /** Every query meets the catalog at revision `r`. */
  ghost predicate Steady(answers: nat -> Answer, r: int) {
    forall k: nat :: answers(k) == At(r)
  }

  function StartIndex(cursor: Option<SessionCursor>): nat {
    if cursor.Some? then cursor.value.index else 0
  }

  /** Pages through the catalog until a page of admitted records is full. Without a runtime filter every
      record is admitted and the first catalog page already fills it. */
  method ListHistorySessions(status: StatusFilter, rt: Runtime, catalog: int -> seq<SessionRecord>, answers: nat -> Answer,
                             cursor: Option<SessionCursor>, limit: nat)
    returns (page: SessionPage)
    requires cursor.Some? ==> cursor.value.index <= |catalog(cursor.value.revision)|
    requires 1 <= limit <= 200
    ensures match page
            case SessionPage(items, next) =>
              answers(0).At? && (cursor.Some? ==> answers(0).revision == cursor.value.revision) &&
              (next.Some? ==> next.value.revision == answers(0).revision) &&
              IsSessionPage(status, rt, catalog(answers(0).revision), StartIndex(cursor), limit, items,
                            if next.Some? then Some(next.value.index) else None)
            case PartialPage(items) =>
              (exists k: nat :: answers(k).Broken?) &&
              (items == [] || (answers(0).At? && StartIndex(cursor) <= |catalog(answers(0).revision)| &&
                               IsStartOfPage(status, rt, catalog(answers(0).revision), StartIndex(cursor), limit, items)))
            case StalePage(items) =>
              (exists k: nat :: answers(k).At? && answers(k) != (if k == 0 && cursor.Some? then At(cursor.value.revision) else answers(0))) &&
              (items == [] || (answers(0).At? && StartIndex(cursor) <= |catalog(answers(0).revision)| &&
                               IsStartOfPage(status, rt, catalog(answers(0).revision), StartIndex(cursor), limit, items)))
    ensures forall r | Steady(answers, r) && (cursor.Some? ==> cursor.value.revision == r) :: page.SessionPage?
  {
    hide Admitted;
    if answers(0).Broken? {
      return PartialPage([]);
    }
    var revision := answers(0).revision;
    if cursor.Some? && cursor.value.revision != revision {
      return StalePage([]);
    }
    var records, start := catalog(revision), StartIndex(cursor);
    var items: seq<SessionRecord> := [];
    var from := start;
    NoneAdmitted(status, rt, records, start);
    var k: nat := 0;
    while true
      invariant start <= from <= |records| && |items| < limit && answers(k) == At(revision)
      invariant items == Admitted(status, rt, records, start, from)
      invariant status.AnyStatus? ==> from == start
      decreases |records| - from
    {
      var batch := ListSessions(records, from, limit);
      var taken, full;
      items, taken, full := TakeAdmitted(status, rt, records, start, from, batch.items, limit, items);
      if full {
        var more := taken < |batch.items| || batch.next.Some?;
        return SessionPage(items, if more then Some(SessionCursor(revision, from + taken)) else None);
      }
      if status.AnyStatus? || batch.next.None? {
        return SessionPage(items, None);
      }
      from := batch.next.value;
      k := k + 1;
      if answers(k).Broken? {
        return PartialPage(items);
      }
      if answers(k).revision != revision {
        return StalePage(items);
      }
    }
  }

  ghost predicate AlwaysSteady(answers: nat -> (nat -> Answer), r: int) {
    forall c: nat :: Steady(answers(c), r)
  }

  /** While the catalog answers at one revision, iterated pages give every admitted record once and in order. */
  method ListAllSessions(status: StatusFilter, rt: Runtime, catalog: int -> seq<SessionRecord>, answers: nat -> (nat -> Answer), limit: nat)
    returns (ok: bool, out: seq<SessionRecord>)
    requires 1 <= limit <= 200
    ensures ok ==> answers(0)(0).At? && var records := catalog(answers(0)(0).revision); out == Admitted(status, rt, records, 0, |records|)
    ensures forall r | AlwaysSteady(answers, r) :: ok
  {
    out := [];
    var cursor: Option<SessionCursor> := None;
    var c: nat := 0;
    ghost var revision := if answers(0)(0).At? then answers(0)(0).revision else 0;
    ghost var records := catalog(revision);
    NoneAdmitted(status, rt, records, 0);
    hide Admitted;
    while true
      invariant cursor.Some? ==> cursor.value.revision == revision && answers(0)(0) == At(revision) && c > 0
      invariant cursor.None? ==> c == 0
      invariant StartIndex(cursor) <= |records| && out == Admitted(status, rt, records, 0, StartIndex(cursor))
      decreases |records| - StartIndex(cursor)
    {
      var page := ListHistorySessions(status, rt, catalog, answers(c), cursor, limit);
      if !page.SessionPage? {
        return false, out;
      }
      out := out + page.items;
      if page.next.None? {
        AdmittedSplit(status, rt, records, 0, StartIndex(cursor), |records|);
        return true, out;
      }
      AdmittedSplit(status, rt, records, 0, StartIndex(cursor), page.next.value.index);
      cursor := page.next;
      c := c + 1;
    }
  }
}
