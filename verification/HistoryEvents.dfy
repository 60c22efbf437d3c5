/** The second pager: sessions in the old event format, whose rows are converted up front.

It walks backward and stops at the first row that no longer fits. The cut it finds is the one the
forward pager's budget rule gives for groups of one row.
*/
module HistoryEvents {
  import opened HistoryModel
  import opened HistorySource
  import opened HistoryEntries
  import opened HistoryPaging
  import opened HistoryPagingTheorem

  predicate OfUser(row: Row) {
    row.role == "user"
  }

  function UserTurns(rows: seq<Row>): (turns: seq<nat>)
    ensures |turns| == |rows|
    ensures forall i, j | 0 <= i <= j < |turns| :: turns[i] <= turns[j]
  {
    if rows == [] then []
    else
      var before := UserTurns(rows[..|rows| - 1]);
      var last := if before == [] then 0 else before[|before| - 1];
      before + [if OfUser(rows[|rows| - 1]) then last + 1 else last]
  }

  /** The user rows among the first `n`. */
  function UserRows(rows: seq<Row>, n: nat): set<nat>
    requires n <= |rows|
  {
    set k: nat | k < n && rows[k].role == "user"
  }

  lemma UserRowsGrow(rows: seq<Row>, n: nat)
    requires n < |rows|
    ensures |UserRows(rows, n + 1)| == |UserRows(rows, n)| + (if OfUser(rows[n]) then 1 else 0)
    ensures UserRows(rows, 0) == {}
  {
    assert UserRows(rows, n + 1) == UserRows(rows, n) + (if OfUser(rows[n]) then {n} else {});
  }

  lemma UserRowsBefore(rows: seq<Row>, n: nat, m: nat)
    requires n <= m <= |rows|
    ensures UserRows(rows[..m], n) == UserRows(rows, n)
  {
    hide OfUser;
  }

  /** The turn of a row is the number of user rows up to it. */
  lemma {:induction false} TurnsCountUsers(rows: seq<Row>, i: nat)
    requires i < |rows|
    ensures UserTurns(rows)[i] == |UserRows(rows, i + 1)|
  {
    hide OfUser, UserRows;
    var n := |rows| - 1;
    UserRowsGrow(rows, n);
    UserRowsBefore(rows, i, n);
    if i < n {
      TurnsCountUsers(rows[..n], i);
      UserRowsBefore(rows, i + 1, n);
    } else if n > 0 {
      TurnsCountUsers(rows[..n], n - 1);
    }
  }

  function RowEntry(rows: seq<Row>, turns: seq<nat>, i: nat): Entry
    requires i < |rows| == |turns|
  {
    NewHistoryEntry(i, 0, turns[i], rows[i])
  }

  function RowEntries(rows: seq<Row>, turns: seq<nat>, lo: nat, hi: nat): (es: seq<Entry>)
    requires lo <= hi <= |rows| == |turns|
    ensures |es| == hi - lo
  {
    seq(hi - lo, k requires 0 <= k < hi - lo => RowEntry(rows, turns, lo + k))
  }

  /** The rows [lo, hi) as groups of one. */
  function RowGroups(rows: seq<Row>, turns: seq<nat>, lo: nat, hi: nat): (groups: seq<Group>)
    requires lo <= hi <= |rows| == |turns|
    ensures |groups| == hi - lo
  {
    seq(hi - lo, k requires 0 <= k < hi - lo => Group(lo + k, [RowEntry(rows, turns, lo + k)]))
  }

  function EventWindow(turns: seq<nat>, budget: int, hi: nat): (lo: nat)
    requires 0 < hi <= |turns| && budget > 0
    requires forall i, j | 0 <= i <= j < |turns| :: turns[i] <= turns[j]
    ensures lo < hi
  {
    var newest := turns[hi - 1];
    var oldest := if newest == 0 then 0 else if newest - budget + 1 > 1 then newest - budget + 1 else 1;
    if oldest <= 1 then 0 else FirstAtLeast(turns, hi, oldest)
  }

  /** Where the page ending before `hi` starts: the window less the groups the budget rule drops. */
  function EventPageStart(rows: seq<Row>, req: Request, hi: nat): (lo: nat)
    requires 0 < hi <= |rows| && req.turns > 0
    ensures lo < hi
  {
    var turns := UserTurns(rows);
    var w := EventWindow(turns, req.turns, hi);
    w + Dropped(RowGroups(rows, turns, w, hi), req.entries, req.bytes)
  }

  datatype EventPage = EventStale | EventRows(entries: seq<Entry>, hasOlder: bool, before: nat, totalTurns: nat, startTurn: nat, endTurn: nat)

  lemma OneRowSums(rows: seq<Row>, turns: seq<nat>, lo: nat, hi: nat)
    requires lo < hi <= |rows| == |turns|
    ensures var groups := RowGroups(rows, turns, lo, hi);
            Count(groups) == 1 + Count(RowGroups(rows, turns, lo + 1, hi)) &&
            Bytes(groups) == EntryBytes(RowEntry(rows, turns, lo)) + Bytes(RowGroups(rows, turns, lo + 1, hi))
  {
    hide RowEntry, EntryBytes;
    var groups := RowGroups(rows, turns, lo, hi);
    assert groups[1..] == RowGroups(rows, turns, lo + 1, hi);
    assert groups[0].entries == [RowEntry(rows, turns, lo)];
    var e := RowEntry(rows, turns, lo);
    assert EntriesBytes([e]) == EntriesBytes([e][..0]) + EntryBytes(e);
  }

  lemma RowSuffix(rows: seq<Row>, turns: seq<nat>, w: nat, lo: nat, hi: nat)
    requires w <= lo <= hi <= |rows| == |turns|
    ensures RowGroups(rows, turns, w, hi)[lo - w..] == RowGroups(rows, turns, lo, hi)
  {
    hide RowEntry;
  }

  /** The backward walk: the newest rows of [w, hi) until one does not fit, newest first. */
  method KeepBackward(rows: seq<Row>, turns: seq<nat>, w: nat, hi: nat, req: Request) returns (kept: seq<Entry>, lo: nat)
    requires w < hi <= |rows| == |turns|
    ensures lo == w + Dropped(RowGroups(rows, turns, w, hi), req.entries, req.bytes)
    ensures |kept| == hi - lo && forall k | 0 <= k < hi - lo :: kept[k] == RowEntry(rows, turns, hi - 1 - k)
  {
    hide RowEntry, EntryBytes, RowGroups, Dropped;
    kept := [];
    var entryCount, byteCount := 0, 0;
    lo := hi;
    var i: int := hi - 1;
    NoRows(rows, turns, hi);
    while i >= w
      invariant w - 1 <= i < hi && lo == i + 1
      invariant |kept| == hi - lo && forall k | 0 <= k < hi - lo :: kept[k] == RowEntry(rows, turns, hi - 1 - k)
      invariant entryCount == Count(RowGroups(rows, turns, lo, hi)) == |kept|
      invariant byteCount == Bytes(RowGroups(rows, turns, lo, hi))
      invariant |kept| > 1 ==> Fits(RowGroups(rows, turns, lo, hi), req.entries, req.bytes)
      decreases i
    {
      var entry := EntryAt(rows, turns, i);
      var b := InlineBytes(entry);
      OneRowSums(rows, turns, i, hi);
      if |kept| > 0 && (entryCount + 1 > req.entries || byteCount + b > req.bytes) {
        RowSuffix(rows, turns, w, lo - 1, hi);
        break;
      }
      kept := kept + [entry];
      entryCount, byteCount, lo := entryCount + 1, byteCount + b, i;
      i := i - 1;
    }
    RowSuffix(rows, turns, w, lo, hi);
    DroppedByGreedy(RowGroups(rows, turns, w, hi), req.entries, req.bytes, lo - w);
  }

  method EntryAt(rows: seq<Row>, turns: seq<nat>, i: nat) returns (e: Entry)
    requires i < |rows| == |turns|
    ensures e == RowEntry(rows, turns, i)
  {
    e := NewHistoryEntry(i, 0, turns[i], rows[i]);
  }

  lemma NoRows(rows: seq<Row>, turns: seq<nat>, hi: nat)
    requires hi <= |rows| == |turns|
    ensures RowGroups(rows, turns, hi, hi) == [] && Count([]) == Bytes([]) == 0
    ensures forall w | 0 <= w <= hi :: |RowGroups(rows, turns, w, hi)| == hi - w
  {
  }

  method CountTurns(rows: seq<Row>) returns (turns: seq<nat>, total: nat)
    ensures turns == UserTurns(rows)
    ensures total == if rows == [] then 0 else turns[|rows| - 1]
  {
    turns, total := [], 0;
    for i := 0 to |rows|
      invariant turns == UserTurns(rows[..i])
      invariant total == if i == 0 then 0 else turns[i - 1]
    {
      assert rows[..i + 1][..i] == rows[..i];
      if rows[i].role == "user" {
        total := total + 1;
      }
      turns := turns + [total];
    }
    assert rows[..|rows|] == rows;
  }

  method EventWindowStart(turns: seq<nat>, n: int, hi: nat) returns (w: nat)
    requires 0 < hi <= |turns| && n > 0
    requires forall i, j | 0 <= i <= j < |turns| :: turns[i] <= turns[j]
    ensures w == EventWindow(turns, n, hi) && w < hi
  {
    var newestTurn := turns[hi - 1];
    var oldestTurn := 0;
    if newestTurn > 0 {
      oldestTurn := if newestTurn - n + 1 > 1 then newestTurn - n + 1 else 1;
    }
    w := SearchFirst(turns, hi, oldestTurn);
    if oldestTurn <= 1 {
      w := 0;
    }
  }

  method PageHistoryEventRows(digest: string, rows: seq<Row>, req: Request) returns (page: EventPage)
    requires req.turns > 0
    ensures page.EventRows? ==> page.totalTurns == |UserRows(rows, |rows|)|
    ensures page.EventStale? <==> req.cursor.Some? && req.cursor.value.digest != digest
    ensures page.EventRows? ==>
              var hi := if req.cursor.Some? && req.cursor.value.before < |rows| then req.cursor.value.before else |rows|;
              var lo := if hi == 0 then 0 else EventPageStart(rows, req, hi);
              page.entries == RowEntries(rows, UserTurns(rows), lo, hi) &&
              page.hasOlder == (lo > 0) && page.before == lo &&
              TurnBounds(page.entries, page.startTurn, page.endTurn)
  {
    hide RowEntry, EntryBytes, RowGroups, Dropped, UserTurns;
    if req.cursor.Some? && req.cursor.value.digest != digest {
      return EventStale;
    }
    var hi := |rows|;
    if req.cursor.Some? && req.cursor.value.before < hi {
      hi := req.cursor.value.before;
    }
    var turns, total := CountTurns(rows);
    if |rows| > 0 {
      TurnsCountUsers(rows, |rows| - 1);
    } else {
      assert UserRows(rows, 0) == {};
    }
    if hi == 0 {
      return EventRows([], false, 0, total, 0, 0);
    }
    var w := EventWindowStart(turns, req.turns, hi);
    hide EventWindow;
    var kept, lo := KeepBackward(rows, turns, w, hi, req);
    var entries := Reversed(kept);
    assert entries == RowEntries(rows, turns, lo, hi);
    var first, last := TurnRange(entries);
    return EventRows(entries, lo > 0, lo, total, first, last);
  }

  method Reversed<T>(s: seq<T>) returns (r: seq<T>)
    ensures |r| == |s| && forall k | 0 <= k < |s| :: r[k] == s[|s| - 1 - k]
  {
    r := [];
    for i := 0 to |s|
      invariant |r| == i && forall k | 0 <= k < i :: r[k] == s[|s| - 1 - k]
    {
      r := r + [s[|s| - 1 - i]];
    }
  }

  /** The pages from the one ending before `hi` to the oldest, concatenated oldest first. */
  function EventWalk(rows: seq<Row>, reqs: nat -> Request, hi: nat): seq<Entry>
    requires hi <= |rows| && forall k: nat :: reqs(k).turns > 0
    decreases hi
  {
    if hi == 0 then []
    else
      var lo := EventPageStart(rows, reqs(hi), hi);
      EventWalk(rows, reqs, lo) + RowEntries(rows, UserTurns(rows), lo, hi)
  }

  /** Event pages give every row once and in order, whatever the budgets; each cursor moves back. */
  lemma {:induction false} EventPagesAreAllRows(rows: seq<Row>, reqs: nat -> Request, hi: nat)
    requires hi <= |rows| && forall k: nat :: reqs(k).turns > 0
    ensures EventWalk(rows, reqs, hi) == RowEntries(rows, UserTurns(rows), 0, hi)
    decreases hi
  {
    hide RowEntry, UserTurns, RowGroups, Dropped;
    if hi > 0 {
      EventPagesAreAllRows(rows, reqs, EventPageStart(rows, reqs(hi), hi));
    }
  }

  /** A row is on the page ending before `hi` if and only if it is within the turn budget, and is the newest or the other
      budgets hold all rows from it on. */
  lemma EventPageExact(rows: seq<Row>, req: Request, hi: nat, i: nat)
    requires i < hi <= |rows| && req.turns > 0
    ensures EventPageStart(rows, req, hi) <= i <==>
            WithinTurns(UserTurns(rows), req.turns, hi, i) && (i == hi - 1 || Holds(RowEntries(rows, UserTurns(rows), i, hi), req))
  {
    hide RowEntry, RowEntries, RowGroups, Dropped, UserTurns, Holds;
    var turns := UserTurns(rows);
    var w := EventWindow(turns, req.turns, hi);
    assert w <= i <==> WithinTurns(turns, req.turns, hi, i);
    if w <= i {
      KeptExact(RowGroups(rows, turns, w, hi), req, i - w);
      RowSuffix(rows, turns, w, i, hi);
      FlatRows(rows, turns, i, hi);
    }
  }

  lemma {:induction false} FlatRows(rows: seq<Row>, turns: seq<nat>, lo: nat, hi: nat)
    requires lo <= hi <= |rows| == |turns|
    ensures Flatten(RowGroups(rows, turns, lo, hi)) == RowEntries(rows, turns, lo, hi)
    decreases hi - lo
  {
    hide RowEntry;
    if lo < hi {
      FlatRows(rows, turns, lo + 1, hi);
      assert RowGroups(rows, turns, lo, hi)[1..] == RowGroups(rows, turns, lo + 1, hi);
      assert RowEntries(rows, turns, lo, hi) == [RowEntry(rows, turns, lo)] + RowEntries(rows, turns, lo + 1, hi);
    }
  }
}
