/** The windowed read view of one session, and the state a page derives from messages outside its window:
replayed planner state, tool results and todo lists.
*/
module HistorySource {
  import opened HistoryModel
  import opened HistoryConvert

  const HISTORY_LOOKUP_CHUNK_MESSAGES: nat := 128

  datatype Source = Source(
    msgs: seq<Message>,
    turns: seq<nat>,                       // visible turn of each message; 0 before the first turn
    totalTurns: nat,
    revision: int,
    revKnown: bool,
    digest: string,
    fetchFails: (nat, nat) -> bool,        // decode or I/O failures of a window
    windowBytes: Option<(nat, nat) -> int>)
  {
    ghost predicate Valid() {
      (revKnown || revision == 0) && |turns| == |msgs| && forall i, j | 0 <= i <= j < |turns| :: turns[i] <= turns[j]
    }

    ghost predicate NeverFails() {
      forall lo: nat, hi: nat :: !fetchFails(lo, hi)
    }
  }

  method Fetch(src: Source, lo: nat, hi: nat) returns (r: Result<seq<Message>>)
    requires lo <= hi <= |src.msgs|
    ensures r.Ok? ==> r.value == src.msgs[lo..hi]
    ensures r.Err? ==> !src.NeverFails()
  {
    if src.fetchFails(lo, hi) {
      return Err;
    }
    return Ok(src.msgs[lo..hi]);
  }

  // ---- Visible turns -----------------------------------------------------------------

  function VisibleTurns(env: Env, msgs: seq<Message>): (turns: seq<nat>)
    ensures |turns| == |msgs|
    ensures forall i, j | 0 <= i <= j < |turns| :: turns[i] <= turns[j]
    ensures forall i | 0 <= i < |turns| :: turns[i] <= |msgs|
  {
    if msgs == [] then []
    else
      var before := VisibleTurns(env, msgs[..|msgs| - 1]);
      var last := if before == [] then 0 else before[|before| - 1];
      before + [if IsVisibleHistoryUser(env, msgs[|msgs| - 1]) then last + 1 else last]
  }

  /** The messages counted as turns among the first `n`. */
  function TurnMessages(env: Env, msgs: seq<Message>, n: nat): set<nat>
    requires n <= |msgs|
  {
    set k: nat | k < n && IsVisibleHistoryUser(env, msgs[k])
  }

  lemma TurnMessagesGrow(env: Env, msgs: seq<Message>, n: nat)
    requires n < |msgs|
    ensures |TurnMessages(env, msgs, n + 1)| == |TurnMessages(env, msgs, n)| + (if IsVisibleHistoryUser(env, msgs[n]) then 1 else 0)
    ensures TurnMessages(env, msgs, 0) == {}
  {
    hide IsVisibleHistoryUser;
    assert TurnMessages(env, msgs, n + 1) == TurnMessages(env, msgs, n) + (if IsVisibleHistoryUser(env, msgs[n]) then {n} else {});
  }

  lemma TurnMessagesBefore(env: Env, msgs: seq<Message>, n: nat, m: nat)
    requires n <= m <= |msgs|
    ensures TurnMessages(env, msgs[..m], n) == TurnMessages(env, msgs, n)
  {
    hide IsVisibleHistoryUser;
  }

  /** The visible turn of a message is the number of turn messages up to it. */
  lemma {:induction false} VisibleTurnsCount(env: Env, msgs: seq<Message>, i: nat)
    requires i < |msgs|
    ensures VisibleTurns(env, msgs)[i] == |TurnMessages(env, msgs, i + 1)|
  {
    hide IsVisibleHistoryUser, TurnMessages;
    var n := |msgs| - 1;
    TurnMessagesGrow(env, msgs, n);
    TurnMessagesBefore(env, msgs, i, n);
    if i < n {
      VisibleTurnsCount(env, msgs[..n], i);
      TurnMessagesBefore(env, msgs, i + 1, n);
    } else if n > 0 {
      VisibleTurnsCount(env, msgs[..n], n - 1);
    }
  }

  /** `revision` is that of the last persisted state, when known; an unknown one is stored as 0. */
  method NewInMemorySource(env: Env, msgs: seq<Message>, revision: Option<int>, digest: string) returns (src: Source)
    ensures src.msgs == msgs && src.Valid() && src.turns == VisibleTurns(env, msgs)
    ensures src.totalTurns == (if msgs == [] then 0 else src.turns[|msgs| - 1]) && src.digest == digest
    ensures src.revKnown == revision.Some? && src.revision == (if revision.Some? then revision.value else 0)
    ensures src.NeverFails() && src.windowBytes.None?
  {
    var turns: seq<nat> := [];
    var turn: nat := 0;
    for i := 0 to |msgs|
      invariant turns == VisibleTurns(env, msgs[..i])
      invariant turn == if turns == [] then 0 else turns[|turns| - 1]
    {
      assert msgs[..i + 1][..i] == msgs[..i];
      if IsVisibleHistoryUser(env, msgs[i]) {
        turn := turn + 1;
      }
      turns := turns + [turn];
    }
    assert msgs[..|msgs|] == msgs;
    src := Source(msgs, turns, turn, if revision.Some? then revision.value else 0, revision.Some?, digest, (lo, hi) => false, None);
  }

  // ---- Planner state of the prefix -----------------------------------------------------

  lemma {:induction false} ReplayedAppend(env: Env, st: ConvState, a: seq<Message>, m: Message)
    ensures Replayed(env, st, a + [m]) == ConsumeState(env, Replayed(env, st, a), m)
  {
    assert (a + [m])[..|a + [m]| - 1] == a;
  }

  method ConsumeChunk(env: Env, state: HistoryMessageConvertState, ghost st0: ConvState, ghost before: seq<Message>, chunk: seq<Message>)
    requires state.Value() == Replayed(env, st0, before)
    modifies state
    ensures state.Value() == Replayed(env, st0, before + chunk)
  {
    hide Replayed, ConsumeState;
    assert before + chunk[..0] == before;
    for k := 0 to |chunk|
      invariant state.Value() == Replayed(env, st0, before + chunk[..k])
    {
      state.ConsumeHistoryPlannerState(env, chunk[k]);
      ReplayedAppend(env, st0, before + chunk[..k], chunk[k]);
      assert before + chunk[..k + 1] == before + chunk[..k] + [chunk[k]];
    }
    assert chunk[..|chunk|] == chunk;
  }

  /** Replays the messages before `end`, a bounded chunk at a time. */
  method PrimeHistoryPlannerState(env: Env, src: Source, state: HistoryMessageConvertState, end: nat) returns (ok: bool)
    requires end <= |src.msgs|
    requires !state.suppressCanonicalTurn
    modifies state
    ensures ok ==> state.Value() == Replayed(env, old(state.Value()), src.msgs[..end])
    ensures !ok ==> !src.NeverFails()
  {
    if end == 0 || |state.plannerByUserHash| == 0 {
      if end > 0 {
        NoPlannerNoState(env, state.Value(), src.msgs[..end]);
      }
      return true;
    }
    ghost var st0 := state.Value();
    var lo := 0;
    assert src.msgs[..0] == [] && Replayed(env, st0, []) == st0;
    hide Replayed, ConsumeState;
    while lo < end
      invariant lo <= end
      invariant state.Value() == Replayed(env, st0, src.msgs[..lo])
    {
      var hi := if lo + HISTORY_LOOKUP_CHUNK_MESSAGES < end then lo + HISTORY_LOOKUP_CHUNK_MESSAGES else end;
      var r := Fetch(src, lo, hi);
      if r.Err? {
        return false;
      }
      ConsumeChunk(env, state, st0, src.msgs[..lo], r.value);
      assert src.msgs[..hi] == src.msgs[..lo] + src.msgs[lo..hi];
      lo := hi;
    }
    return true;
  }

  // ---- Tool results -------------------------------------------------------------------

  /** `m` is the result of the tool call `id`. */
  predicate IsResult(m: Message, id: string) {
    m.role == Tool && m.toolCallID != "" && m.toolCallID == id
  }

  /** Index of the last result of `id` in [lo, hi), or -1. */
  function LastResult(msgs: seq<Message>, lo: nat, hi: nat, id: string): (r: int)
    requires lo <= hi <= |msgs|
    ensures r == -1 || (lo <= r < hi && IsResult(msgs[r], id))
    ensures forall k | lo <= k < hi && IsResult(msgs[k], id) :: k <= r
    decreases hi - lo
  {
    if lo == hi then -1 else if IsResult(msgs[hi - 1], id) then hi - 1 else LastResult(msgs, lo, hi - 1, id)
  }

  /** Index of the first result of `id` in [lo, hi), or -1. */
  function FirstResult(msgs: seq<Message>, lo: nat, hi: nat, id: string): (r: int)
    requires lo <= hi <= |msgs|
    ensures r == -1 ==> forall k | lo <= k < hi :: !IsResult(msgs[k], id)
    ensures r != -1 ==> lo <= r < hi && IsResult(msgs[r], id) && forall k | lo <= k < r :: !IsResult(msgs[k], id)
    decreases hi - lo
  {
    if lo == hi then -1 else if IsResult(msgs[lo], id) then lo else FirstResult(msgs, lo + 1, hi, id)
  }

  /** The result a full pass shows for `id`. */
  function FullLookup(msgs: seq<Message>, id: string): int {
    LastResult(msgs, 0, |msgs|, id)
  }

  /** The result a page with window [lo, hi) shows for a call `id` of that window. */
  function PagedLookup(msgs: seq<Message>, lo: nat, hi: nat, id: string): int
    requires lo <= hi <= |msgs|
  {
    var w := LastResult(msgs, lo, hi, id);
    if w >= 0 then w else FirstResult(msgs, hi, |msgs|, id)
  }

  /** `id` called at message `i` has no result, ends on message `i` itself, or has one result only, after `i`. */
  predicate OneResultAfter(msgs: seq<Message>, i: nat, id: string) {
    var last := FullLookup(msgs, id);
    last == -1 || last == i || (last > i && FirstResult(msgs, 0, |msgs|, id) == last)
  }

  /** The windows of a call at message `i` all find the result the full pass finds exactly when the
      results of its id are in that shape. Reused ids and results before their call break it. */
  lemma PagedLookupExact(msgs: seq<Message>, i: nat, id: string)
    requires i < |msgs|
    ensures (forall lo: nat, hi: nat | lo <= i < hi <= |msgs| :: PagedLookup(msgs, lo, hi, id) == FullLookup(msgs, id))
            <==> OneResultAfter(msgs, i, id)
  {
    var last, n := FullLookup(msgs, id), |msgs|;
    if forall lo: nat, hi: nat | lo <= i < hi <= |msgs| :: PagedLookup(msgs, lo, hi, id) == FullLookup(msgs, id) {
      assert PagedLookup(msgs, i, i + 1, id) == last;
      assert PagedLookup(msgs, 0, i + 1, id) == last;
      assert PagedLookup(msgs, i, n, id) == last;
    }
  }

  /** The last result in [lo, hi) of each id. */
  function ToolResultsIn(msgs: seq<Message>, lo: nat, hi: nat): map<string, Message>
    requires lo <= hi <= |msgs|
    decreases hi - lo
  {
    if lo == hi then map[]
    else
      var before, m := ToolResultsIn(msgs, lo, hi - 1), msgs[hi - 1];
      if m.role == Tool && m.toolCallID != "" then before[m.toolCallID := m] else before
  }

  lemma {:induction false} ToolResultsAreLast(msgs: seq<Message>, lo: nat, hi: nat, id: string)
    requires lo <= hi <= |msgs|
    ensures var results, last := ToolResultsIn(msgs, lo, hi), LastResult(msgs, lo, hi, id);
            (id in results <==> last != -1) && (id in results ==> results[id] == msgs[last])
    decreases hi - lo
  {
    if lo < hi {
      ToolResultsAreLast(msgs, lo, hi - 1, id);
    }
  }

  /** The results of the window `msgs[lo..hi]`, by the id they answer. */
  method HistoryToolResultsByID(ghost msgs: seq<Message>, ghost lo: nat, window: seq<Message>) returns (out: map<string, Message>)
    requires lo + |window| <= |msgs| && window == msgs[lo..lo + |window|]
    ensures out == ToolResultsIn(msgs, lo, lo + |window|)
  {
    out := map[];
    for k := 0 to |window|
      invariant out == ToolResultsIn(msgs, lo, lo + k)
    {
      var m := window[k];
      assert msgs[lo + k] == m;
      if m.role != Tool || m.toolCallID == "" {
        continue;
      }
      out := out[m.toolCallID := m];
    }
  }

  ghost predicate CallsTool(m: Message, id: string) {
    exists c | 0 <= c < |m.toolCalls| :: m.toolCalls[c].id == id
  }

  /** `id` is called in `window`. */
  ghost predicate Called(window: seq<Message>, id: string) {
    exists k | 0 <= k < |window| :: CallsTool(window[k], id)
  }

  function LookupContent(msgs: seq<Message>, index: int): string {
    if 0 <= index < |msgs| then msgs[index].content else ""
  }

  method CallIDs(m: Message) returns (ids: set<string>)
    ensures forall id :: id in ids <==> CallsTool(m, id)
  {
    ids := {};
    for c := 0 to |m.toolCalls|
      invariant forall id :: id in ids <==> exists d | 0 <= d < c :: m.toolCalls[d].id == id
    {
      ids := ids + {m.toolCalls[c].id};
    }
  }

  /** Ids called in the window whose result is not among `results`. */
  function Wanted(window: seq<Message>, results: map<string, Message>): (want: set<string>)
    ensures forall id :: id in want <==> (id != "" && id !in results && Called(window, id))
  {
    set k, c | 0 <= k < |window| && 0 <= c < |window[k].toolCalls| &&
               window[k].toolCalls[c].id != "" && window[k].toolCalls[c].id !in results :: window[k].toolCalls[c].id
  }

  method WantedIDs(window: seq<Message>, results: map<string, Message>) returns (want: set<string>)
    ensures want == Wanted(window, results)
  {
    want := {};
    for k := 0 to |window|
      invariant forall id :: id in want <==>
                  (id != "" && id !in results && exists j | 0 <= j < k :: CallsTool(window[j], id))
    {
      var ids := CallIDs(window[k]);
      want := want + (set id | id in ids && id != "" && id !in results);
    }
  }

  function NextFound(m: Message, wanted: set<string>, found: map<string, Message>): map<string, Message> {
    if m.role == Tool && m.toolCallID != "" && m.toolCallID in wanted && m.toolCallID !in found
    then found[m.toolCallID := m] else found
  }

  /** What a scan of [hi, i) finds for the wanted ids. */
  function Scanned(msgs: seq<Message>, hi: nat, i: nat, wanted: set<string>): map<string, Message>
    requires hi <= i <= |msgs|
  {
    if i == hi then map[] else NextFound(msgs[i - 1], wanted, Scanned(msgs, hi, i - 1, wanted))
  }

  lemma {:induction false} ScannedIsFirst(msgs: seq<Message>, hi: nat, i: nat, wanted: set<string>, id: string)
    requires hi <= i <= |msgs|
    ensures var found, first := Scanned(msgs, hi, i, wanted), FirstResult(msgs, hi, i, id);
            (id in found <==> id in wanted && first != -1) && (id in found ==> found[id] == msgs[first])
  {
    if hi < i {
      ScannedIsFirst(msgs, hi, i - 1, wanted, id);
    }
  }

  /** Once nothing wanted is missing, the rest of the scan adds nothing. */
  lemma {:induction false} ScanSaturates(msgs: seq<Message>, hi: nat, i: nat, n: nat, wanted: set<string>)
    requires hi <= i <= n <= |msgs|
    requires wanted <= Scanned(msgs, hi, i, wanted).Keys
    ensures Scanned(msgs, hi, n, wanted) == Scanned(msgs, hi, i, wanted)
    decreases n
  {
    if i < n {
      ScanSaturates(msgs, hi, i, n - 1, wanted);
    }
  }

  /** Looks for the wanted results from `hi` on, and stops once none is missing. */
  method ScanResults(src: Source, hi: nat, wanted: set<string>) returns (r: Result<map<string, Message>>)
    requires hi <= |src.msgs|
    ensures r.Ok? ==> r.value == Scanned(src.msgs, hi, |src.msgs|, wanted)
    ensures r.Err? ==> !src.NeverFails()
  {
    var want := wanted;
    var found := map[];
    var i := hi;
    while i < |src.msgs| && want != {}
      invariant hi <= i <= |src.msgs|
      invariant found == Scanned(src.msgs, hi, i, wanted)
      invariant forall id :: id in want <==> id in wanted && id !in found
    {
      if src.msgs[i].role == Tool {
        var got := Fetch(src, i, i + 1);
        if got.Err? {
          return Err;
        }
        var m := got.value[0];
        if m.toolCallID != "" && m.toolCallID in want {
          found := found[m.toolCallID := m];
          want := want - {m.toolCallID};
        }
      }
      i := i + 1;
    }
    if i < |src.msgs| {
      ScanSaturates(src.msgs, hi, i, |src.msgs|, wanted);
    }
    return Ok(found);
  }

  /** The tool results a page with window [lo, hi) uses. */
  function PageResults(msgs: seq<Message>, lo: nat, hi: nat): map<string, Message>
    requires lo <= hi <= |msgs|
  {
    var results := ToolResultsIn(msgs, lo, hi);
    results + Scanned(msgs, hi, |msgs|, Wanted(msgs[lo..hi], results))
  }

  /** Adds the results that lie past the newer edge of the window, scanning as far as it takes. */
  method ExtendHistoryToolResults(src: Source, lo: nat, hi: nat, results: map<string, Message>)
    returns (r: Result<map<string, Message>>)
    requires lo <= hi <= |src.msgs|
    requires results == ToolResultsIn(src.msgs, lo, hi)
    ensures r.Ok? ==> r.value == PageResults(src.msgs, lo, hi)
    ensures r.Err? ==> !src.NeverFails()
  {
    var want := WantedIDs(src.msgs[lo..hi], results);
    var found := ScanResults(src, hi, want);
    if found.Err? {
      return Err;
    }
    return Ok(results + found.value);
  }

  /** The results of a page give its calls the contents of the paged lookup. */
  lemma PageResultsAreLookups(msgs: seq<Message>, lo: nat, hi: nat, id: string)
    requires lo <= hi <= |msgs| && id != "" && Called(msgs[lo..hi], id)
    ensures ResultContent(PageResults(msgs, lo, hi), id) == LookupContent(msgs, PagedLookup(msgs, lo, hi, id))
  {
    var results := ToolResultsIn(msgs, lo, hi);
    ToolResultsAreLast(msgs, lo, hi, id);
    ScannedIsFirst(msgs, hi, |msgs|, Wanted(msgs[lo..hi], results), id);
  }
}
