/** Todo lists of a transcript: what each successful todo_write call shows after the completed steps that followed it.

A page derives them in two bounded passes over the whole session, so that a cut never shows a stale list.
*/
module HistoryTodo {
  import opened HistoryModel
  import HistoryRows
  import opened HistorySource

  type Todos = seq<string>

  /** The receipt functions of the evidence package, left uninterpreted. */
  datatype TodoEnv = TodoEnv(
    todosOf: string -> Todos,                 // todo items of a todo_write call's arguments
    normalize: Todos -> Todos,
    stepOf: string -> string,                 // step named by a complete_step call's arguments
    matchStep: (string, Todos) -> Option<int>, // 1-based index of the item a step names
    advance: (Todos, int) -> Option<Todos>,   // the list after completing an item, if that advances it
    toJSON: Todos -> Option<string>)

  datatype TodoState = TodoState(out: map<string, string>, todos: Todos, latestTodoID: string)

  const EMPTY_TODO: TodoState := TodoState(map[], [], "")

  function Recorded(tenv: TodoEnv, st: TodoState): TodoState {
    var args := tenv.toJSON(st.todos);
    if args.Some? then st.(out := st.out[st.latestTodoID := args.value]) else st
  }

  function ConsumeCall(tenv: TodoEnv, successful: set<string>, st: TodoState, tc: ToolCall): TodoState {
    if tc.id == "" || tc.id !in successful then st
    else if tc.name == "todo_write" then
      var todos := tenv.todosOf(tc.arguments);
      if todos == [] then st else Recorded(tenv, st.(todos := tenv.normalize(todos), latestTodoID := tc.id))
    else if tc.name == "complete_step" then
      if st.latestTodoID == "" || st.todos == [] then st
      else
        var at := tenv.matchStep(tenv.stepOf(tc.arguments), st.todos);
        if at.None? then st
        else
          var advanced := tenv.advance(st.todos, at.value - 1);
          if advanced.None? then st else Recorded(tenv, st.(todos := advanced.value))
    else st
  }

  function ConsumeCalls(tenv: TodoEnv, successful: set<string>, st: TodoState, calls: seq<ToolCall>): TodoState {
    if calls == [] then st
    else ConsumeCall(tenv, successful, ConsumeCalls(tenv, successful, st, calls[..|calls| - 1]), calls[|calls| - 1])
  }

  function TodoAfter(tenv: TodoEnv, successful: set<string>, msgs: seq<Message>): TodoState {
    if msgs == [] then EMPTY_TODO
    else ConsumeCalls(tenv, successful, TodoAfter(tenv, successful, msgs[..|msgs| - 1]), msgs[|msgs| - 1].toolCalls)
  }

  predicate SucceedsIn(env: Env, m: Message, id: string) {
    IsResult(m, id) && !ToolResultFailed(env, m.content)
  }

  /** Ids of the tool calls with a result that did not fail. */
  function Successful(env: Env, msgs: seq<Message>): (ids: set<string>)
  {
    set k | 0 <= k < |msgs| && SucceedsIn(env, msgs[k], msgs[k].toolCallID) :: msgs[k].toolCallID
  }

  /** The todo arguments a full pass shows. */
  function TodoArgs(env: Env, tenv: TodoEnv, msgs: seq<Message>): map<string, string> {
    TodoAfter(tenv, Successful(env, msgs), msgs).out
  }

  class HistoryTodoArgsState {
    const successful: set<string>
    var out: map<string, string>
    var todos: Todos
    var latestTodoID: string

    ghost function Value(): TodoState
      reads this
    {
      TodoState(out, todos, latestTodoID)
    }

    constructor (successful: set<string>)
      ensures this.successful == successful && Value() == EMPTY_TODO
    {
      this.successful := successful;
      out, todos, latestTodoID := map[], [], "";
    }

    method Record(tenv: TodoEnv)
      modifies this
      ensures Value() == Recorded(tenv, old(Value()))
    {
      var args := tenv.toJSON(todos);
      if args.Some? {
        out := out[latestTodoID := args.value];
      }
    }

    method Consume(tenv: TodoEnv, m: Message)
      modifies this
      ensures Value() == ConsumeCalls(tenv, successful, old(Value()), m.toolCalls)
    {
      ghost var st0 := Value();
      for i := 0 to |m.toolCalls|
        invariant Value() == ConsumeCalls(tenv, successful, st0, m.toolCalls[..i])
      {
        var tc := m.toolCalls[i];
        assert m.toolCalls[..i + 1][..i] == m.toolCalls[..i];
        if tc.id == "" || tc.id !in successful {
          continue;
        }
        if tc.name == "todo_write" {
          var listed := tenv.todosOf(tc.arguments);
          if |listed| == 0 {
            continue;
          }
          todos, latestTodoID := tenv.normalize(listed), tc.id;
          Record(tenv);
        } else if tc.name == "complete_step" {
          if latestTodoID == "" || |todos| == 0 {
            continue;
          }
          var at := tenv.matchStep(tenv.stepOf(tc.arguments), todos);
          if at.None? {
            continue;
          }
          var advanced := tenv.advance(todos, at.value - 1);
          if advanced.None? {
            continue;
          }
          todos := advanced.value;
          Record(tenv);
        }
      }
      assert m.toolCalls[..|m.toolCalls|] == m.toolCalls;
    }
  }

  /** First pass: the ids with a successful result, read a bounded chunk at a time. */
  method SuccessfulIDs(env: Env, src: Source) returns (r: Result<set<string>>)
    ensures r.Ok? ==> r.value == Successful(env, src.msgs)
    ensures r.Err? ==> !src.NeverFails()
  {
    hide Successful, ToolResultFailed;
    var ids := {};
    NoneSuccessful(env);
    assert src.msgs[..0] == [];
    var lo, end := 0, |src.msgs|;
    while lo < end
      invariant lo <= end
      invariant ids == Successful(env, src.msgs[..lo])
    {
      var hi := if lo + HISTORY_LOOKUP_CHUNK_MESSAGES < end then lo + HISTORY_LOOKUP_CHUNK_MESSAGES else end;
      var chunk := Fetch(src, lo, hi);
      if chunk.Err? {
        return Err;
      }
      for k := 0 to |chunk.value|
        invariant ids == Successful(env, src.msgs[..lo + k])
      {
        var m := chunk.value[k];
        SuccessfulStep(env, src.msgs, lo + k);
        if m.role == Tool && m.toolCallID != "" && !ToolResultFailed(env, m.content) {
          ids := ids + {m.toolCallID};
        }
      }
      lo := hi;
    }
    assert src.msgs[..end] == src.msgs;
    return Ok(ids);
  }

  /** The successful calls are those with some result that bears none of the marks of a failure. */
  lemma SuccessfulTold(env: Env, msgs: seq<Message>, id: string)
    ensures id in Successful(env, msgs) <==>
            id != "" && exists k | 0 <= k < |msgs| ::
              msgs[k].role == Tool && msgs[k].toolCallID == id && !HistoryRows.Failed(env, msgs[k].content)
  {
    hide ToolResultFailed, HistoryRows.Failed;
    forall k | 0 <= k < |msgs| ensures HistoryRows.Failed(env, msgs[k].content) == ToolResultFailed(env, msgs[k].content) {
      HistoryRows.FailedTold(env, msgs[k].content);
    }
  }

  lemma NoneSuccessful(env: Env)
    ensures Successful(env, []) == {}
  {
  }

  lemma SuccessfulStep(env: Env, msgs: seq<Message>, k: nat)
    requires k < |msgs|
    ensures Successful(env, msgs[..k + 1]) ==
            Successful(env, msgs[..k]) + if SucceedsIn(env, msgs[k], msgs[k].toolCallID) then {msgs[k].toolCallID} else {}
  {
    hide SucceedsIn;
    var more, less := msgs[..k + 1], msgs[..k];
    assert more == less + [msgs[k]];
    assert forall j | 0 <= j < k :: more[j] == less[j];
    assert more[k] == msgs[k];
  }

  lemma NothingReplayed(tenv: TodoEnv, ids: set<string>, msgs: seq<Message>)
    ensures msgs[..0] == [] && TodoAfter(tenv, ids, msgs[..0]) == TodoAfter(tenv, ids, [])
  {
  }

  lemma OneMoreReplayed(tenv: TodoEnv, ids: set<string>, msgs: seq<Message>, k: nat)
    requires k < |msgs|
    ensures TodoAfter(tenv, ids, msgs[..k + 1]) == ConsumeCalls(tenv, ids, TodoAfter(tenv, ids, msgs[..k]), msgs[k].toolCalls)
  {
    hide ConsumeCalls;
    assert msgs[..k + 1][..k] == msgs[..k];
  }

  method ConsumeChunk(tenv: TodoEnv, state: HistoryTodoArgsState, ghost msgs: seq<Message>, ghost lo: nat, chunk: seq<Message>)
    requires lo + |chunk| <= |msgs| && chunk == msgs[lo..lo + |chunk|]
    requires state.Value() == TodoAfter(tenv, state.successful, msgs[..lo])
    modifies state
    ensures state.Value() == TodoAfter(tenv, state.successful, msgs[..lo + |chunk|])
  {
    hide TodoAfter;
    for k := 0 to |chunk|
      invariant state.Value() == TodoAfter(tenv, state.successful, msgs[..lo + k])
    {
      OneMoreReplayed(tenv, state.successful, msgs, lo + k);
      state.Consume(tenv, chunk[k]);
    }
  }

  /** Two bounded passes derive the todo state of the full pass. */
  method HistoryTodoArgsForSource(env: Env, tenv: TodoEnv, src: Source) returns (r: Result<map<string, string>>)
    ensures r.Ok? ==> r.value == TodoArgs(env, tenv, src.msgs)
    ensures r.Err? ==> !src.NeverFails()
  {
    var ids := SuccessfulIDs(env, src);
    if ids.Err? {
      return Err;
    }
    var state := new HistoryTodoArgsState(ids.value);
    var lo, end := 0, |src.msgs|;
    NothingReplayed(tenv, ids.value, src.msgs);
    hide TodoAfter, Successful;
    while lo < end
      invariant lo <= end
      invariant state.Value() == TodoAfter(tenv, ids.value, src.msgs[..lo])
    {
      var hi := if lo + HISTORY_LOOKUP_CHUNK_MESSAGES < end then lo + HISTORY_LOOKUP_CHUNK_MESSAGES else end;
      var chunk := Fetch(src, lo, hi);
      if chunk.Err? {
        return Err;
      }
      ConsumeChunk(tenv, state, src.msgs, lo, chunk.value);
      lo := hi;
    }
    assert src.msgs[..end] == src.msgs;
    return Ok(state.out);
  }

  /** Only a call whose result succeeded ever shows a replayed list, and only a todo_write. */
  lemma {:induction false} TodoArgsAreOfSuccessfulWrites(tenv: TodoEnv, ids: set<string>, msgs: seq<Message>, id: string)
    requires id in TodoAfter(tenv, ids, msgs).out
    ensures id in ids && exists k :: 0 <= k < |msgs| && WritesTodos(msgs[k], id)
  {
    var k := TodoWriteOf(tenv, ids, msgs, id, false);
  }

  predicate WritesTodos(m: Message, id: string) {
    exists c | 0 <= c < |m.toolCalls| :: m.toolCalls[c].id == id && m.toolCalls[c].name == "todo_write"
  }

  /** Finds the todo_write call behind a recorded list (or behind the list being advanced). */
  lemma {:induction false} TodoWriteOf(tenv: TodoEnv, ids: set<string>, msgs: seq<Message>, id: string, latest: bool) returns (k: nat)
    requires if latest then TodoAfter(tenv, ids, msgs).latestTodoID == id && id != "" else id in TodoAfter(tenv, ids, msgs).out
    ensures id in ids && k < |msgs| && WritesTodos(msgs[k], id)
    decreases |msgs|
  {
    var before := TodoAfter(tenv, ids, msgs[..|msgs| - 1]);
    var m := msgs[|msgs| - 1];
    if (latest && before.latestTodoID == id) || (!latest && id in before.out) {
      k := TodoWriteOf(tenv, ids, msgs[..|msgs| - 1], id, latest);
    } else {
      var own := CallWriteOf(tenv, ids, before, m.toolCalls, id, latest);
      if own {
        k := |msgs| - 1;
      } else {
        k := TodoWriteOf(tenv, ids, msgs[..|msgs| - 1], id, true);
      }
    }
  }

  lemma {:induction false} CallWriteOf(tenv: TodoEnv, ids: set<string>, st: TodoState, calls: seq<ToolCall>, id: string, latest: bool)
    returns (own: bool)
    requires var after := ConsumeCalls(tenv, ids, st, calls);
             if latest then after.latestTodoID == id && id != "" && st.latestTodoID != id
             else id in after.out && id !in st.out
    ensures id in ids || !own
    ensures own ==> exists c | 0 <= c < |calls| :: calls[c].id == id && calls[c].name == "todo_write"
    ensures !own ==> !latest && st.latestTodoID == id && id != ""
  {
    var init, tc := calls[..|calls| - 1], calls[|calls| - 1];
    var before := ConsumeCalls(tenv, ids, st, init);
    if (latest && before.latestTodoID == id) || (!latest && id in before.out) {
      own := CallWriteOf(tenv, ids, st, init, id, latest);
    } else if tc.name == "todo_write" {
      own := true;
    } else {
      assert !latest && before.latestTodoID == id;
      if st.latestTodoID == id {
        own := false;
      } else {
        own := CallWriteOf(tenv, ids, st, init, id, true);
      }
    }
    if own && !(tc.name == "todo_write" && tc.id == id) {
      var c :| 0 <= c < |init| && init[c].id == id && init[c].name == "todo_write";
      assert calls[c].id == id;
    }
  }

  // ---- What is replayed, told from the calls of the transcript --------------------------

  /** All calls of the transcript, in order. */
  function AllCalls(msgs: seq<Message>): seq<ToolCall> {
    if msgs == [] then [] else AllCalls(msgs[..|msgs| - 1]) + msgs[|msgs| - 1].toolCalls
  }

  /** A todo_write that succeeded and lists something. */
  predicate Lists(tenv: TodoEnv, ids: set<string>, tc: ToolCall) {
    tc.id != "" && tc.id in ids && tc.name == "todo_write" && tenv.todosOf(tc.arguments) != []
  }

  /** The list after a complete_step that succeeded and names an item that can be completed. */
  function Completed(tenv: TodoEnv, ids: set<string>, tc: ToolCall, todos: Todos): Option<Todos> {
    if tc.id == "" || tc.id !in ids || tc.name != "complete_step" || todos == [] then None
    else
      var item := tenv.matchStep(tenv.stepOf(tc.arguments), todos);
      if item.Some? then tenv.advance(todos, item.value - 1) else None
  }

  /** The last of the first `n` calls that lists todos, or -1. */
  function LastList(tenv: TodoEnv, ids: set<string>, calls: seq<ToolCall>, n: nat): (w: int)
    requires n <= |calls|
    ensures -1 <= w < n && (w >= 0 ==> Lists(tenv, ids, calls[w])) && forall k | w < k < n :: !Lists(tenv, ids, calls[k])
  {
    if n == 0 then -1 else if Lists(tenv, ids, calls[n - 1]) then n - 1 else LastList(tenv, ids, calls, n - 1)
  }

  /** The list of call `w` as it stands after the first `n` calls: each step completed since has advanced it. */
  function ListSince(tenv: TodoEnv, ids: set<string>, calls: seq<ToolCall>, w: nat, n: nat): Todos
    requires w < n <= |calls|
  {
    if n == w + 1 then tenv.normalize(tenv.todosOf(calls[w].arguments))
    else
      var before := ListSince(tenv, ids, calls, w, n - 1);
      var done := Completed(tenv, ids, calls[n - 1], before);
      if done.Some? then done.value else before
  }

  /** Call `k` leaves a list to show with the write `id`: it is that write, or completes a step of its list. */
  predicate Shows(tenv: TodoEnv, ids: set<string>, calls: seq<ToolCall>, k: nat, id: string)
    requires k < |calls|
  {
    var w := LastList(tenv, ids, calls, k + 1);
    w >= 0 && calls[w].id == id && (w == k || Completed(tenv, ids, calls[k], ListSince(tenv, ids, calls, w, k)).Some?) &&
    tenv.toJSON(ListSince(tenv, ids, calls, w, k + 1)).Some?
  }

  predicate LastShows(tenv: TodoEnv, ids: set<string>, calls: seq<ToolCall>, k: nat, n: nat, id: string)
    requires k < n <= |calls|
  {
    Shows(tenv, ids, calls, k, id) && forall j | k < j < n :: !Shows(tenv, ids, calls, j, id)
  }

  /** With `id` stands the list as it is after call `k`. */
  ghost predicate StandsAt(tenv: TodoEnv, ids: set<string>, calls: seq<ToolCall>, k: nat, out: map<string, string>, id: string)
    requires k < |calls| && Shows(tenv, ids, calls, k, id)
  {
    id in out && Some(out[id]) == tenv.toJSON(ListSince(tenv, ids, calls, LastList(tenv, ids, calls, k + 1), k + 1))
  }

  /** What is shown with `id` after `n` calls: the list that the last call left to show with it. */
  ghost predicate ShowsList(tenv: TodoEnv, ids: set<string>, calls: seq<ToolCall>, n: nat, out: map<string, string>, id: string)
    requires n <= |calls|
  {
    ((forall k | 0 <= k < n :: !Shows(tenv, ids, calls, k, id)) ==> id !in out) &&
    forall k | 0 <= k < n && LastShows(tenv, ids, calls, k, n, id) :: StandsAt(tenv, ids, calls, k, out, id)
  }

  ghost predicate HoldsList(tenv: TodoEnv, ids: set<string>, calls: seq<ToolCall>, n: nat, st: TodoState)
    requires n <= |calls|
  {
    var w := LastList(tenv, ids, calls, n);
    if w < 0 then st.todos == [] && st.latestTodoID == ""
    else st.todos == ListSince(tenv, ids, calls, w, n) && st.latestTodoID == calls[w].id
  }

  lemma CallTold(tenv: TodoEnv, ids: set<string>, calls: seq<ToolCall>, k: nat, st: TodoState)
    requires k < |calls| && HoldsList(tenv, ids, calls, k, st)
    ensures var after := ConsumeCall(tenv, ids, st, calls[k]);
            HoldsList(tenv, ids, calls, k + 1, after) &&
            (forall id | !Shows(tenv, ids, calls, k, id) :: (id in after.out <==> id in st.out) && (id in st.out ==> after.out[id] == st.out[id])) &&
            (forall id | Shows(tenv, ids, calls, k, id) :: StandsAt(tenv, ids, calls, k, after.out, id))
  {
  }

  lemma {:induction false} CallsTold(tenv: TodoEnv, ids: set<string>, calls: seq<ToolCall>, n: nat)
    requires n <= |calls|
    ensures HoldsList(tenv, ids, calls, n, ConsumeCalls(tenv, ids, EMPTY_TODO, calls[..n]))
    ensures forall id :: ShowsList(tenv, ids, calls, n, ConsumeCalls(tenv, ids, EMPTY_TODO, calls[..n]).out, id)
  {
    hide ConsumeCall, Shows, HoldsList, LastList, ListSince;
    if n == 0 {
      assert HoldsList(tenv, ids, calls, 0, EMPTY_TODO) by {
        NothingHeld(tenv, ids, calls);
      }
    } else {
      hide ShowsList;
      assert calls[..n][..n - 1] == calls[..n - 1];
      CallsTold(tenv, ids, calls, n - 1);
      CallTold(tenv, ids, calls, n - 1, ConsumeCalls(tenv, ids, EMPTY_TODO, calls[..n - 1]));
      var before, after := ConsumeCalls(tenv, ids, EMPTY_TODO, calls[..n - 1]).out, ConsumeCalls(tenv, ids, EMPTY_TODO, calls[..n]).out;
      forall id ensures ShowsList(tenv, ids, calls, n, after, id) {
        OneMoreShown(tenv, ids, calls, n, before, after, id);
      }
    }
  }

  lemma NothingHeld(tenv: TodoEnv, ids: set<string>, calls: seq<ToolCall>)
    ensures HoldsList(tenv, ids, calls, 0, EMPTY_TODO)
  {
  }

  lemma OneMoreShown(tenv: TodoEnv, ids: set<string>, calls: seq<ToolCall>, n: nat, before: map<string, string>, after: map<string, string>, id: string)
    requires 0 < n <= |calls| && ShowsList(tenv, ids, calls, n - 1, before, id)
    requires !Shows(tenv, ids, calls, n - 1, id) ==> (id in after <==> id in before) && (id in before ==> after[id] == before[id])
    requires Shows(tenv, ids, calls, n - 1, id) ==> StandsAt(tenv, ids, calls, n - 1, after, id)
    ensures ShowsList(tenv, ids, calls, n, after, id)
  {
    hide LastList, ListSince, Shows;
    forall k | 0 <= k < n && LastShows(tenv, ids, calls, k, n, id) ensures StandsAt(tenv, ids, calls, k, after, id) {
      if k < n - 1 {
        assert !Shows(tenv, ids, calls, n - 1, id);
        assert LastShows(tenv, ids, calls, k, n - 1, id);
        assert StandsAt(tenv, ids, calls, k, before, id);
      }
    }
  }

  lemma {:induction false} ConsumeCallsAppend(tenv: TodoEnv, ids: set<string>, st: TodoState, a: seq<ToolCall>, b: seq<ToolCall>)
    ensures ConsumeCalls(tenv, ids, st, a + b) == ConsumeCalls(tenv, ids, ConsumeCalls(tenv, ids, st, a), b)
  {
    hide ConsumeCall;
    if b == [] {
      assert a + b == a;
    } else {
      ConsumeCallsAppend(tenv, ids, st, a, b[..|b| - 1]);
      assert (a + b)[..|a + b| - 1] == a + b[..|b| - 1];
    }
  }

  lemma {:induction false} TodoAfterCalls(tenv: TodoEnv, ids: set<string>, msgs: seq<Message>)
    ensures TodoAfter(tenv, ids, msgs) == ConsumeCalls(tenv, ids, EMPTY_TODO, AllCalls(msgs))
  {
    if msgs != [] {
      TodoAfterCalls(tenv, ids, msgs[..|msgs| - 1]);
      ConsumeCallsAppend(tenv, ids, EMPTY_TODO, AllCalls(msgs[..|msgs| - 1]), msgs[|msgs| - 1].toolCalls);
    }
  }

  /** A todo_write shows its list, advanced by the steps completed before the next todo_write; and nothing else is shown. */
  lemma TodoArgsTold(env: Env, tenv: TodoEnv, msgs: seq<Message>)
    ensures forall id :: ShowsList(tenv, Successful(env, msgs), AllCalls(msgs), |AllCalls(msgs)|, TodoArgs(env, tenv, msgs), id)
  {
    hide ShowsList, Successful, ConsumeCalls;
    var ids, calls := Successful(env, msgs), AllCalls(msgs);
    TodoAfterCalls(tenv, ids, msgs);
    CallsTold(tenv, ids, calls, |calls|);
    assert calls[..|calls|] == calls;
  }
}
