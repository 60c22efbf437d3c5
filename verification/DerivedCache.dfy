/** The single-flight cache of derived todo state.

`Cache` is the state the mutex protects, plus one cell per computation ever started. The class
methods are the critical sections; `Next` lets any number of callers interleave them.
*/
module DerivedCache {

  const HISTORY_DERIVED_CACHE_ENTRIES: nat := 4

  type Value = map<string, string>

  datatype Outcome = Good(value: Value) | Fail

  /** A computation: not closed yet, or closed with its outcome. */
  datatype Cell = Pending | Ready(outcome: Outcome)

  datatype Cache = Cache(entries: map<string, nat>, order: seq<string>, cells: seq<Cell>) {
    ghost predicate Valid() {
      NoDup(order) && (forall key :: key in order <==> key in entries) &&
      (forall key | key in entries :: entries[key] < |cells|) &&
      (forall a, b | a in entries && b in entries && entries[a] == entries[b] :: a == b)
    }

    predicate InFlight(key: string) {
      key in entries && entries[key] < |cells| && cells[entries[key]].Pending?
    }
  }

  ghost predicate NoDup(s: seq<string>) {
    forall i, j | 0 <= i < j < |s| :: s[i] != s[j]
  }

  function RemoveAt(s: seq<string>, i: nat): seq<string>
    requires i < |s|
  {
    s[..i] + s[i + 1..]
  }

  function IndexOf(s: seq<string>, key: string): (i: nat)
    ensures i <= |s| && (i < |s| ==> s[i] == key) && (i == |s| <==> key !in s)
  {
    if s == [] then 0 else if s[0] == key then 0 else 1 + IndexOf(s[1..], key)
  }

  function Without(s: seq<string>, key: string): seq<string> {
    var i := IndexOf(s, key);
    if i < |s| then RemoveAt(s, i) else s
  }

  function Touched(order: seq<string>, key: string): seq<string> {
    Without(order, key) + [key]
  }

  lemma RemoveAtElements(s: seq<string>, i: nat)
    requires NoDup(s) && i < |s|
    ensures NoDup(RemoveAt(s, i))
    ensures forall key :: key in RemoveAt(s, i) <==> key in s && key != s[i]
  {
    var r := RemoveAt(s, i);
    forall key | key in s && key != s[i] ensures key in r {
      var k :| 0 <= k < |s| && s[k] == key;
      assert r[if k < i then k else k - 1] == key;
    }
  }

  lemma TouchedElements(order: seq<string>, key: string)
    requires NoDup(order) && key in order
    ensures NoDup(Touched(order, key)) && forall k :: k in Touched(order, key) <==> k in order
  {
    RemoveAtElements(order, IndexOf(order, key));
  }

  // ---- Pruning -----------------------------------------------------------------------

  /** A key pruning may drop: not stored any more, or stored with a closed computation. */
  predicate Prunable(c: Cache, key: string) {
    key !in c.entries || c.entries[key] >= |c.cells| || c.cells[c.entries[key]].Ready?
  }

  function FirstPrunable(c: Cache, i: nat): (r: nat)
    requires i <= |c.order|
    ensures i <= r <= |c.order| && (r < |c.order| ==> Prunable(c, c.order[r]))
    ensures forall k | i <= k < r :: !Prunable(c, c.order[k])
    decreases |c.order| - i
  {
    if i == |c.order| || Prunable(c, c.order[i]) then i else FirstPrunable(c, i + 1)
  }

  function Drop(c: Cache, i: nat): Cache
    requires i < |c.order|
  {
    Cache(map key | key in c.entries && key != c.order[i] :: c.entries[key], RemoveAt(c.order, i), c.cells)
  }

  /** The cache after pruning: the oldest droppable key goes, until four are left or none is droppable. */
  function Pruned(c: Cache): Cache
    decreases |c.order|
  {
    var i := FirstPrunable(c, 0);
    if |c.entries| <= HISTORY_DERIVED_CACHE_ENTRIES || i == |c.order| then c else Pruned(Drop(c, i))
  }

  ghost predicate Overfull(c: Cache) {
    |c.entries| > HISTORY_DERIVED_CACHE_ENTRIES
  }

  /** Pruning keeps the order list a permutation of the keys, drops no computation in flight,
      and ends with at most four entries unless every entry is in flight. */
  lemma {:induction false} PruneKeepsInFlight(c: Cache)
    requires c.Valid()
    ensures Pruned(c).Valid() && Pruned(c).cells == c.cells
    ensures forall key | key in Pruned(c).entries :: key in c.entries && Pruned(c).entries[key] == c.entries[key]
    ensures forall key | c.InFlight(key) :: key in Pruned(c).entries
    ensures Overfull(Pruned(c)) ==> forall key | key in Pruned(c).entries :: Pruned(c).InFlight(key)
    decreases |c.order|
  {
    var i := FirstPrunable(c, 0);
    if |c.entries| > HISTORY_DERIVED_CACHE_ENTRIES {
      if i < |c.order| {
        RemoveAtElements(c.order, i);
        PruneKeepsInFlight(Drop(c, i));
      } else {
        forall key | key in c.entries ensures c.InFlight(key) {
          assert key in c.order;
        }
      }
    }
  }

  /** `key` stands before `other` in the order list, which is from the least to the most recently used. */
  predicate Older(order: seq<string>, key: string, other: string) {
    IndexOf(order, key) < IndexOf(order, other) < |order|
  }

  /** `p` is `c` less its least recently used results that are not in flight, in the same order. */
  ghost predicate DropsOldest(c: Cache, p: Cache) {
    (forall key | key in p.order :: key in c.order) &&
    (forall key, kept | key in c.order && key !in p.order && kept in p.order && !c.InFlight(kept) :: Older(c.order, key, kept)) &&
    (forall a, b | a in p.order && b in p.order :: Older(p.order, a, b) <==> Older(c.order, a, b))
  }

  /** Pruning drops the least recently used results, and no more than it must. */
  lemma {:induction false} PruneDropsOldest(c: Cache)
    requires c.Valid()
    ensures |c.entries| <= HISTORY_DERIVED_CACHE_ENTRIES ==> Pruned(c) == c
    ensures |c.entries| > HISTORY_DERIVED_CACHE_ENTRIES ==> |Pruned(c).entries| >= HISTORY_DERIVED_CACHE_ENTRIES
    ensures DropsOldest(c, Pruned(c))
    decreases |c.order|
  {
    var i := FirstPrunable(c, 0);
    hide FirstPrunable, Drop, DropsOldest;
    if |c.entries| > HISTORY_DERIVED_CACHE_ENTRIES && i < |c.order| {
      DropOne(c, i);
      PruneDropsOldest(Drop(c, i));
      hide Pruned;
      DropThenPrune(c, Drop(c, i), Pruned(Drop(c, i)), i);
    } else {
      DropsNothing(c);
    }
  }

  lemma DropsNothing(c: Cache)
    ensures DropsOldest(c, c)
  {
  }

  lemma DropOne(c: Cache, i: nat)
    requires c.Valid() && i < |c.order| && Prunable(c, c.order[i]) && forall k | 0 <= k < i :: !Prunable(c, c.order[k])
    ensures var d := Drop(c, i);
            d.Valid() && |d.entries| == |c.entries| - 1 && |d.order| == |c.order| - 1 && DropsOldest(c, d) &&
            (forall key | key in d.order :: d.InFlight(key) <==> c.InFlight(key)) &&
            (forall key :: key in d.order <==> key in c.order && key != c.order[i]) &&
            (forall key | key in d.order && !c.InFlight(key) :: Older(c.order, c.order[i], key))
  {
    var d := Drop(c, i);
    RemoveAtElements(c.order, i);
    assert d.entries.Keys == c.entries.Keys - {c.order[i]};
    assert |d.entries.Keys| == |c.entries.Keys| - 1;
    hide Older;
    forall a, b | a in d.order && b in d.order ensures Older(d.order, a, b) <==> Older(c.order, a, b) {
      RemovedKeepsOrder(c.order, i, a, b);
    }
    forall key | key in d.order && !c.InFlight(key) ensures Older(c.order, c.order[i], key) {
      FirstIsOldest(c, i, key);
    }
  }

  lemma FirstIsOldest(c: Cache, i: nat, key: string)
    requires c.Valid() && i < |c.order| && forall k | 0 <= k < i :: !Prunable(c, c.order[k])
    requires key in c.order && key != c.order[i] && !c.InFlight(key)
    ensures Older(c.order, c.order[i], key)
  {
    IndexIs(c.order, i);
    assert Prunable(c, c.order[IndexOf(c.order, key)]);
  }

  lemma DropThenPrune(c: Cache, d: Cache, p: Cache, i: nat)
    requires i < |c.order| && DropsOldest(c, d) && DropsOldest(d, p)
    requires forall key :: key in d.order <==> key in c.order && key != c.order[i]
    requires forall key | key in d.order :: d.InFlight(key) <==> c.InFlight(key)
    requires forall key | key in d.order && !c.InFlight(key) :: Older(c.order, c.order[i], key)
    ensures DropsOldest(c, p)
  {
    hide Older;
  }

  lemma IndexIs(s: seq<string>, k: nat)
    requires NoDup(s) && k < |s|
    ensures IndexOf(s, s[k]) == k
  {
    var i := IndexOf(s, s[k]);
  }

  lemma RemovedKeepsOrder(s: seq<string>, i: nat, a: string, b: string)
    requires NoDup(s) && i < |s| && a in RemoveAt(s, i) && b in RemoveAt(s, i)
    ensures Older(RemoveAt(s, i), a, b) <==> Older(s, a, b)
  {
    RemoveAtElements(s, i);
    var r := RemoveAt(s, i);
    var x, y := IndexOf(r, a), IndexOf(r, b);
    IndexIs(s, if x < i then x else x + 1);
    IndexIs(s, if y < i then y else y + 1);
  }

  /** Using a key makes it the most recently used, and leaves the order of the others. */
  lemma TouchMakesNewest(order: seq<string>, key: string)
    requires NoDup(order) && key in order
    ensures forall other | other in order && other != key :: Older(Touched(order, key), other, key)
    ensures forall a, b | a in order && b in order && a != key && b != key :: Older(Touched(order, key), a, b) <==> Older(order, a, b)
  {
    TouchedElements(order, key);
    var rest := Without(order, key);
    RemoveAtElements(order, IndexOf(order, key));
    IndexIs(Touched(order, key), |rest|);
    forall a | a in order && a != key ensures IndexOf(Touched(order, key), a) == IndexOf(rest, a) < |rest| {
      IndexIs(Touched(order, key), IndexOf(rest, a));
    }
    forall a, b | a in order && b in order && a != key && b != key ensures Older(Touched(order, key), a, b) <==> Older(order, a, b) {
      RemovedKeepsOrder(order, IndexOf(order, key), a, b);
    }
  }

  // ---- Critical sections ----------------------------------------------------------------

  datatype Ticket = Bypass | Wait(id: nat) | Compute(id: nat)

  function Entered(c: Cache, key: string): (Cache, Ticket) {
    if key == "" then (c, Bypass)
    else if key in c.entries then (c.(order := Touched(c.order, key)), Wait(c.entries[key]))
    else
      var id := |c.cells|;
      (Pruned(Cache(c.entries[key := id], c.order + [key], c.cells + [Pending])), Compute(id))
  }

  function Closed(c: Cache, id: nat, outcome: Outcome): Cache
    requires id < |c.cells|
  {
    c.(cells := c.cells[id := Ready(outcome)])
  }

  function Retired(c: Cache, key: string, id: nat, outcome: Outcome): Cache {
    Pruned(if outcome.Fail? && key in c.entries && c.entries[key] == id
           then Cache(c.entries - {key}, Without(c.order, key), c.cells) else c)
  }

  /** A result that is stored is used again, whoever asks for it next; retiring a good computation drops nothing but what
      pruning drops. */
  lemma GoodResultsStay(c: Cache, key: string, id: nat, value: Value)
    requires c.Valid() && key in c.entries
    ensures key != "" ==> Entered(c, key).1 == Wait(c.entries[key]) && Entered(c, key).0.entries == c.entries
    ensures Retired(c, key, id, Good(value)) == Pruned(c)
    ensures |c.entries| <= HISTORY_DERIVED_CACHE_ENTRIES ==> Retired(c, key, id, Good(value)) == c
  {
    hide Pruned, DropsOldest;
    PruneDropsOldest(c);
  }

  class HistoryDerivedCache {
    var entries: map<string, nat>
    var order: seq<string>
    var cells: seq<Cell>

    function State(): Cache
      reads this
    {
      Cache(entries, order, cells)
    }

    constructor ()
      ensures State() == Cache(map[], [], [])
    {
      entries, order, cells := map[], [], [];
    }

    method TouchLocked(key: string)
      modifies this`order
      ensures order == Touched(old(order), key)
    {
      RemoveFirst(key);
      order := order + [key];
    }

    method RemoveFirst(key: string)
      modifies this`order
      ensures order == Without(old(order), key)
    {
      var i := 0;
      while i < |order|
        invariant i <= |order| && order == old(order)
        invariant IndexOf(order, key) == i + IndexOf(order[i..], key)
      {
        if order[i] == key {
          order := order[..i] + order[i + 1..];
          return;
        }
        assert order[i..][1..] == order[i + 1..];
        i := i + 1;
      }
    }

    method PruneLocked()
      modifies this`entries, this`order
      ensures State() == Pruned(old(State()))
    {
      while |entries| > HISTORY_DERIVED_CACHE_ENTRIES
        invariant Pruned(State()) == Pruned(old(State()))
        decreases |order|
      {
        var i := 0;
        while i < |order| && !Prunable(State(), order[i])
          invariant i <= |order|
          invariant FirstPrunable(State(), 0) == FirstPrunable(State(), i)
        {
          i := i + 1;
        }
        if i == |order| {
          return;
        }
        entries, order := map key | key in entries && key != order[i] :: entries[key], order[..i] + order[i + 1..];
      }
    }

    /** The first critical section: join the computation of `key`, or start one. */
    method Enter(key: string) returns (ticket: Ticket)
      modifies this
      ensures (State(), ticket) == Entered(old(State()), key)
    {
      if key == "" {
        return Bypass;
      }
      if key in entries {
        TouchLocked(key);
        return Wait(entries[key]);
      }
      var id := |cells|;
      cells := cells + [Pending];
      entries := entries[key := id];
      order := order + [key];
      PruneLocked();
      return Compute(id);
    }

    /** Publishes the outcome and wakes every waiter. */
    method Close(id: nat, outcome: Outcome)
      requires id < |cells|
      modifies this`cells
      ensures State() == Closed(old(State()), id, outcome)
    {
      cells := cells[id := Ready(outcome)];
    }

    /** The second critical section: forget a failure, prune. */
    method Retire(key: string, id: nat, outcome: Outcome)
      modifies this`entries, this`order
      ensures State() == Retired(old(State()), key, id, outcome)
    {
      if outcome.Fail? && key in entries && entries[key] == id {
        entries := entries - {key};
        RemoveFirst(key);
      }
      PruneLocked();
    }
  }

  // ---- All interleavings ------------------------------------------------------------------

  /** Where a caller of the cache is. */
  datatype Phase = Waiting(id: nat) | Computing(key: string, id: nat) | Closing(key: string, id: nat, outcome: Outcome)
    | Returned(id: nat, outcome: Outcome)

  datatype System = System(cache: Cache, callers: map<nat, Phase>)

  const INITIAL: System := System(Cache(map[], [], []), map[])

  datatype Action = Call(t: nat, key: string) | Publish(t: nat, outcome: Outcome) | Finish(t: nat) | Wake(t: nat)

  predicate Enabled(s: System, a: Action) {
    match a
    case Call(t, key) => t !in s.callers && key != ""
    case Publish(t, _) => t in s.callers && s.callers[t].Computing? && s.callers[t].id < |s.cache.cells|
    case Finish(t) => t in s.callers && s.callers[t].Closing?
    case Wake(t) => t in s.callers && s.callers[t].Waiting? && s.callers[t].id < |s.cache.cells| && s.cache.cells[s.callers[t].id].Ready?
  }

  function Step(s: System, a: Action): System
    requires Enabled(s, a)
  {
    match a
    case Call(t, key) =>
      var (cache, ticket) := Entered(s.cache, key);
      System(cache, s.callers[t := if ticket.Compute? then Computing(key, ticket.id) else Waiting(s.cache.entries[key])])
    case Publish(t, outcome) =>
      var p := s.callers[t];
      System(Closed(s.cache, p.id, outcome), s.callers[t := Closing(p.key, p.id, outcome)])
    case Finish(t) =>
      var p := s.callers[t];
      System(Retired(s.cache, p.key, p.id, p.outcome), s.callers[t := Returned(p.id, p.outcome)])
    case Wake(t) =>
      var id := s.callers[t].id;
      System(s.cache, s.callers[t := Returned(id, s.cache.cells[id].outcome)])
  }

  /** A run: any sequence of enabled critical sections of any callers. */
  ghost predicate Run(actions: seq<Action>, states: seq<System>) {
    |states| == |actions| + 1 && states[0] == INITIAL &&
    forall i | 0 <= i < |actions| :: Enabled(states[i], actions[i]) && states[i + 1] == Step(states[i], actions[i])
  }

  predicate Owns(p: Phase, id: nat) {
    (p.Computing? || p.Closing?) && p.id == id
  }

  ghost predicate PhaseOk(c: Cache, p: Phase) {
    p.id < |c.cells| &&
    (p.Computing? ==> c.cells[p.id].Pending? && p.key in c.entries && c.entries[p.key] == p.id) &&
    (p.Closing? ==> c.cells[p.id] == Ready(p.outcome) && forall k | k in c.entries && c.entries[k] == p.id :: k == p.key) &&
    (p.Returned? ==> c.cells[p.id] == Ready(p.outcome))
  }

  ghost predicate CallersOk(s: System) {
    forall t | t in s.callers :: PhaseOk(s.cache, s.callers[t])
  }

  ghost predicate OneOwner(s: System) {
    forall t, u, id | t in s.callers && u in s.callers && Owns(s.callers[t], id) && Owns(s.callers[u], id) :: t == u
  }

  /** `key` is stored with a failed result. */
  predicate StoredFail(c: Cache, key: string) {
    key in c.entries && c.entries[key] < |c.cells| && c.cells[c.entries[key]] == Ready(Fail)
  }

  ghost predicate FailuresRetire(s: System) {
    forall key | StoredFail(s.cache, key) :: Retiring(s, s.cache.entries[key])
  }

  ghost predicate FullIsBusy(s: System) {
    Overfull(s.cache) ==> forall key | key in s.cache.entries :: s.cache.InFlight(key) || Retiring(s, s.cache.entries[key])
  }

  ghost predicate Inv(s: System) {
    s.cache.Valid() && CallersOk(s) && OneOwner(s) && FailuresRetire(s) && FullIsBusy(s)
  }

  /** The caller that computed `id` has published and is about to retire and prune. */
  ghost predicate Retiring(s: System, id: nat) {
    exists t | t in s.callers :: s.callers[t].Closing? && s.callers[t].id == id
  }

  lemma GrownIsValid(c: Cache, key: string)
    requires c.Valid() && key != "" && key !in c.entries
    ensures var grown := Cache(c.entries[key := |c.cells|], c.order + [key], c.cells + [Pending]);
            grown.Valid() && grown.InFlight(key) && forall k | c.InFlight(k) :: grown.InFlight(k)
  {
  }

  /** What starting a computation does to the cache. */
  lemma StartFacts(c: Cache, key: string)
    requires c.Valid() && key != "" && key !in c.entries
    ensures var c' := Entered(c, key).0;
            Entered(c, key).1 == Compute(|c.cells|) && c'.Valid() && c'.cells == c.cells + [Pending] &&
            key in c'.entries && c'.entries[key] == |c.cells| &&
            (forall k | k in c'.entries && k != key :: k in c.entries && c'.entries[k] == c.entries[k]) &&
            (forall k | c.InFlight(k) :: k in c'.entries) &&
            (Overfull(c') ==> forall k | k in c'.entries :: c'.InFlight(k))
  {
    hide NoDup, Pruned;
    GrownIsValid(c, key);
    PruneKeepsInFlight(Cache(c.entries[key := |c.cells|], c.order + [key], c.cells + [Pending]));
  }

  lemma StartKeepsInv(s: System, t: nat, key: string)
    requires Inv(s) && t !in s.callers && key != "" && key !in s.cache.entries
    ensures Inv(Step(s, Call(t, key)))
  {
    hide Entered, NoDup, Retiring;
    StartFacts(s.cache, key);
    var s' := Step(s, Call(t, key));
    StillRetiring(s, s', t);
    assert CallersOk(s') by {
      hide FailuresRetire, FullIsBusy, OneOwner;
    }
    assert OneOwner(s') by {
      hide FailuresRetire, FullIsBusy;
    }
    assert FailuresRetire(s') by {
      hide CallersOk, FullIsBusy, OneOwner;
      assert forall k | StoredFail(s'.cache, k) :: k != key && StoredFail(s.cache, k);
    }
  }

  lemma JoinKeepsInv(s: System, t: nat, key: string)
    requires Inv(s) && t !in s.callers && key != "" && key in s.cache.entries
    ensures Inv(Step(s, Call(t, key)))
  {
    hide Touched, NoDup, Retiring;
    TouchedElements(s.cache.order, key);
    var s' := Step(s, Call(t, key));
    StillRetiring(s, s', t);
    assert s'.cache.entries == s.cache.entries && s'.cache.cells == s.cache.cells;
    assert CallersOk(s') && OneOwner(s') by {
      hide FailuresRetire, FullIsBusy;
    }
    assert FailuresRetire(s') && FullIsBusy(s') by {
      hide CallersOk, OneOwner;
      assert forall k | StoredFail(s'.cache, k) :: StoredFail(s.cache, k);
      assert forall k | s.cache.InFlight(k) :: s'.cache.InFlight(k);
    }
  }

  /** A caller other than `t` that retires keeps doing so when only `t` moves. */
  lemma StillRetiring(s: System, s': System, t: nat)
    requires forall u | u in s.callers && u != t :: u in s'.callers && s'.callers[u] == s.callers[u]
    requires t in s.callers && s.callers[t].Closing? ==> t in s'.callers && s'.callers[t] == s.callers[t]
    ensures forall id | Retiring(s, id) :: Retiring(s', id)
  {
    forall id | Retiring(s, id) ensures Retiring(s', id) {
      var u :| u in s.callers && s.callers[u].Closing? && s.callers[u].id == id;
      assert s'.callers[u] == s.callers[u];
    }
  }

  lemma PublishKeepsInv(s: System, t: nat, outcome: Outcome)
    requires Inv(s) && Enabled(s, Publish(t, outcome))
    ensures Inv(Step(s, Publish(t, outcome)))
  {
    hide NoDup;
    var p := s.callers[t];
    var s' := Step(s, Publish(t, outcome));
    assert Retiring(s', p.id) by {
      assert s'.callers[t].Closing? && s'.callers[t].id == p.id;
    }
    StillRetiring(s, s', t);
    hide Retiring;
    assert s'.cache.Valid() by {
      hide CallersOk, FailuresRetire, FullIsBusy, OneOwner;
    }
    PublishKeepsCallers(s, t, outcome);
    hide CallersOk, OneOwner;
    assert FailuresRetire(s') by {
      hide FullIsBusy;
      assert forall k | StoredFail(s'.cache, k) && s'.cache.entries[k] != p.id :: StoredFail(s.cache, k);
    }
    assert FullIsBusy(s') by {
      hide FailuresRetire;
      assert forall k | s.cache.InFlight(k) && s.cache.entries[k] != p.id :: s'.cache.InFlight(k);
    }
  }

  lemma PublishKeepsCallers(s: System, t: nat, outcome: Outcome)
    requires s.cache.Valid() && CallersOk(s) && OneOwner(s) && Enabled(s, Publish(t, outcome))
    ensures CallersOk(Step(s, Publish(t, outcome))) && OneOwner(Step(s, Publish(t, outcome)))
  {
    hide NoDup;
    var p := s.callers[t];
    var s' := Step(s, Publish(t, outcome));
    forall u | u in s.callers && u != t ensures PhaseOk(s'.cache, s.callers[u]) {
      assert Owns(p, p.id) && (s.callers[u].Computing? ==> Owns(s.callers[u], s.callers[u].id));
    }
    assert OneOwner(s') by {
      hide CallersOk;
      assert forall u, id | u in s.callers && Owns(s'.callers[u], id) :: Owns(s.callers[u], id);
    }
  }

  /** What retiring a computation does to the cache. */
  lemma RetireFacts(c: Cache, key: string, id: nat, outcome: Outcome)
    requires c.Valid() && id < |c.cells| && c.cells[id] == Ready(outcome)
    requires forall k | k in c.entries && c.entries[k] == id :: k == key
    ensures var c' := Retired(c, key, id, outcome);
            c'.Valid() && c'.cells == c.cells &&
            (forall k | k in c'.entries :: k in c.entries && c'.entries[k] == c.entries[k]) &&
            (forall k | c.InFlight(k) :: k in c'.entries) &&
            (outcome.Fail? ==> forall k | k in c'.entries :: c'.entries[k] != id) &&
            (Overfull(c') ==> forall k | k in c'.entries :: c'.InFlight(k))
  {
    var mid := c;
    if outcome.Fail? && key in c.entries && c.entries[key] == id {
      RemoveAtElements(c.order, IndexOf(c.order, key));
      mid := Cache(c.entries - {key}, Without(c.order, key), c.cells);
    }
    assert mid.Valid() && forall k | c.InFlight(k) :: mid.InFlight(k);
    PruneKeepsInFlight(mid);
  }

  lemma FinishKeepsInv(s: System, t: nat)
    requires Inv(s) && Enabled(s, Finish(t))
    ensures Inv(Step(s, Finish(t)))
  {
    hide Retired, NoDup;
    var p := s.callers[t];
    RetireFacts(s.cache, p.key, p.id, p.outcome);
    var s' := Step(s, Finish(t));
    assert CallersOk(s') by {
      hide FailuresRetire, FullIsBusy, OneOwner;
      assert forall u | u in s.callers && s.callers[u].Computing? :: s.cache.InFlight(s.callers[u].key);
    }
    assert OneOwner(s') by {
      hide FailuresRetire, FullIsBusy, CallersOk;
      assert forall u, id | u in s'.callers && Owns(s'.callers[u], id) :: Owns(s.callers[u], id);
    }
    assert FailuresRetire(s') by {
      hide CallersOk, FullIsBusy, OneOwner;
      forall k | StoredFail(s'.cache, k) ensures Retiring(s', s'.cache.entries[k]) {
        assert StoredFail(s.cache, k);
        var u :| u in s.callers && s.callers[u].Closing? && s.callers[u].id == s.cache.entries[k];
        assert u != t;
        assert s'.callers[u] == s.callers[u];
      }
    }
    assert FullIsBusy(s') by {
      hide CallersOk, FailuresRetire, OneOwner;
    }
  }

  lemma WakeKeepsInv(s: System, t: nat)
    requires Inv(s) && Enabled(s, Wake(t))
    ensures Inv(Step(s, Wake(t)))
  {
    hide NoDup, Retiring;
    var s' := Step(s, Wake(t));
    StillRetiring(s, s', t);
    assert forall u, id | u in s'.callers && Owns(s'.callers[u], id) :: Owns(s.callers[u], id);
  }

  lemma StepKeepsInv(s: System, a: Action)
    requires Inv(s) && Enabled(s, a)
    ensures Inv(Step(s, a))
  {
    hide Inv, Step;
    match a
    case Call(t, key) =>
      if key in s.cache.entries {
        JoinKeepsInv(s, t, key);
      } else {
        StartKeepsInv(s, t, key);
      }
    case Publish(t, outcome) => PublishKeepsInv(s, t, outcome);
    case Finish(t) => FinishKeepsInv(s, t);
    case Wake(t) => WakeKeepsInv(s, t);
  }

  lemma {:induction false} RunKeepsInv(actions: seq<Action>, states: seq<System>, i: nat)
    requires Run(actions, states) && i < |states|
    ensures Inv(states[i])
  {
    if i > 0 {
      RunKeepsInv(actions, states, i - 1);
      StepKeepsInv(states[i - 1], actions[i - 1]);
    }
  }

  // ---- What every run keeps ------------------------------------------------------------

  /** At most one computation of a key is in flight. */
  lemma SingleFlight(actions: seq<Action>, states: seq<System>, i: nat, t: nat, u: nat)
    requires Run(actions, states) && i < |states|
    requires t in states[i].callers && u in states[i].callers
    requires states[i].callers[t].Computing? && states[i].callers[u].Computing?
    requires states[i].callers[t].key == states[i].callers[u].key
    ensures t == u
  {
    RunKeepsInv(actions, states, i);
    assert Owns(states[i].callers[t], states[i].callers[t].id) && Owns(states[i].callers[u], states[i].callers[t].id);
  }

  /** All callers that joined one computation return its one outcome. */
  lemma WaitersShareOutcome(actions: seq<Action>, states: seq<System>, i: nat, t: nat, u: nat)
    requires Run(actions, states) && i < |states|
    requires t in states[i].callers && u in states[i].callers
    requires states[i].callers[t].Returned? && states[i].callers[u].Returned?
    requires states[i].callers[t].id == states[i].callers[u].id
    ensures states[i].callers[t].outcome == states[i].callers[u].outcome
  {
    RunKeepsInv(actions, states, i);
  }

  /** A closed computation never changes its outcome. */
  lemma {:induction false} OutcomeIsFinal(actions: seq<Action>, states: seq<System>, i: nat, j: nat, id: nat)
    requires Run(actions, states) && i <= j < |states|
    requires id < |states[i].cache.cells| && states[i].cache.cells[id].Ready?
    ensures id < |states[j].cache.cells| && states[j].cache.cells[id] == states[i].cache.cells[id]
    decreases j
  {
    hide Entered, Retired;
    if i < j {
      OutcomeIsFinal(actions, states, i, j - 1, id);
      RunKeepsInv(actions, states, j - 1);
      CellsOnlyClose(states[j - 1], actions[j - 1], id);
    }
  }

  lemma CellsOnlyClose(s: System, a: Action, id: nat)
    requires Inv(s) && Enabled(s, a) && id < |s.cache.cells| && s.cache.cells[id].Ready?
    ensures id < |Step(s, a).cache.cells| && Step(s, a).cache.cells[id] == s.cache.cells[id]
  {
    hide Entered, Retired, NoDup;
    match a
    case Call(t, key) =>
      if key in s.cache.entries {
        JoinFacts(s.cache, key);
      } else {
        StartFacts(s.cache, key);
      }
    case Publish(t, outcome) =>
    case Finish(t) =>
      var p := s.callers[t];
      RetireFacts(s.cache, p.key, p.id, p.outcome);
    case Wake(t) =>
  }

  lemma JoinFacts(c: Cache, key: string)
    requires key != "" && key in c.entries
    ensures Entered(c, key).0.cells == c.cells && Entered(c, key).1.Wait?
  {
  }

  /** Whatever the interleaving: the order list is a duplicate-free permutation of the keys; a failed
      result is stored only until its caller retires; and above four entries every entry is in flight
      or its caller is about to prune. */
  lemma CacheStaysTidy(actions: seq<Action>, states: seq<System>, i: nat)
    requires Run(actions, states) && i < |states|
    ensures var s := states[i];
            NoDup(s.cache.order) && (forall key :: key in s.cache.order <==> key in s.cache.entries) &&
            (forall key | StoredFail(s.cache, key) :: Retiring(s, s.cache.entries[key])) &&
            (Overfull(s.cache) ==> forall key | key in s.cache.entries :: s.cache.InFlight(key) || Retiring(s, s.cache.entries[key]))
  {
    RunKeepsInv(actions, states, i);
  }

  /** When no caller is between publishing and retiring, no failure is stored, and more than four
      entries means that all are in flight. */
  lemma QuiescentCache(actions: seq<Action>, states: seq<System>, i: nat)
    requires Run(actions, states) && i < |states|
    requires forall t | t in states[i].callers :: !states[i].callers[t].Closing?
    ensures forall key :: !StoredFail(states[i].cache, key)
    ensures Overfull(states[i].cache) ==> forall key | key in states[i].cache.entries :: states[i].cache.InFlight(key)
  {
    CacheStaysTidy(actions, states, i);
  }
}
