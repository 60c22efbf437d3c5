/** Temporary tokens for media files: capped in number, dropped after a fixed time to live.

`Live` is the reference: of all tokens ever created, the newest at most `maxN` that have not expired.
*/
module MediaTokens {

  const MEDIA_TOKEN_MAX: nat := 256

  datatype Option<+T> = None | Some(value: T)

  datatype Entry = Entry(path: string, expiresAt: int)

  datatype Store = Store(byTok: map<string, Entry>, order: seq<string>)

  function PopExpired(st: Store, now: int): Store
    decreases |st.order|
  {
    if st.order == [] then st
    else
      var tok := st.order[0];
      if tok !in st.byTok then PopExpired(st.(order := st.order[1..]), now)
      else if now >= st.byTok[tok].expiresAt then PopExpired(Store(st.byTok - {tok}, st.order[1..]), now)
      else st
  }

  function Trimmed(st: Store, maxN: nat): Store
    decreases |st.order|
  {
    if |st.order| <= maxN then st else Trimmed(Store(st.byTok - {st.order[0]}, st.order[1..]), maxN)
  }

  /** The clock is read twice: for the clean-up and for the expiry of the new token. */
  function Created(st: Store, maxN: nat, cleanNow: int, token: string, e: Entry): Store {
    var clean := Trimmed(PopExpired(st, cleanNow), maxN);
    Trimmed(Store(clean.byTok[token := e], clean.order + [token]), maxN)
  }

  function Got(st: Store, token: string, now: int): (Store, Option<Entry>) {
    if token !in st.byTok then (st, None)
    else if now > st.byTok[token].expiresAt then (st.(byTok := st.byTok - {token}), None)
    else (st, Some(st.byTok[token]))
  }

  class MediaTokenStore {
    var byTok: map<string, Entry>
    var order: seq<string>
    const maxN: nat
    const ttl: nat

    function State(): Store
      reads this
    {
      Store(byTok, order)
    }

    constructor (ttl: nat)
      ensures State() == Store(map[], []) && maxN == MEDIA_TOKEN_MAX && this.ttl == ttl
    {
      byTok, order, maxN, this.ttl := map[], [], MEDIA_TOKEN_MAX, ttl;
    }

    method Cleanup(now: int)
      modifies this
      ensures State() == Trimmed(PopExpired(old(State()), now), maxN)
    {
      while |order| > 0
        invariant PopExpired(State(), now) == PopExpired(old(State()), now)
        decreases |order|
      {
        var tok := order[0];
        if tok !in byTok {
          order := order[1..];
          continue;
        }
        if now >= byTok[tok].expiresAt {
          byTok := byTok - {tok};
          order := order[1..];
          continue;
        }
        break;
      }
      TrimOldest();
    }

    method TrimOldest()
      modifies this
      ensures State() == Trimmed(old(State()), maxN)
    {
      while |order| > maxN
        invariant Trimmed(State(), maxN) == Trimmed(old(State()), maxN)
        decreases |order|
      {
        var oldest := order[0];
        byTok := byTok - {oldest};
        order := order[1..];
      }
    }

    method Create(token: string, path: string, cleanNow: int, now: int)
      modifies this
      ensures State() == Created(old(State()), maxN, cleanNow, token, Entry(path, now + ttl))
    {
      Cleanup(cleanNow);
      byTok := byTok[token := Entry(path, now + ttl)];
      order := order + [token];
      TrimOldest();
    }

    method Get(token: string, now: int) returns (e: Option<Entry>)
      modifies this
      ensures (State(), e) == Got(old(State()), token, now)
    {
      if token !in byTok {
        return None;
      }
      if now > byTok[token].expiresAt {
        byTok := byTok - {token};
        return None;
      }
      return Some(byTok[token]);
    }
  }

  // ---- The reference ----------------------------------------------------------------------

  /** One token ever created. */
  datatype Issue = Issue(token: string, entry: Entry)

  ghost predicate Monotone(log: seq<Issue>) {
    forall i, j | 0 <= i <= j < |log| :: log[i].entry.expiresAt <= log[j].entry.expiresAt
  }

  ghost predicate Distinct(log: seq<Issue>) {
    forall i, j | 0 <= i < j < |log| :: log[i].token != log[j].token
  }

  /** Index of the oldest token not expired at `now`. */
  function FirstLive(log: seq<Issue>, now: int): (i: nat)
    ensures i <= |log| && forall k | 0 <= k < i :: log[k].entry.expiresAt <= now
    ensures i < |log| ==> log[i].entry.expiresAt > now
  {
    if log == [] then 0
    else if log[0].entry.expiresAt > now then 0 else 1 + FirstLive(log[1..], now)
  }

  function LiveStart(log: seq<Issue>, now: int, maxN: nat): (i: nat)
    ensures i <= |log|
  {
    var newest := if |log| > maxN then |log| - maxN else 0;
    if FirstLive(log, now) > newest then FirstLive(log, now) else newest
  }

  /** The newest at most `maxN` tokens unexpired at `now`. */
  function Live(log: seq<Issue>, now: int, maxN: nat): seq<Issue> {
    log[LiveStart(log, now, maxN)..]
  }

  function Tokens(log: seq<Issue>): (toks: seq<string>)
    ensures |toks| == |log|
  {
    seq(|log|, i requires 0 <= i < |log| => log[i].token)
  }

  /** Live tokens are unexpired, few enough, a suffix of the log, and nothing is left out unless it is expired or the limit is reached. */
  lemma LiveMeaning(log: seq<Issue>, now: int, maxN: nat)
    requires Monotone(log)
    ensures var live := Live(log, now, maxN);
            |live| <= maxN && live == log[|log| - |live|..] && (forall i | 0 <= i < |live| :: live[i].entry.expiresAt > now) &&
            forall i | 0 <= i < |log| - |live| :: log[i].entry.expiresAt <= now || |live| == maxN
  {
    assert forall j | FirstLive(log, now) <= j < |log| :: log[FirstLive(log, now)].entry.expiresAt <= log[j].entry.expiresAt;
  }

  /** The store holds the tokens of `log` from index `k` on; only expired ones may have lost their
      entry, and everything before `k` is expired or outnumbered. */
  ghost predicate Holds(st: Store, log: seq<Issue>, k: nat, clock: int, maxN: nat) {
    k <= |log| && st.order == Tokens(log[k..]) && k <= LiveStart(log, clock, maxN) &&
    (forall i | k <= i < |log| :: log[i].token !in st.byTok ==> log[i].entry.expiresAt < clock) &&
    (forall i | k <= i < |log| :: log[i].token in st.byTok ==> st.byTok[log[i].token] == log[i].entry) &&
    (forall tok | tok in st.byTok :: tok in st.order)
  }

  /** The store holds exactly the tokens of `log` from `k` on, each with its entry. */
  ghost predicate Exactly(st: Store, log: seq<Issue>, k: nat) {
    k <= |log| && st.order == Tokens(log[k..]) &&
    (forall i | k <= i < |log| :: log[i].token in st.byTok && st.byTok[log[i].token] == log[i].entry) &&
    (forall tok | tok in st.byTok :: tok in st.order)
  }

  function Max(a: int, b: int): int {
    if a < b then b else a
  }

  /** Popping expired tokens and trimming moves the start to the live one, and leaves an entry for
      every token kept. */
  lemma {:induction false} PopMovesStart(st: Store, log: seq<Issue>, k: nat, clock: int, now: int, maxN: nat)
    requires Monotone(log) && Distinct(log) && Holds(st, log, k, clock, maxN) && clock <= now
    ensures Exactly(PopExpired(st, now), log, Max(k, FirstLive(log, now)))
    decreases |log| - k
  {
    if k == |log| {
      hide PopExpired, FirstLive, LiveStart;
      assert st.order == [];
      assert PopExpired(st, now) == st && Max(k, FirstLive(log, now)) == k by {
        EmptyPops(st, log, now);
      }
    } else {
      HeadOfHeld(st, log, k);
      hide Holds, Exactly, Tokens, Monotone, Distinct, LiveStart, FirstLive;
      var dead := st.order[0] !in st.byTok || now >= st.byTok[st.order[0]].expiresAt;
      if dead {
        HeadExpired(st, log, k, clock, now, maxN);
        PopOne(st, log, k, clock, now, maxN);
        var next := Store(st.byTok - {log[k].token}, st.order[1..]);
        assert next.byTok == if st.order[0] in st.byTok then st.byTok - {st.order[0]} else st.byTok;
        PopMovesStart(next, log, k + 1, now, now, maxN);
      } else {
        NothingExpired(st, log, k, clock, now, maxN);
      }
    }
  }

  lemma EmptyPops(st: Store, log: seq<Issue>, now: int)
    requires st.order == []
    ensures PopExpired(st, now) == st && FirstLive(log, now) <= |log|
  {
  }

  lemma HeadOfHeld(st: Store, log: seq<Issue>, k: nat)
    requires k < |log| && st.order == Tokens(log[k..])
    ensures |st.order| > 0 && st.order[0] == log[k].token && st.order[1..] == Tokens(log[k + 1..])
  {
  }

  lemma HeadExpired(st: Store, log: seq<Issue>, k: nat, clock: int, now: int, maxN: nat)
    requires Monotone(log) && Holds(st, log, k, clock, maxN) && clock <= now && k < |log|
    requires log[k].token !in st.byTok || now >= st.byTok[log[k].token].expiresAt
    ensures k < FirstLive(log, now) && k + 1 <= LiveStart(log, now, maxN)
  {
    assert log[k].entry.expiresAt <= now by {
      hide Monotone, FirstLive, LiveStart, Tokens;
    }
    hide Holds, Tokens;
    assert k < FirstLive(log, now) by {
      assert FirstLive(log, now) <= k ==> log[FirstLive(log, now)].entry.expiresAt <= log[k].entry.expiresAt;
    }
    StartBound(log, k, now, maxN);
  }

  /** Popping an expired head keeps what the store holds. */
  lemma PopOne(st: Store, log: seq<Issue>, k: nat, clock: int, now: int, maxN: nat)
    requires Distinct(log) && Holds(st, log, k, clock, maxN) && clock <= now && k < |log|
    requires k + 1 <= LiveStart(log, now, maxN)
    ensures Holds(Store(st.byTok - {log[k].token}, st.order[1..]), log, k + 1, now, maxN)
  {
    hide LiveStart;
    HeadOfHeld(st, log, k);
    hide Tokens;
    forall tok | tok in st.byTok && tok != log[k].token ensures tok in st.order[1..] {
      assert tok in st.order && st.order == [st.order[0]] + st.order[1..];
    }
    assert forall i | k < i < |log| :: log[i].token != log[k].token;
  }

  lemma NothingExpired(st: Store, log: seq<Issue>, k: nat, clock: int, now: int, maxN: nat)
    requires Monotone(log) && Holds(st, log, k, clock, maxN) && clock <= now && k < |log|
    requires log[k].token in st.byTok && st.byTok[log[k].token].expiresAt > now
    ensures FirstLive(log, now) <= k && Exactly(st, log, k)
  {
    hide Tokens;
    assert forall i | k <= i < |log| :: log[k].entry.expiresAt <= log[i].entry.expiresAt;
  }

  lemma ClockMonotone(log: seq<Issue>, a: int, b: int)
    requires Monotone(log) && a <= b
    ensures FirstLive(log, a) <= FirstLive(log, b)
  {
  }

  lemma StartBound(log: seq<Issue>, k: nat, now: int, maxN: nat)
    requires k < FirstLive(log, now)
    ensures k + 1 <= LiveStart(log, now, maxN)
  {
  }

  lemma {:induction false} TrimMovesStart(st: Store, log: seq<Issue>, k: nat, maxN: nat)
    requires Distinct(log) && Exactly(st, log, k)
    ensures Exactly(Trimmed(st, maxN), log, Max(k, |log| - maxN))
    decreases |log| - k
  {
    if |st.order| > maxN {
      assert st.order[0] == log[k].token;
      assert st.order[1..] == Tokens(log[k + 1..]);
      var next := Store(st.byTok - {st.order[0]}, st.order[1..]);
      TrimMovesStart(next, log, k + 1, maxN);
    }
  }

  /** After a create the table's keys are the order list, and both are exactly the newest at most
      `maxN` tokens that were unexpired at the clean-up, the new one included. */
  lemma CreateKeepsNewest(st: Store, log: seq<Issue>, k: nat, clock: int, maxN: nat, cleanNow: int, token: string, e: Entry)
    requires Monotone(log) && Distinct(log) && Holds(st, log, k, clock, maxN) && clock <= cleanNow < e.expiresAt
    requires forall i | 0 <= i < |log| :: log[i].token != token && log[i].entry.expiresAt <= e.expiresAt
    ensures var st' := Created(st, maxN, cleanNow, token, e);
            var log' := log + [Issue(token, e)];
            st'.order == Tokens(Live(log', cleanNow, maxN)) &&
            (forall tok :: tok in st'.byTok <==> tok in st'.order) &&
            Holds(st', log', LiveStart(log', cleanNow, maxN), cleanNow, maxN)
  {
    hide Exactly, Holds, PopExpired, Trimmed, FirstLive, LiveStart, Tokens;
    var log' := log + [Issue(token, e)];
    StartOfHeld(st, log, k, clock, maxN);
    PopMovesStart(st, log, k, clock, cleanNow, maxN);
    var k1 := Max(k, FirstLive(log, cleanNow));
    TrimMovesStart(PopExpired(st, cleanNow), log, k1, maxN);
    var clean := Trimmed(PopExpired(st, cleanNow), maxN);
    var k2 := Max(k1, |log| - maxN);
    GrownHolds(clean, log, k2, token, e);
    assert Distinct(log');
    TrimMovesStart(Store(clean.byTok[token := e], clean.order + [token]), log', k2, maxN);
    FirstLiveAppend(log, Issue(token, e), cleanNow);
    ClockMonotone(log, clock, cleanNow);
    StartAfterCreate(log, Issue(token, e), k, clock, cleanNow, maxN);
    ExactlyHolds(Created(st, maxN, cleanNow, token, e), log', LiveStart(log', cleanNow, maxN), cleanNow, maxN);
  }

  lemma StartOfHeld(st: Store, log: seq<Issue>, k: nat, clock: int, maxN: nat)
    requires Holds(st, log, k, clock, maxN)
    ensures k <= LiveStart(log, clock, maxN)
  {
  }

  lemma StartAfterCreate(log: seq<Issue>, e: Issue, k: nat, clock: int, now: int, maxN: nat)
    requires k <= LiveStart(log, clock, maxN) && FirstLive(log, clock) <= FirstLive(log, now) && FirstLive(log + [e], now) == FirstLive(log, now)
    ensures Max(Max(Max(k, FirstLive(log, now)), |log| - maxN), |log| + 1 - maxN) == LiveStart(log + [e], now, maxN)
  {
  }

  lemma ExactlyHolds(st: Store, log: seq<Issue>, k: nat, clock: int, maxN: nat)
    requires Exactly(st, log, k) && k == LiveStart(log, clock, maxN)
    ensures Holds(st, log, k, clock, maxN) && st.order == Tokens(Live(log, clock, maxN))
    ensures forall tok :: tok in st.byTok <==> tok in st.order
  {
    KeysAreTokens(st, log, k);
  }

  lemma KeysAreTokens(st: Store, log: seq<Issue>, k: nat)
    requires k <= |log| && st.order == Tokens(log[k..])
    requires forall i | k <= i < |log| :: log[i].token in st.byTok
    requires forall tok | tok in st.byTok :: tok in st.order
    ensures forall tok :: tok in st.byTok <==> tok in st.order
  {
    forall tok | tok in st.order ensures tok in st.byTok {
      var i :| 0 <= i < |st.order| && st.order[i] == tok;
      assert log[k..][i] == log[k + i];
    }
  }

  lemma GrownHolds(st: Store, log: seq<Issue>, k: nat, token: string, e: Entry)
    requires Exactly(st, log, k)
    requires forall i | 0 <= i < |log| :: log[i].token != token
    ensures Exactly(Store(st.byTok[token := e], st.order + [token]), log + [Issue(token, e)], k)
  {
    var log' := log + [Issue(token, e)];
    assert log'[k..] == log[k..] + [Issue(token, e)];
  }

  lemma {:induction false} FirstLiveAppend(log: seq<Issue>, e: Issue, now: int)
    requires e.entry.expiresAt > now
    ensures FirstLive(log + [e], now) == FirstLive(log, now)
  {
    if log != [] {
      FirstLiveAppend(log[1..], e, now);
      assert (log + [e])[1..] == log[1..] + [e];
    }
  }

  /** A get finds exactly the tokens still held and not past their expiry, and disturbs nothing else. */
  lemma GetFindsHeldTokens(st: Store, log: seq<Issue>, k: nat, clock: int, maxN: nat, token: string, now: int)
    requires Monotone(log) && Distinct(log) && Holds(st, log, k, clock, maxN) && clock <= now
    ensures Holds(Got(st, token, now).0, log, k, now, maxN)
    ensures Got(st, token, now).1.Some? <==> exists i :: k <= i < |log| && log[i].token == token && now <= log[i].entry.expiresAt
    ensures Got(st, token, now).1.Some? ==> Issue(token, Got(st, token, now).1.value) in log
  {
    ClockMonotone(log, clock, now);
    if Got(st, token, now).1.Some? {
      var i :| 0 <= i < |st.order| && st.order[i] == token;
      assert log[k..][i] == log[k + i];
    }
  }

  // ---- Any sequence of calls --------------------------------------------------------------

  datatype Op = CreateOp(cleanNow: int, now: int, token: string, path: string) | GetOp(token: string, at: int)

  function OpStart(op: Op): int {
    if op.CreateOp? then op.cleanNow else op.at
  }

  function OpEnd(op: Op): int {
    if op.CreateOp? then op.now else op.at
  }

  function After(ops: seq<Op>, maxN: nat, ttl: nat): Store {
    if ops == [] then Store(map[], [])
    else
      var st, op := After(ops[..|ops| - 1], maxN, ttl), ops[|ops| - 1];
      match op
      case CreateOp(cleanNow, now, token, path) => Created(st, maxN, cleanNow, token, Entry(path, now + ttl))
      case GetOp(token, at) => Got(st, token, at).0
  }

  function Issued(ops: seq<Op>, ttl: nat): seq<Issue> {
    if ops == [] then []
    else
      var op := ops[|ops| - 1];
      Issued(ops[..|ops| - 1], ttl) + if op.CreateOp? then [Issue(op.token, Entry(op.path, op.now + ttl))] else []
  }

  /** The clock never runs backwards and tokens never repeat. */
  ghost predicate WellTimed(ops: seq<Op>) {
    (forall i | 0 <= i < |ops| :: OpStart(ops[i]) <= OpEnd(ops[i])) &&
    (forall i, j | 0 <= i < j < |ops| :: OpEnd(ops[i]) <= OpStart(ops[j])) &&
    (forall i, j | 0 <= i < j < |ops| && ops[i].CreateOp? && ops[j].CreateOp? :: ops[i].token != ops[j].token)
  }

  lemma {:induction false} IssuesFromCreates(ops: seq<Op>, ttl: nat, i: nat) returns (j: nat)
    requires i < |Issued(ops, ttl)|
    ensures j < |ops| && ops[j].CreateOp? && Issued(ops, ttl)[i] == Issue(ops[j].token, Entry(ops[j].path, ops[j].now + ttl))
  {
    var n := |ops| - 1;
    if i < |Issued(ops[..n], ttl)| {
      j := IssuesFromCreates(ops[..n], ttl, i);
    } else {
      j := n;
    }
  }

  /** For any well-timed sequence of creates and gets the store stays a suffix of the created tokens, and
      every create leaves exactly the newest live ones. */
  lemma {:induction false} StoreRefinesNewestLive(ops: seq<Op>, maxN: nat, ttl: nat) returns (k: nat)
    requires WellTimed(ops) && ttl > 0 && ops != []
    ensures Monotone(Issued(ops, ttl)) && Distinct(Issued(ops, ttl))
    ensures Holds(After(ops, maxN, ttl), Issued(ops, ttl), k, OpStart(ops[|ops| - 1]), maxN)
    ensures var last := ops[|ops| - 1];
            last.CreateOp? ==>
              After(ops, maxN, ttl).order == Tokens(Live(Issued(ops, ttl), last.cleanNow, maxN)) &&
              forall tok :: tok in After(ops, maxN, ttl).byTok <==> tok in After(ops, maxN, ttl).order
  {
    hide Holds, Created, Got, Tokens, LiveStart, Live, Monotone, Distinct;
    var n := |ops| - 1;
    var init, last := ops[..n], ops[n];
    var st, log := After(init, maxN, ttl), Issued(init, ttl);
    var clock := OpStart(last);
    k := 0;
    if init != [] {
      k := StoreRefinesNewestLive(init, maxN, ttl);
      clock := OpStart(init[n - 1]);
      assert OpStart(ops[n - 1]) <= OpEnd(ops[n - 1]) <= OpStart(ops[n]);
    } else {
      EmptyHolds(clock, maxN);
    }
    EarlierIssues(ops, ttl);
    hide WellTimed;
    match last
    case CreateOp(cleanNow, now, token, path) =>
      OneMoreIssue(log, Issue(token, Entry(path, now + ttl)));
      CreateKeepsNewest(st, log, k, clock, maxN, cleanNow, token, Entry(path, now + ttl));
      k := LiveStart(Issued(ops, ttl), cleanNow, maxN);
    case GetOp(token, at) =>
      GetFindsHeldTokens(st, log, k, clock, maxN, token, at);
      assert Issued(ops, ttl) == log;
  }

  /** A new token is fresh, and expires no earlier than those before it. */
  lemma EarlierIssues(ops: seq<Op>, ttl: nat)
    requires WellTimed(ops) && ops != []
    ensures WellTimed(ops[..|ops| - 1])
    ensures var log, last := Issued(ops[..|ops| - 1], ttl), ops[|ops| - 1];
            OpStart(last) <= OpEnd(last) &&
            (last.CreateOp? ==> forall i | 0 <= i < |log| :: log[i].token != last.token && log[i].entry.expiresAt <= last.now + ttl)
  {
    var n := |ops| - 1;
    var init, log := ops[..n], Issued(ops[..n], ttl);
    if ops[n].CreateOp? {
      forall i | 0 <= i < |log| ensures log[i].token != ops[n].token && log[i].entry.expiresAt <= ops[n].now + ttl {
        var j := IssuesFromCreates(init, ttl, i);
        assert ops[j] == init[j] && OpEnd(ops[j]) <= OpStart(ops[n]);
      }
    }
  }

  lemma OneMoreIssue(log: seq<Issue>, issue: Issue)
    requires Monotone(log) && Distinct(log)
    requires forall i | 0 <= i < |log| :: log[i].token != issue.token && log[i].entry.expiresAt <= issue.entry.expiresAt
    ensures Monotone(log + [issue]) && Distinct(log + [issue])
  {
  }

  lemma EmptyHolds(clock: int, maxN: nat)
    ensures Holds(Store(map[], []), [], 0, clock, maxN) && Monotone([]) && Distinct([])
  {
  }
}
