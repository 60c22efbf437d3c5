/** Prompts of desktop sessions that chats may answer: noted when raised, dropped when the turn ends, answered once.

Ids are counters of the single controllers, so two tabs do raise prompts under one id; the table knows them
by the id alone.
*/
module BotPrompts {

  datatype Option<+T> = None | Some(value: T)

  datatype Kind = Approval | Ask

  datatype Prompt = Prompt(tab: string, kind: Kind)

  /** An event of a session, or a chat's reply. */
  datatype Op =
    | Raise(id: string, prompt: Prompt)
    | TurnDone(tab: string)
    | Reply(id: string, kind: Kind)

  const PENDING_LIMIT: nat := 200

  /** `trim` is the white-space trimming of the host language. */
  function Remember(trim: string -> string, pending: map<string, Prompt>, id: string, p: Prompt): map<string, Prompt> {
    if trim(id) == "" then pending
    else (if |pending| >= PENDING_LIMIT then map[] else pending)[id := p]
  }

  function Next(trim: string -> string, pending: map<string, Prompt>, op: Op): map<string, Prompt> {
    match op
    case Raise(id, p) => Remember(trim, pending, id, p)
    case TurnDone(tab) => map id | id in pending && pending[id].tab != tab :: pending[id]
    case Reply(id, kind) => if Delivered(trim, pending, op).Some? then pending - {trim(id)} else pending
  }

  /** The tab a reply goes to, if any. */
  function Delivered(trim: string -> string, pending: map<string, Prompt>, op: Op): Option<string> {
    if op.Reply? && trim(op.id) in pending && pending[trim(op.id)].kind == op.kind then Some(pending[trim(op.id)].tab) else None
  }

  class BotBridgePrompts {
    const trim: string -> string
    var pending: map<string, Prompt>

    constructor (trim: string -> string)
      ensures this.trim == trim && pending == map[]
    {
      this.trim, pending := trim, map[];
    }

    method RememberPending(id: string, p: Prompt)
      requires |pending| <= PENDING_LIMIT
      modifies this`pending
      ensures pending == Remember(trim, old(pending), id, p) && |pending| <= PENDING_LIMIT
    {
      if trim(id) == "" {
        return;
      }
      if |pending| >= PENDING_LIMIT {
        pending := map[];
      }
      pending := pending[id := p];
    }

    method Observe(op: Op)
      requires !op.Reply? && |pending| <= PENDING_LIMIT
      modifies this`pending
      ensures pending == Next(trim, old(pending), op) && |pending| <= PENDING_LIMIT
    {
      match op
      case Raise(id, p) => RememberPending(id, p);
      case TurnDone(tab) =>
        var ids := pending.Keys;
        while ids != {}
          invariant ids <= old(pending).Keys && |pending| <= PENDING_LIMIT
          invariant pending == map id | id in old(pending) && (id in ids || old(pending)[id].tab != tab) :: old(pending)[id]
        {
          var id :| id in ids;
          ids := ids - {id};
          if pending[id].tab == tab {
            ghost var before := pending;
            pending := pending - {id};
            assert pending.Keys == before.Keys - {id};
          }
        }
    }

    /** Approve and Answer: the prompt is taken out before it is answered. */
    method TakePrompt(id: string, kind: Kind) returns (tab: Option<string>)
      requires |pending| <= PENDING_LIMIT
      modifies this`pending
      ensures pending == Next(trim, old(pending), Reply(id, kind)) && tab == Delivered(trim, old(pending), Reply(id, kind))
      ensures |pending| <= PENDING_LIMIT
    {
      var key := trim(id);
      if key !in pending || pending[key].kind != kind {
        return None;
      }
      tab := Some(pending[key].tab);
      pending := pending - {key};
      assert pending.Keys == old(pending).Keys - {key};
    }
  }

  // ---- Every history --------------------------------------------------------------------------------

  function After(trim: string -> string, ops: seq<Op>, n: nat): map<string, Prompt>
    requires n <= |ops|
  {
    if n == 0 then map[] else Next(trim, After(trim, ops, n - 1), ops[n - 1])
  }

  /** Where reply `n` goes. */
  function Sent(trim: string -> string, ops: seq<Op>, n: nat): Option<string>
    requires n < |ops|
  {
    Delivered(trim, After(trim, ops, n), ops[n])
  }

  /** Operation `m` ends the prompt of `tab` under `id`: the tab raises another one under it, its turn is over,
      or a reply reached it. */
  ghost predicate Ends(trim: string -> string, ops: seq<Op>, m: nat, id: string, tab: string)
    requires m < |ops|
  {
    match ops[m]
    case Raise(other, p) => other == id && p.tab == tab
    case TurnDone(other) => other == tab
    case Reply(other, _) => trim(other) == id && Sent(trim, ops, m) == Some(tab)
  }

  /** Another tab raises a prompt under `id`. */
  predicate RaisedElsewhere(ops: seq<Op>, m: nat, id: string, tab: string)
    requires m < |ops|
  {
    ops[m].Raise? && ops[m].id == id && ops[m].prompt.tab != tab
  }

  /** The table is full when operation `m` notes a prompt, and is emptied first. */
  predicate Overflows(trim: string -> string, ops: seq<Op>, m: nat)
    requires m < |ops|
  {
    ops[m].Raise? && trim(ops[m].id) != "" && |After(trim, ops, m)| >= PENDING_LIMIT
  }

  /** The prompt raised by operation `k` has not been ended by the time of operation `n`. */
  ghost predicate Open(trim: string -> string, ops: seq<Op>, k: nat, n: nat)
    requires k < n <= |ops|
  {
    ops[k].Raise? && trim(ops[k].id) == ops[k].id != "" &&
    forall m | k < m < n :: !Ends(trim, ops, m, ops[k].id, ops[k].prompt.tab)
  }

  /** Neither another tab's prompt nor an overflow has pushed it out. */
  ghost predicate Undisturbed(trim: string -> string, ops: seq<Op>, k: nat, n: nat)
    requires k < n <= |ops| && ops[k].Raise?
  {
    forall m | k < m < n :: !RaisedElsewhere(ops, m, ops[k].id, ops[k].prompt.tab) && !Overflows(trim, ops, m)
  }

  /** The table holds the prompt raised by operation `k`. */
  predicate Noted(trim: string -> string, ops: seq<Op>, k: nat, n: nat)
    requires k < |ops| && n <= |ops| && ops[k].Raise?
  {
    ops[k].id in After(trim, ops, n) && After(trim, ops, n)[ops[k].id].tab == ops[k].prompt.tab
  }

  lemma JustRaised(trim: string -> string, ops: seq<Op>, k: nat)
    requires k < |ops| && ops[k].Raise? && trim(ops[k].id) != ""
    ensures Noted(trim, ops, k, k + 1) && After(trim, ops, k + 1)[ops[k].id] == ops[k].prompt
  {
  }

  lemma NotedStep(trim: string -> string, ops: seq<Op>, k: nat, n: nat)
    requires k < n < |ops| && ops[k].Raise? && trim(ops[k].id) == ops[k].id != "" && !Ends(trim, ops, n, ops[k].id, ops[k].prompt.tab)
    ensures Noted(trim, ops, k, n + 1) <==>
            Noted(trim, ops, k, n) && !RaisedElsewhere(ops, n, ops[k].id, ops[k].prompt.tab) && !Overflows(trim, ops, n)
    ensures Noted(trim, ops, k, n + 1) ==> After(trim, ops, n + 1)[ops[k].id] == After(trim, ops, n)[ops[k].id]
  {
  }

  /** An open prompt is in the table exactly if it is undisturbed, and then as it was raised. */
  lemma {:induction false} OpenPromptIsNoted(trim: string -> string, ops: seq<Op>, k: nat, n: nat)
    requires k < n <= |ops| && Open(trim, ops, k, n)
    ensures Undisturbed(trim, ops, k, n) <==> Noted(trim, ops, k, n)
    ensures Noted(trim, ops, k, n) ==> After(trim, ops, n)[ops[k].id] == ops[k].prompt
    decreases n
  {
    hide Noted, Ends, RaisedElsewhere, Overflows, After;
    if k + 1 == n {
      JustRaised(trim, ops, k);
    } else {
      OpenPromptIsNoted(trim, ops, k, n - 1);
      NotedStep(trim, ops, k, n - 1);
      assert Undisturbed(trim, ops, k, n) <==>
             Undisturbed(trim, ops, k, n - 1) && !RaisedElsewhere(ops, n - 1, ops[k].id, ops[k].prompt.tab) && !Overflows(trim, ops, n - 1);
    }
  }

  /** A reply to an open prompt reaches the tab that raised it if and only if no other tab raised a prompt under
      the same id since, and the table did not overflow. */
  lemma ReplyReachesItsTabExact(trim: string -> string, ops: seq<Op>, k: nat, n: nat)
    requires k < n < |ops| && Open(trim, ops, k, n)
    requires ops[n].Reply? && trim(ops[n].id) == ops[k].id && ops[n].kind == ops[k].prompt.kind
    ensures Sent(trim, ops, n) == Some(ops[k].prompt.tab) <==> Undisturbed(trim, ops, k, n)
  {
    OpenPromptIsNoted(trim, ops, k, n);
  }

  /** Two tabs raise a prompt under the id "1": the reply to the first tab's prompt approves the second's, and the
      first tab's, though open, cannot be answered from a chat any more. */
  lemma OtherTabsPromptIsAnswered(trim: string -> string)
    requires trim("1") == "1"
    ensures var ops := [Raise("1", Prompt("A", Approval)), Raise("1", Prompt("B", Approval)), Reply("1", Approval), Reply("1", Approval)];
            Open(trim, ops, 0, 3) && Sent(trim, ops, 2) == Some("B") && Sent(trim, ops, 3) == None
  {
    var ops := [Raise("1", Prompt("A", Approval)), Raise("1", Prompt("B", Approval)), Reply("1", Approval), Reply("1", Approval)];
    var a := Prompt("A", Approval);
    var b := Prompt("B", Approval);
    assert After(trim, ops, 0) == map[];
    assert After(trim, ops, 1) == map["1" := a];
    assert |After(trim, ops, 1)| == 1;
    assert After(trim, ops, 2) == map["1" := b];
    assert Sent(trim, ops, 2) == Some("B");
    assert After(trim, ops, 3) == map[];
    assert "A" != "B" && "1" != "";
  }

  /** A noted prompt was raised, and nothing has ended it or pushed it out since. */
  lemma {:induction false} PendingHasOrigin(trim: string -> string, ops: seq<Op>, n: nat, id: string) returns (k: nat)
    requires n <= |ops| && id in After(trim, ops, n)
    ensures k < n && ops[k] == Raise(id, After(trim, ops, n)[id])
    ensures forall m | k < m < n :: !Ends(trim, ops, m, id, ops[k].prompt.tab) && !RaisedElsewhere(ops, m, id, ops[k].prompt.tab)
  {
    if ops[n - 1].Raise? && ops[n - 1].id == id && trim(id) != "" {
      k := n - 1;
    } else {
      k := PendingHasOrigin(trim, ops, n - 1, id);
      NotedIsNotBlank(trim, ops, n, id);
    }
  }

  lemma {:induction false} NotedIsNotBlank(trim: string -> string, ops: seq<Op>, n: nat, id: string)
    requires n <= |ops| && id in After(trim, ops, n)
    ensures trim(id) != ""
  {
    if !(ops[n - 1].Raise? && ops[n - 1].id == id && trim(id) != "") {
      NotedIsNotBlank(trim, ops, n - 1, id);
    }
  }

  /** Whatever a reply reaches was raised by that tab under that id, and is still open and the latest under it. */
  lemma ReplyReachesItsPrompt(trim: string -> string, ops: seq<Op>, n: nat) returns (k: nat)
    requires n < |ops| && Sent(trim, ops, n).Some?
    ensures k < n && ops[k] == Raise(trim(ops[n].id), Prompt(Sent(trim, ops, n).value, ops[n].kind))
    ensures forall m | k < m < n :: !Ends(trim, ops, m, trim(ops[n].id), Sent(trim, ops, n).value) &&
                                    !RaisedElsewhere(ops, m, trim(ops[n].id), Sent(trim, ops, n).value)
  {
    k := PendingHasOrigin(trim, ops, n, trim(ops[n].id));
  }

  /** A prompt is answered at most once: between two answers that reach one tab under one id, that tab raised it again. */
  lemma AnsweredOnce(trim: string -> string, ops: seq<Op>, m: nat, n: nat)
    requires m < n < |ops| && Sent(trim, ops, m).Some? && Sent(trim, ops, n) == Sent(trim, ops, m) && trim(ops[m].id) == trim(ops[n].id)
    ensures exists k | m < k < n :: ops[k] == Raise(trim(ops[n].id), Prompt(Sent(trim, ops, n).value, ops[n].kind))
  {
    var k := ReplyReachesItsPrompt(trim, ops, n);
    assert k < m ==> !Ends(trim, ops, m, trim(ops[n].id), Sent(trim, ops, n).value);
  }
}
