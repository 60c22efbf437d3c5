/** Chats of the bot gateway, as the desktop bridge addresses them. */
module BotRoutes {

  datatype ChatType = DM | Direct | Group | OtherChat(name: string)

  datatype Route = Route(platform: string, connectionID: string, domain: string, chatType: ChatType, chatID: string)

  /** The table key of a chat. The kind of chat is not part of it. */
  function Key(r: Route): string {
    r.platform + "|" + r.connectionID + "|" + r.domain + "|" + r.chatID
  }

  predicate Blank(s: string) {
    forall c | c in s :: c in {' ', '\t', '\n', '\U{B}', '\U{C}', '\r'}
  }

  /** Blanks are the space and what lies between tab and carriage return. */
  lemma BlankTold(s: string)
    ensures Blank(s) <==> forall i | 0 <= i < |s| :: s[i] == ' ' || '\t' <= s[i] <= '\r'
  {
    if Blank(s) {
      forall i | 0 <= i < |s| ensures s[i] == ' ' || '\t' <= s[i] <= '\r' {
        assert s[i] in s;
      }
    }
    if forall i | 0 <= i < |s| :: s[i] == ' ' || '\t' <= s[i] <= '\r' {
      forall c | c in s ensures c in {' ', '\t', '\n', '\U{B}', '\U{C}', '\r'} {
        var i :| 0 <= i < |s| && s[i] == c;
      }
    }
  }

  /** No bar, which parts the parts of a key, is in `s`. */
  predicate Barless(s: string) {
    forall i | 0 <= i < |s| :: s[i] != '|'
  }

  function FirstBar(s: string): nat {
    if s == "" || s[0] == '|' then 0 else 1 + FirstBar(s[1..])
  }

  lemma {:induction false} FirstBarIsAt(a: string, x: string)
    requires Barless(a)
    ensures FirstBar(a + "|" + x) == |a|
  {
    if a != "" {
      FirstBarIsAt(a[1..], x);
      assert (a + "|" + x)[1..] == a[1..] + "|" + x;
    }
  }

  lemma FirstPart(a: string, x: string, b: string, y: string)
    requires Barless(a) && Barless(b) && a + "|" + x == b + "|" + y
    ensures a == b && x == y
  {
    var s, t := a + "|" + x, b + "|" + y;
    FirstBarIsAt(a, x);
    FirstBarIsAt(b, y);
    assert a == s[..|a|] && b == t[..|a|] && x == s[|a| + 1..] && y == t[|a| + 1..];
  }

  /** Chats of one key agree in all four parts, as long as no part but the last has a bar in it. */
  lemma KeyTellsRoute(r: Route, q: Route)
    requires Barless(r.platform) && Barless(r.connectionID) && Barless(r.domain)
    requires Barless(q.platform) && Barless(q.connectionID) && Barless(q.domain)
    ensures Key(r) == Key(q) <==>
            r.platform == q.platform && r.connectionID == q.connectionID && r.domain == q.domain && r.chatID == q.chatID
  {
    if Key(r) == Key(q) {
      var r3, q3 := r.domain + "|" + r.chatID, q.domain + "|" + q.chatID;
      var r2, q2 := r.connectionID + "|" + r3, q.connectionID + "|" + q3;
      assert Key(r) == r.platform + "|" + r2 && Key(q) == q.platform + "|" + q2;
      FirstPart(r.platform, r2, q.platform, q2);
      FirstPart(r.connectionID, r3, q.connectionID, q3);
      FirstPart(r.domain, r.chatID, q.domain, q.chatID);
    }
  }
}
