/** The prompt-history tape: the entries of all sessions in order, read a page at a time.

Sessions are scanned on first use and cached; one that cannot be read counts as empty. A cursor is a
session and an offset in it, and stands for a position on the whole tape.
*/
module PromptTape {

  datatype Option<+T> = None | Some(value: T)

  type Entry = string

  datatype Cursor = Cursor(nonce: string, session: int, offset: int)

  datatype Page = Page(entries: seq<Entry>, olderCursor: Option<Cursor>, hasOlder: bool)

  /** The session files; `None` is a file that cannot be read. */
  type Disk = string -> Option<seq<Entry>>

  function Content(disk: Disk, path: string): seq<Entry> {
    if disk(path).Some? then disk(path).value else []
  }

  function Contents(disk: Disk, sessions: seq<string>): (c: seq<seq<Entry>>)
    ensures |c| == |sessions|
  {
    seq(|sessions|, i requires 0 <= i < |sessions| => Content(disk, sessions[i]))
  }

  /** The entries of the first `i` sessions, in order. */
  function TapeTo(contents: seq<seq<Entry>>, i: nat): seq<Entry>
    requires i <= |contents|
  {
    if i == 0 then [] else TapeTo(contents, i - 1) + contents[i - 1]
  }

  function Tape(contents: seq<seq<Entry>>): seq<Entry> {
    TapeTo(contents, |contents|)
  }

  function Min(a: nat, b: nat): nat {
    if a < b then a else b
  }

  /** The tape position of (session, offset); an offset past the session's end is that end. */
  function Position(contents: seq<seq<Entry>>, session: nat, offset: nat): nat {
    if session >= |contents| then |Tape(contents)|
    else |TapeTo(contents, session)| + Min(offset, |contents[session]|)
  }

  lemma {:induction false} TapePrefix(contents: seq<seq<Entry>>, i: nat, n: nat)
    requires i <= n <= |contents|
    ensures |TapeTo(contents, i)| <= |TapeTo(contents, n)| && TapeTo(contents, i) == TapeTo(contents, n)[..|TapeTo(contents, i)|]
  {
    if i < n {
      TapePrefix(contents, i, n - 1);
    }
  }

  /** The entries of session `i` sit on the tape where the sessions before it end. */
  lemma SessionOnTape(contents: seq<seq<Entry>>, i: nat, from: nat, to: nat)
    requires i < |contents| && from <= to <= |contents[i]|
    ensures var base := |TapeTo(contents, i)|;
            base + to <= |Tape(contents)| && contents[i][from..to] == Tape(contents)[base + from..base + to]
  {
    hide TapeTo;
    TapePrefix(contents, i + 1, |contents|);
    TapeStep(contents, i);
    SliceOfPrefix(Tape(contents), TapeTo(contents, i), contents[i], from, to);
  }

  lemma TapeStep(contents: seq<seq<Entry>>, i: nat)
    requires i < |contents|
    ensures TapeTo(contents, i + 1) == TapeTo(contents, i) + contents[i]
  {
  }

  lemma SlicesJoin(tape: seq<Entry>, a: nat, b: nat, c: nat)
    requires a <= b <= c <= |tape|
    ensures tape[a..b] + tape[b..c] == tape[a..c]
  {
  }

  lemma SliceOfPrefix(tape: seq<Entry>, before: seq<Entry>, c: seq<Entry>, from: nat, to: nat)
    requires from <= to <= |c| && |before| + |c| <= |tape| && tape[..|before| + |c|] == before + c
    ensures c[from..to] == tape[|before| + from..|before| + to]
  {
    var n := |before|;
    var a, b := c[from..to], tape[n + from..n + to];
    forall k | 0 <= k < |a| ensures a[k] == b[k] {
      assert tape[..n + |c|][n + from + k] == (before + c)[n + from + k];
    }
  }

  /** Where nothing of the tape is left, the last session is empty. */
  lemma EmptyTail(contents: seq<seq<Entry>>, i: nat)
    requires i < |contents|
    ensures |TapeTo(contents, i)| <= |Tape(contents)|
    ensures |TapeTo(contents, i)| == |Tape(contents)| ==> contents[|contents| - 1] == []
  {
    TapePrefix(contents, i, |contents| - 1);
    TapeStep(contents, |contents| - 1);
  }

  /** The end of a session is the start of the next. */
  lemma SessionEnd(contents: seq<seq<Entry>>, session: nat, offset: nat)
    requires session < |contents| && offset >= |contents[session]|
    ensures Position(contents, session, offset) == Position(contents, session + 1, 0)
  {
  }

  /** (session, offset) moved on. */
  predicate Advanced(session: int, offset: int, session': int, offset': int) {
    session < session' || (session == session' && offset < offset')
  }

  class PromptHistoryTape {
    const nonce: string
    const sessions: seq<string>
    const disk: Disk
    var loaded: map<string, seq<Entry>>

    ghost predicate Valid()
      reads this
    {
      forall path | path in loaded :: loaded[path] == Content(disk, path)
    }

    ghost function Files(): seq<seq<Entry>> {
      Contents(disk, sessions)
    }

    ghost function All(): seq<Entry> {
      Tape(Files())
    }

    ghost function At(session: nat, offset: nat): nat {
      Position(Files(), session, offset)
    }

    /** How much of a session is left from an offset; 0 past the last session. */
    ghost function Left(session: nat, offset: nat): int {
      if session < |sessions| then |Content(disk, sessions[session])| - offset else 0
    }

    constructor (nonce: string, sessions: seq<string>, disk: Disk)
      ensures Valid() && this.nonce == nonce && this.sessions == sessions && this.disk == disk
    {
      this.nonce, this.sessions, this.disk, loaded := nonce, sessions, disk, map[];
    }

    /** The entries of a session, scanned once; a failed scan is remembered as empty. */
    method EntriesForSession(index: nat) returns (entries: seq<Entry>, failed: bool)
      requires Valid() && index < |sessions|
      modifies this`loaded
      ensures Valid() && sessions[index] in loaded
      ensures if failed then Content(disk, sessions[index]) == [] else entries == Content(disk, sessions[index])
      ensures disk(sessions[index]).Some? ==> !failed && entries == disk(sessions[index]).value
      ensures disk(sessions[index]).None? ==> failed || entries == []
    {
      var path := sessions[index];
      if path in loaded {
        return loaded[path], false;
      }
      var scanned := disk(path);
      if scanned.None? {
        loaded := loaded[path := []];
        return [], true;
      }
      loaded := loaded[path := scanned.value];
      return scanned.value, false;
    }

    ghost predicate LastSessionEmpty() {
      |sessions| > 0 && Content(disk, sessions[|sessions| - 1]) == []
    }

    /** What a page from (session, offset) promises: it is full unless the tape ends in it, and has a cursor exactly
        if it is full and entries are left, or only an empty session is. */
    ghost predicate IsPage(session: nat, offset: nat, limit: nat, page: Page) {
      var from := At(session, offset);
      var to := from + |page.entries|;
      |page.entries| <= limit && to <= |All()| && page.entries == All()[from..to] &&
      (|page.entries| < limit ==> to == |All()|) &&
      (page.hasOlder <==> |page.entries| == limit && (to < |All()| || LastSessionEmpty())) &&
      (page.hasOlder <==> page.olderCursor.Some?) &&
      (page.hasOlder ==>
        var next := page.olderCursor.value;
        next.nonce == nonce && 0 <= next.session < |sessions| && next.offset >= 0 && Left(next.session, next.offset) >= 0 &&
        At(next.session, next.offset) == to && Advanced(session, offset, next.session, next.offset)) &&
      (!page.hasOlder ==> to == |All()|)
    }

    /** Reads the next stretch of one session into the page. */
    method TakeFrom(session: nat, offset: nat, limit: nat, out: seq<Entry>, ghost from: nat)
      returns (session': nat, offset': nat, out': seq<Entry>)
      requires Valid() && session < |sessions| && |out| < limit
      requires At(session, offset) == from + |out| <= |All()| && out == All()[from..from + |out|]
      modifies this`loaded
      ensures Valid()
      ensures |out'| <= limit && At(session', offset') == from + |out'| <= |All()| && out' == All()[from..from + |out'|]
      ensures Advanced(session, offset, session', offset') && session' <= session + 1
      ensures session' == session + 1 ==> offset' == 0 && |out'| < limit
      ensures session' == session ==> |out'| == limit && Left(session, offset') >= 0 && sessions[session] in loaded
    {
      hide Position, Tape, Contents;
      var entries, failed := EntriesForSession(session);
      if failed || offset >= |entries| {
        SkipSession(session, offset);
        return session + 1, 0, out;
      }
      var end := if offset + limit - |out| < |entries| then offset + limit - |out| else |entries|;
      StretchOnTape(session, offset, end, from, out);
      out' := out + entries[offset..end];
      session', offset' := session, end;
      if offset' >= |entries| && |out'| < limit {
        SkipSession(session, offset');
        session', offset' := session + 1, 0;
      }
    }

    /** One page of the tape from a cursor (from the start without a usable one). */
    method ReadOlder(cursor: Option<Cursor>, limit: nat) returns (page: Page)
      requires Valid() && limit >= 1
      modifies this`loaded
      ensures Valid() && IsPage(Start(cursor).0, Start(cursor).1, limit, page)
      // It starts where a cursor of this tape points, negative places counting as 0, and else at the start.
      ensures cursor.Some? && cursor.value.nonce == nonce && cursor.value.session >= 0 && cursor.value.offset >= 0 ==>
                IsPage(cursor.value.session, cursor.value.offset, limit, page)
      ensures cursor.None? || cursor.value.nonce != nonce ==> IsPage(0, 0, limit, page)
    {
      var (start, startOffset) := Start(cursor);
      var sessionIndex, offset := start, startOffset;
      var out: seq<Entry> := [];
      ghost var from := At(start, startOffset);
      PositionOnTape(start, startOffset);
      hide Valid, Position, Tape, Contents;
      while sessionIndex < |sessions| && |out| < limit
        invariant Valid() && |out| <= limit
        invariant At(sessionIndex, offset) == from + |out| <= |All()| && out == All()[from..from + |out|]
        invariant Advanced(start, startOffset, sessionIndex, offset) || ((sessionIndex, offset) == (start, startOffset) && out == [])
        invariant sessionIndex != start ==> offset == 0 || Left(sessionIndex, offset) >= 0
        invariant |out| == limit ==>
                    sessionIndex < |sessions| && offset > 0 && Left(sessionIndex, offset) >= 0 && sessions[sessionIndex] in loaded
        decreases |sessions| - sessionIndex, limit - |out|
      {
        sessionIndex, offset, out := TakeFrom(sessionIndex, offset, limit, out, from);
      }
      if |out| == limit {
        MoreIsLeft(sessionIndex, offset);
      }
      if sessionIndex < |sessions| {
        var done := AtEnd(sessionIndex, offset);
        if done {
          SkipSession(sessionIndex, offset);
          sessionIndex, offset := sessionIndex + 1, 0;
        }
      }
      PastTheEnd(sessionIndex, offset);
      var hasOlder := sessionIndex < |sessions|;
      page := Page(out, if hasOlder then Some(Cursor(nonce, sessionIndex, offset)) else None, hasOlder);
    }

    /** The page ended exactly at the end of a session that is loaded. */
    method AtEnd(session: nat, offset: nat) returns (done: bool)
      requires Valid() && session < |sessions|
      ensures done ==> Left(session, offset) <= 0
      ensures sessions[session] in loaded ==> (done <==> Left(session, offset) <= 0)
    {
      return sessions[session] in loaded && offset >= |loaded[sessions[session]]|;
    }

    /** Past a position in a session with entries: whether more of the tape is left, and whether a session is. */
    lemma MoreIsLeft(session: nat, offset: nat)
      requires session < |sessions| && 0 < offset && Left(session, offset) >= 0
      ensures Left(session, offset) > 0 ==> At(session, offset) < |All()|
      ensures Left(session, offset) == 0 ==>
                (session + 1 < |sessions| <==> At(session, offset) < |All()| || LastSessionEmpty())
    {
      hide Content;
      if Left(session, offset) > 0 {
        SessionOnTape(Files(), session, offset, offset + 1);
      } else if session + 1 < |sessions| {
        TapeStep(Files(), session);
        EmptyTail(Files(), session + 1);
      }
    }

    lemma PastTheEnd(session: nat, offset: nat)
      ensures session >= |sessions| ==> At(session, offset) == |All()|
      ensures session < |sessions| ==> Left(session, 0) >= 0
    {
    }

    lemma StretchOnTape(session: nat, offset: nat, end: nat, from: nat, out: seq<Entry>)
      requires session < |sessions| && offset <= end <= |Content(disk, sessions[session])|
      requires At(session, offset) == from + |out| <= |All()| && out == All()[from..from + |out|]
      ensures var more := out + Content(disk, sessions[session])[offset..end];
              At(session, end) == from + |more| <= |All()| && more == All()[from..from + |more|]
    {
      hide Content, Tape;
      SessionOnTape(Files(), session, offset, end);
      SlicesJoin(All(), from, from + |out|, from + |out| + (end - offset));
    }

    /** Where a cursor starts reading. */
    function Start(cursor: Option<Cursor>): (nat, nat) {
      if cursor.Some? && cursor.value.nonce == nonce
      then (if cursor.value.session < 0 then 0 else cursor.value.session, if cursor.value.offset < 0 then 0 else cursor.value.offset)
      else (0, 0)
    }

    lemma PositionOnTape(session: nat, offset: nat)
      ensures At(session, offset) <= |All()|
      ensures forall n: nat | n <= |All()| :: All()[n..n] == []
    {
      hide Content, Tape;
      if session < |sessions| {
        SessionOnTape(Files(), session, 0, Min(offset, |Files()[session]|));
      }
    }

    lemma SkipSession(session: nat, offset: nat)
      requires session < |sessions| && Left(session, offset) <= 0
      ensures At(session, offset) == At(session + 1, 0)
    {
      SessionEnd(Files(), session, offset);
    }

    /** Follows the cursors from the start; each page may have a limit of its own. */
    method ReadAll(limits: nat -> nat) returns (out: seq<Entry>)
      requires Valid() && forall k: nat :: limits(k) >= 1
      modifies this`loaded
      ensures Valid() && out == All()
    {
      out := [];
      var cursor: Option<Cursor> := None;
      var k: nat := 0;
      StartOfTape();
      ghost var session, offset := 0, 0;
      hide Valid, Position, Tape, Contents;
      while true
        invariant Valid() && (session, offset) == Start(cursor)
        invariant At(session, offset) == |out| <= |All()| && out == All()[..|out|]
        invariant session < |sessions| ==> Left(session, offset) >= 0
        invariant session >= |sessions| ==> (session, offset) == (0, 0)
        decreases |sessions| - session, Left(session, offset)
      {
        var page := ReadOlder(cursor, limits(k));
        PageAppends(|out|, |page.entries|);
        out := out + page.entries;
        if !page.hasOlder || page.olderCursor.None? {
          assert All()[..|All()|] == All();
          return;
        }
        cursor := page.olderCursor;
        session, offset := cursor.value.session, cursor.value.offset;
        k := k + 1;
      }
    }

    lemma PageAppends(n: nat, more: nat)
      requires n + more <= |All()|
      ensures All()[..n + more] == All()[..n] + All()[n..n + more]
    {
    }

    lemma StartOfTape()
      ensures At(0, 0) == 0 && All()[..0] == [] && (0 < |sessions| ==> Left(0, 0) >= 0)
    {
    }
  }

  /** A page that ends exactly where a session ends, with only an empty session to come: it has a cursor though
      nothing is left. */
  method EmptySessionLeavesCursor(nonce: string, first: string, second: string, e: Entry) returns (tape: PromptHistoryTape, page: Page)
    requires first != second
    ensures fresh(tape) && tape.All() == [e]
    ensures page.entries == [e] && page.hasOlder
  {
    tape := new PromptHistoryTape(nonce, [first, second], path => if path == first then Some([e]) else None);
    assert Contents(tape.disk, tape.sessions) == [[e], []];
    assert TapeTo([[e], []], 2) == TapeTo([[e], []], 1) + [] && TapeTo([[e], []], 1) == [] + [e];
    page := tape.ReadOlder(None, 1);
  }
}
