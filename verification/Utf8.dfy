/** Byte strings and UTF-8 boundaries.

Go strings are byte strings: here a `string` is one, each `char` standing for one byte.
The module models the rune-boundary cuts of the desktop shell: previews, content chunks and
the trimming of a truncated read. Well-formedness is that of section 4 of RFC 3629.
*/
module Utf8 {

  /** Size of one content chunk, in bytes. */
  const HISTORY_CONTENT_CHUNK_BYTES: nat := 262144

  /** A continuation byte, 10xxxxxx. */
  predicate Continuation(c: char) {
    0x80 <= c as int < 0xC0
  }

  predicate RuneStart(c: char) {
    !Continuation(c)
  }

  /** Length announced by a lead byte; 0 when no well-formed rune starts with it. */
  function LeadLen(c: char): (n: nat)
    ensures n <= 4
    ensures n > 0 ==> RuneStart(c)
  {
    var a := c as int;
    if a < 0x80 then 1
    else if 0xC2 <= a <= 0xDF then 2
    else if 0xE0 <= a <= 0xEF then 3
    else if 0xF0 <= a <= 0xF4 then 4
    else 0
  }

  /** The second byte allowed after a given lead byte (no overlong forms, surrogates or values past U+10FFFF). */
  predicate SecondByte(lead: char, c: char) {
    var a := lead as int;
    var b := c as int;
    Continuation(c) &&
    (a == 0xE0 ==> 0xA0 <= b) &&
    (a == 0xED ==> b <= 0x9F) &&
    (a == 0xF0 ==> 0x90 <= b) &&
    (a == 0xF4 ==> b <= 0x8F)
  }

  /** Number of bytes of the well-formed rune `s` starts with; 0 when there is none. */
  function RuneLen(s: string): (n: nat)
    ensures n <= |s| && n <= 4
    ensures n > 0 ==> RuneStart(s[0]) && forall k | 0 < k < n :: Continuation(s[k])
  {
    if s == "" then 0
    else
      var n := LeadLen(s[0]);
      if n == 0 || |s| < n then 0
      else if n >= 2 && !SecondByte(s[0], s[1]) then 0
      else if n >= 3 && !Continuation(s[2]) then 0
      else if n >= 4 && !Continuation(s[3]) then 0
      else n
  }

  predicate Valid(s: string) {
    s == "" || (RuneLen(s) > 0 && Valid(s[RuneLen(s)..]))
  }

  // ---- What is well formed: the encodings of characters ----------------------------------

  /** The numbers of Unicode characters. */
  predicate Scalar(cp: int) {
    0 <= cp < 0x11_0000 && !(0xD800 <= cp < 0xE000)
  }

  function Byte(b: int): char
    requires 0 <= b < 0x100
  {
    b as char
  }

  /** The encoding of a character, by section 3 of RFC 3629. */
  function Encode(cp: int): string
    requires Scalar(cp)
  {
    if cp < 0x80 then [Byte(cp)]
    else if cp < 0x800 then [Byte(0xC0 + cp / 64), Byte(0x80 + cp % 64)]
    else if cp < 0x1_0000 then [Byte(0xE0 + cp / 4096), Byte(0x80 + cp / 64 % 64), Byte(0x80 + cp % 64)]
    else [Byte(0xF0 + cp / 262144), Byte(0x80 + cp / 4096 % 64), Byte(0x80 + cp / 64 % 64), Byte(0x80 + cp % 64)]
  }

  lemma EncodingIsRune(cp: int, rest: string)
    requires Scalar(cp)
    ensures RuneLen(Encode(cp) + rest) == |Encode(cp)| > 0
  {
    if cp < 0x80 {
    } else if cp < 0x800 {
      TwoByteRune(cp, rest);
    } else if cp < 0x1_0000 {
      ThreeByteRune(cp, rest);
    } else {
      FourByteRune(cp, rest);
    }
  }

  lemma TwoByteRune(cp: int, rest: string)
    requires 0x80 <= cp < 0x800
    ensures RuneLen(Encode(cp) + rest) == |Encode(cp)| > 0
  {
    var s := Encode(cp) + rest;
    assert s[0] == Byte(0xC0 + cp / 64) && s[1] == Byte(0x80 + cp % 64);
  }

  lemma ThreeByteRune(cp: int, rest: string)
    requires 0x800 <= cp < 0x1_0000 && Scalar(cp)
    ensures RuneLen(Encode(cp) + rest) == |Encode(cp)| > 0
  {
    var s := Encode(cp) + rest;
    assert s[0] == Byte(0xE0 + cp / 4096) && s[1] == Byte(0x80 + cp / 64 % 64) && s[2] == Byte(0x80 + cp % 64);
    Quotients(cp);
    assert cp / 4096 == 0 ==> cp / 64 % 64 >= 32;
    assert cp / 4096 == 13 ==> cp / 64 % 64 < 32;
  }

  lemma FourByteRune(cp: int, rest: string)
    requires 0x1_0000 <= cp && Scalar(cp)
    ensures RuneLen(Encode(cp) + rest) == |Encode(cp)| > 0
  {
    var s := Encode(cp) + rest;
    assert s[0] == Byte(0xF0 + cp / 262144) && s[1] == Byte(0x80 + cp / 4096 % 64);
    assert s[2] == Byte(0x80 + cp / 64 % 64) && s[3] == Byte(0x80 + cp % 64);
    Quotients(cp);
    assert cp / 262144 == 0 ==> cp / 4096 % 64 >= 16;
    assert cp / 262144 == 4 ==> cp / 4096 % 64 < 16;
  }

  /** The character that `s` starts with. */
  function Decode(s: string): int
    requires RuneLen(s) > 0
  {
    var a := s[0] as int;
    match RuneLen(s)
    case 1 => a
    case 2 => (a - 0xC0) * 64 + (s[1] as int - 0x80)
    case 3 => (a - 0xE0) * 4096 + (s[1] as int - 0x80) * 64 + (s[2] as int - 0x80)
    case _ => (a - 0xF0) * 262144 + (s[1] as int - 0x80) * 4096 + (s[2] as int - 0x80) * 64 + (s[3] as int - 0x80)
  }

  lemma Digit(x: nat, w: nat)
    requires w < 64
    ensures (x * 64 + w) / 64 == x && (x * 64 + w) % 64 == w
  {
  }

  lemma Quotients(n: nat)
    ensures n / 4096 == n / 64 / 64 && n / 262144 == n / 64 / 64 / 64
  {
  }

  lemma Digits(x: nat, y: nat, z: nat, w: nat)
    requires y < 64 && z < 64 && w < 64
    ensures var n := ((x * 64 + y) * 64 + z) * 64 + w;
            n / 262144 == x && n / 4096 == x * 64 + y && n / 4096 % 64 == y && n / 64 % 64 == z && n % 64 == w
  {
    Digit(x, y);
    Digit(x * 64 + y, z);
    Digit((x * 64 + y) * 64 + z, w);
    Quotients(((x * 64 + y) * 64 + z) * 64 + w);
  }

  lemma RuneIsEncoding(s: string)
    requires RuneLen(s) > 0
    ensures Scalar(Decode(s)) && s[..RuneLen(s)] == Encode(Decode(s))
  {
    var a := s[0] as int;
    match RuneLen(s)
    case 1 =>
    case 2 => Digit(a - 0xC0, s[1] as int - 0x80);
    case 3 => ThreeBytes(s);
    case _ => FourBytes(s);
  }

  lemma ThreeBytes(s: string)
    requires RuneLen(s) == 3
    ensures Scalar(Decode(s)) && s[..3] == Encode(Decode(s))
  {
    Digits(0, s[0] as int - 0xE0, s[1] as int - 0x80, s[2] as int - 0x80);
  }

  lemma FourBytes(s: string)
    requires RuneLen(s) == 4
    ensures Scalar(Decode(s)) && s[..4] == Encode(Decode(s))
  {
    Digits(s[0] as int - 0xF0, s[1] as int - 0x80, s[2] as int - 0x80, s[3] as int - 0x80);
  }

  predicate Scalars(cps: seq<int>) {
    forall i | 0 <= i < |cps| :: Scalar(cps[i])
  }

  function EncodeAll(cps: seq<int>): string
    requires Scalars(cps)
  {
    if cps == [] then "" else Encode(cps[0]) + EncodeAll(cps[1..])
  }

  lemma {:induction false} EncodingsAreValid(cps: seq<int>)
    requires Scalars(cps)
    ensures Valid(EncodeAll(cps))
  {
    if cps != [] {
      EncodingsAreValid(cps[1..]);
      EncodingIsRune(cps[0], EncodeAll(cps[1..]));
      hide Encode, RuneLen;
      var s := EncodeAll(cps);
      assert s[|Encode(cps[0])|..] == EncodeAll(cps[1..]);
    }
  }

  lemma ValidRest(s: string)
    requires Valid(s) && s != ""
    ensures 0 < RuneLen(s) <= |s| && Valid(s[RuneLen(s)..])
  {
    hide RuneLen;
  }

  lemma EncodeCons(cp: int, cps: seq<int>)
    requires Scalar(cp) && Scalars(cps)
    ensures Scalars([cp] + cps) && EncodeAll([cp] + cps) == Encode(cp) + EncodeAll(cps)
  {
    hide Encode, Scalar;
    assert ([cp] + cps)[1..] == cps;
  }

  lemma EncodeFirst(s: string, more: seq<int>)
    requires Valid(s) && s != "" && Scalars(more) && RuneLen(s) > 0 && EncodeAll(more) == s[RuneLen(s)..]
    ensures Scalars([Decode(s)] + more) && EncodeAll([Decode(s)] + more) == s
  {
    hide *;
    RuneIsEncoding(s);
    EncodeCons(Decode(s), more);
    assert s == s[..RuneLen(s)] + s[RuneLen(s)..];
  }

  lemma {:induction false} ValidIsEncoding(s: string) returns (cps: seq<int>)
    requires Valid(s)
    ensures Scalars(cps) && EncodeAll(cps) == s
    decreases |s|
  {
    if s == "" {
      cps := [];
    } else {
      hide *;
      ValidRest(s);
      cps := ValidIsEncoding(s[RuneLen(s)..]);
      EncodeFirst(s, cps);
      cps := [Decode(s)] + cps;
    }
  }

  /** A byte string is well formed if and only if it is the encoding of a sequence of characters. */
  lemma ValidExact(s: string)
    ensures Valid(s) <==> exists cps: seq<int> :: Scalars(cps) && EncodeAll(cps) == s
  {
    hide Valid, EncodeAll;
    if Valid(s) {
      var cps := ValidIsEncoding(s);
    }
    if cps: seq<int> :| Scalars(cps) && EncodeAll(cps) == s {
      EncodingsAreValid(cps);
    }
  }

  /** `s` starts with a complete rune or with bytes no continuation can repair. */
  predicate FullRune(s: string) {
    s != "" &&
    (|s| >= LeadLen(s[0]) ||
     (|s| > 1 && !SecondByte(s[0], s[1])) ||
     (|s| > 2 && !Continuation(s[2])))
  }

  /** A cut position that does not split a rune. */
  predicate Boundary(s: string, k: nat) {
    k == |s| || (k < |s| && RuneStart(s[k]))
  }

  lemma {:induction false} ValidConcat(a: string, b: string)
    requires Valid(a) && Valid(b)
    ensures Valid(a + b)
    decreases |a|
  {
    if a == "" {
      assert a + b == b;
    } else {
      var n := RuneLen(a);
      assert RuneLen(a + b) == n;
      assert (a + b)[n..] == a[n..] + b;
      ValidConcat(a[n..], b);
    }
  }

  /** Cutting a well-formed string at a position leaves a well-formed prefix exactly when the
      position is a boundary, and then the rest is well formed too. */
  lemma {:induction false} ValidCut(s: string, k: nat)
    requires Valid(s) && k <= |s|
    ensures Valid(s[..k]) <==> Boundary(s, k)
    ensures Boundary(s, k) ==> Valid(s[k..])
    decreases |s|
  {
    if k == 0 {
      assert s[..0] == "" && s[0..] == s;
    } else {
      var n := RuneLen(s);
      if k < n {
        assert RuneLen(s[..k]) == 0;
      } else {
        ValidCut(s[n..], k - n);
        assert s[n..][..k - n] == s[..k][n..];
        assert s[n..][k - n..] == s[k..];
        assert RuneLen(s[..k]) == n;
      }
    }
  }

  /** Any position of a well-formed string has a boundary at most three bytes before it. */
  lemma {:induction false} BoundaryNear(s: string, k: nat) returns (j: nat)
    requires Valid(s) && k <= |s|
    ensures j <= k <= j + 3 && Boundary(s, j)
    decreases |s|
  {
    if k == |s| || k == 0 {
      j := k;
    } else {
      var n := RuneLen(s);
      if k < n {
        j := 0;
      } else {
        var j' := BoundaryNear(s[n..], k - n);
        j := n + j';
      }
    }
  }

  /** The largest position in [floor, k] that is `floor` or a rune start. */
  function BackOff(s: string, floor: nat, k: nat): (r: nat)
    requires floor <= k < |s|
    ensures floor <= r <= k
    ensures r == floor || RuneStart(s[r])
    ensures forall j | r < j <= k :: !RuneStart(s[j])
  {
    if k > floor && !RuneStart(s[k]) then BackOff(s, floor, k - 1) else k
  }

  // ---- Previews -------------------------------------------------------------

  function Clip(s: string, max: int): string {
    if max <= 0 then "" else if |s| <= max then s else s[..BackOff(s, 0, max)]
  }

  method ClipStringBytes(s: string, max: int) returns (r: string)
    ensures r == Clip(s, max)
  {
    if max <= 0 {
      return "";
    }
    if |s| <= max {
      return s;
    }
    var m := max;
    while m > 0 && !RuneStart(s[m])
      invariant 0 <= m < |s|
      invariant BackOff(s, 0, m) == BackOff(s, 0, max)
    {
      m := m - 1;
    }
    return s[..m];
  }

  /** On well-formed text the preview is the longest well-formed prefix within the limit,
      and it loses at most three of the bytes the limit allows. */
  lemma ClipIsLongestValidPrefix(s: string, max: int)
    requires Valid(s)
    ensures Clip(s, max) <= s && Valid(Clip(s, max))
    ensures |Clip(s, max)| <= if max <= 0 then 0 else max
    ensures 0 < max < |s| ==> max - 3 <= |Clip(s, max)|
    ensures forall k | 0 <= k <= |s| && k <= max && Valid(s[..k]) :: k <= |Clip(s, max)|
  {
    if 0 < max < |s| {
      var b := BackOff(s, 0, max);
      ValidCut(s, 0);
      ValidCut(s, b);
      var j := BoundaryNear(s, max);
      assert j <= b;
      forall k | 0 <= k <= |s| && k <= max && Valid(s[..k]) ensures k <= b {
        ValidCut(s, k);
      }
    } else if max >= |s| {
      assert s[..|s|] == s;
    }
  }

  // ---- Trimming a truncated read ---------------------------------------------

  /** The last rune start among the final four bytes, if any. */
  function LastStart(data: string, i: int): (r: int)
    requires -1 <= i < |data|
    ensures -1 <= r <= i
    ensures r >= 0 ==> RuneStart(data[r]) && |data| - r <= 4
    ensures r >= 0 ==> forall j | r < j <= i :: !RuneStart(data[j])
    ensures r < 0 ==> forall j | 0 <= j <= i && |data| - j <= 4 :: !RuneStart(data[j])
    decreases i + 1
  {
    if i < 0 || |data| - i > 4 then -1
    else if RuneStart(data[i]) then i
    else LastStart(data, i - 1)
  }

  function TrimPartial(data: string): string {
    if Valid(data) then data
    else
      var i := LastStart(data, |data| - 1);
      if i < 0 || !Valid(data[..i]) || FullRune(data[i..]) then data else data[..i]
  }

  method TrimUTF8PartialSuffix(data: string) returns (r: string)
    ensures r == TrimPartial(data)
  {
    if Valid(data) {
      return data;
    }
    var i := |data| - 1;
    while i >= 0 && |data| - i <= 4
      invariant -1 <= i < |data|
      invariant LastStart(data, |data| - 1) == LastStart(data, i)
    {
      if !RuneStart(data[i]) {
        i := i - 1;
        continue;
      }
      if !Valid(data[..i]) || FullRune(data[i..]) {
        return data;
      }
      return data[..i];
    }
    return data;
  }

  lemma NextRuneStarts(t: string)
    requires Valid(t) && 0 < RuneLen(t) < |t|
    ensures RuneStart(t[RuneLen(t)])
  {
    var rest := t[RuneLen(t)..];
    assert RuneLen(rest) > 0;
  }

  lemma PartialRuneIsNotFull(t: string, k: nat)
    requires Valid(t) && 0 < k < |t|
    requires forall j | 0 < j <= k :: !RuneStart(t[j])
    ensures !FullRune(t[..k])
  {
    var n := RuneLen(t);
    if n < |t| {
      NextRuneStarts(t);
    }
    assert k < n;
  }

  lemma TrimAt(d: string, i: nat)
    requires i < |d| && |d| - i <= 4 && RuneStart(d[i]) && forall j | i < j < |d| :: !RuneStart(d[j])
    requires !Valid(d) && Valid(d[..i]) && !FullRune(d[i..])
    ensures TrimPartial(d) == d[..i]
  {
    assert LastStart(d, |d| - 1) == i;
  }

  lemma BackOffNear(s: string, n: nat)
    requires Valid(s) && 0 < n < |s| && !RuneStart(s[n])
    ensures n - 3 <= BackOff(s, 0, n) < n && RuneStart(s[BackOff(s, 0, n)])
  {
    var j := BoundaryNear(s, n);
    BoundaryNearStart(s);
  }

  lemma PartialSuffix(s: string, b: nat, n: nat)
    requires Valid(s) && b < n < |s| && RuneStart(s[b])
    requires forall j | b < j <= n :: !RuneStart(s[j])
    ensures Valid(s[..n][..b]) && !FullRune(s[..n][b..])
  {
    ValidCut(s, b);
    assert s[..n][..b] == s[..b];
    PartialRuneIsNotFull(s[b..], n - b);
    assert s[b..][..n - b] == s[..n][b..];
  }

  /** A cut in the middle of a rune: the trimming removes exactly the bytes of that rune. */
  lemma TrimInsideRune(s: string, n: nat)
    requires Valid(s) && 0 < n < |s| && !RuneStart(s[n])
    ensures n - 3 <= BackOff(s, 0, n) < n
    ensures TrimPartial(s[..n]) == s[..BackOff(s, 0, n)]
  {
    BackOffNear(s, n);
    var b := BackOff(s, 0, n);
    PartialSuffix(s, b, n);
    ValidCut(s, n);
    TrimAt(s[..n], b);
    assert s[..n][..b] == s[..b];
  }

  lemma BoundaryNearStart(s: string)
    requires Valid(s) && s != ""
    ensures RuneStart(s[0])
  {
  }

  /** Trimming a read that stopped anywhere inside well-formed text gives the same bytes as
      clipping that text at the stop: the longest well-formed prefix. */
  lemma TrimOfTruncatedRead(s: string, n: nat)
    requires Valid(s) && n <= |s|
    ensures TrimPartial(s[..n]) == Clip(s, n)
    ensures n - 3 <= |TrimPartial(s[..n])|
  {
    if n == |s| {
      assert s[..n] == s;
    } else if n > 0 {
      if RuneStart(s[n]) {
        ValidCut(s, n);
      } else {
        TrimInsideRune(s, n);
      }
    }
  }

  /** Bytes that complete a rune which has only begun. */
  function Completion(p: string): string
    requires p != ""
  {
    var second := if p[0] as int == 0xE0 || p[0] as int == 0xF0 then 0xA0 as char else 0x80 as char;
    var n := LeadLen(p[0]);
    if n <= |p| then ""
    else if |p| == 1 then [second] + seq(n - 2, _ => 0x80 as char)
    else seq(n - |p|, _ => 0x80 as char)
  }

  lemma CompletionWorks(p: string)
    requires p != "" && RuneStart(p[0]) && !FullRune(p)
    ensures Valid(p + Completion(p))
  {
    var q := p + Completion(p);
    assert q[0] == p[0];
    assert RuneLen(q) == LeadLen(p[0]) == |q|;
    assert q[RuneLen(q)..] == "";
  }

  lemma TrimmedDataIsTruncatedText(data: string) returns (s: string)
    requires Valid(TrimPartial(data))
    ensures Valid(s) && data <= s
  {
    hide Valid, FullRune, Completion, LeadLen;
    if Valid(data) {
      s := data;
    } else {
      var i := LastStart(data, |data| - 1);
      assert i >= 0 && Valid(data[..i]) && !FullRune(data[i..]);
      hide TrimPartial, LastStart;
      var head, p := data[..i], data[i..];
      CompletionWorks(p);
      ValidConcat(head, p + Completion(p));
      s := head + (p + Completion(p));
      assert s == data + Completion(p);
    }
  }

  /** Trimming ends in well-formed text exactly for the data that some well-formed text starts
      with; any other data comes back untouched. */
  lemma TrimValidIffTruncatedText(data: string)
    ensures Valid(TrimPartial(data)) <==> StartsWellFormedText(data)
    ensures !Valid(TrimPartial(data)) ==> TrimPartial(data) == data
  {
    if Valid(TrimPartial(data)) {
      var s := TrimmedDataIsTruncatedText(data);
    }
    if StartsWellFormedText(data) {
      var s :| Valid(s) && data <= s;
      assert data == s[..|data|];
      TrimOfTruncatedRead(s, |data|);
      ClipIsLongestValidPrefix(s, |data|);
    }
  }

  ghost predicate StartsWellFormedText(data: string) {
    exists s :: Valid(s) && data <= s
  }

  // ---- Content chunks ---------------------------------------------------------

  function ChunkEnd(s: string, off: nat): (r: nat)
    requires off <= |s|
    ensures off <= r <= |s| && r - off <= HISTORY_CONTENT_CHUNK_BYTES
  {
    var end := off + HISTORY_CONTENT_CHUNK_BYTES;
    if end >= |s| then |s| else BackOff(s, off, end)
  }

  method HistoryContentChunkEnd(s: string, off: nat) returns (r: nat)
    requires off <= |s|
    ensures r == ChunkEnd(s, off)
  {
    var end := off + HISTORY_CONTENT_CHUNK_BYTES;
    if end >= |s| {
      return |s|;
    }
    while end > off && !RuneStart(s[end])
      invariant off <= end < |s|
      invariant BackOff(s, off, end) == BackOff(s, off, off + HISTORY_CONTENT_CHUNK_BYTES)
    {
      end := end - 1;
    }
    return end;
  }

  /** A chunk ends where the text does if that is within reach; else at the last rune that starts within reach, or, if none
      does, where it began. */
  lemma ChunkIsLongest(s: string, off: nat)
    requires off <= |s|
    ensures off + HISTORY_CONTENT_CHUNK_BYTES >= |s| ==> ChunkEnd(s, off) == |s|
    ensures off + HISTORY_CONTENT_CHUNK_BYTES < |s| ==>
              (ChunkEnd(s, off) == off || RuneStart(s[ChunkEnd(s, off)])) &&
              forall k | ChunkEnd(s, off) < k <= off + HISTORY_CONTENT_CHUNK_BYTES :: !RuneStart(s[k])
  {
  }

  /** No stretch of one chunk of bytes is made of continuation bytes alone. */
  ghost predicate Splittable(s: string) {
    forall off {:trigger HasStart(s, off)} | 0 <= off && off + HISTORY_CONTENT_CHUNK_BYTES < |s| :: HasStart(s, off)
  }

  ghost predicate HasStart(s: string, off: nat)
    requires off + HISTORY_CONTENT_CHUNK_BYTES < |s|
  {
    exists k :: off < k <= off + HISTORY_CONTENT_CHUNK_BYTES && RuneStart(s[k])
  }

  /** A chunk makes progress exactly when it reaches the end of the text or a rune starts in it. */
  lemma ChunkEndProgress(s: string, off: nat)
    requires off < |s|
    ensures ChunkEnd(s, off) > off <==> off + HISTORY_CONTENT_CHUNK_BYTES >= |s| || HasStart(s, off)
  {
    if off + HISTORY_CONTENT_CHUNK_BYTES < |s| {
      var r := BackOff(s, off, off + HISTORY_CONTENT_CHUNK_BYTES);
      if r > off {
        assert off < r <= off + HISTORY_CONTENT_CHUNK_BYTES && RuneStart(s[r]);
      }
    }
  }

  lemma ValidIsSplittable(s: string)
    requires Valid(s)
    ensures Splittable(s)
  {
    forall off | 0 <= off && off + HISTORY_CONTENT_CHUNK_BYTES < |s| ensures HasStart(s, off) {
      var k := BoundaryNear(s, off + HISTORY_CONTENT_CHUNK_BYTES);
      assert off < k <= off + HISTORY_CONTENT_CHUNK_BYTES && RuneStart(s[k]);
    }
  }

  /** Where counting stands after `n` chunks. */
  function CountedTo(s: string, n: nat): (off: nat)
    ensures off <= |s|
  {
    if n == 0 then 0 else ChunkEnd(s, CountedTo(s, n - 1))
  }

  /** Counting the chunks of a text ends if and only if the text is splittable. */
  lemma CountingEndsExact(s: string)
    ensures (exists n :: CountedTo(s, n) == |s|) <==> Splittable(s)
  {
    if Splittable(s) {
      CountingAdvances(s, |s|);
      assert CountedTo(s, |s|) == |s|;
    } else {
      var off :| 0 <= off && off + HISTORY_CONTENT_CHUNK_BYTES < |s| && !HasStart(s, off);
      forall n ensures CountedTo(s, n) <= off {
        CountingStays(s, off, n);
      }
    }
  }

  lemma {:induction false} CountingAdvances(s: string, n: nat)
    requires Splittable(s)
    ensures CountedTo(s, n) == |s| || CountedTo(s, n) >= n
  {
    if n > 0 {
      CountingAdvances(s, n - 1);
      var p := CountedTo(s, n - 1);
      if p < |s| {
        ChunkEndProgress(s, p);
      }
    }
  }

  /** Counting never passes a stretch of one chunk in which no rune starts. */
  lemma {:induction false} CountingStays(s: string, off: nat, n: nat)
    requires off + HISTORY_CONTENT_CHUNK_BYTES < |s| && !HasStart(s, off)
    ensures CountedTo(s, n) <= off
  {
    if n > 0 {
      CountingStays(s, off, n - 1);
      var p := CountedTo(s, n - 1);
      assert p + HISTORY_CONTENT_CHUNK_BYTES < |s|;
      assert forall k | off < k <= off + HISTORY_CONTENT_CHUNK_BYTES :: !RuneStart(s[k]);
    }
  }

  /** A text on which counting does not end: one chunk and one byte of continuation bytes. */
  lemma CountingNeverEnds() returns (s: string)
    ensures |s| == HISTORY_CONTENT_CHUNK_BYTES + 1 && (forall i | 0 <= i < |s| :: Continuation(s[i]))
    ensures forall n :: CountedTo(s, n) == 0
  {
    s := seq(HISTORY_CONTENT_CHUNK_BYTES + 1, i => '\U{80}');
    assert !HasStart(s, 0);
    forall n ensures CountedTo(s, n) == 0 {
      CountingStays(s, 0, n);
    }
  }

  /** The chunks of `s` from `off` on. */
  ghost function ChunksFrom(s: string, off: nat): seq<string>
    requires Splittable(s) && off <= |s|
    decreases |s| - off
  {
    if off == |s| then []
    else
      ChunkEndProgress(s, off);
      [s[off..ChunkEnd(s, off)]] + ChunksFrom(s, ChunkEnd(s, off))
  }

  ghost function Chunks(s: string): seq<string>
    requires Splittable(s)
  {
    if s == "" then [""] else ChunksFrom(s, 0)
  }

  function Concat(parts: seq<string>): string {
    if parts == [] then "" else parts[0] + Concat(parts[1..])
  }

  lemma NextChunk(s: string, off: nat)
    requires Splittable(s) && off < |s|
    ensures off < ChunkEnd(s, off) <= |s|
    ensures ChunksFrom(s, off) == [s[off..ChunkEnd(s, off)]] + ChunksFrom(s, ChunkEnd(s, off))
  {
    ChunkEndProgress(s, off);
  }

  lemma NoChunkLeft(s: string)
    requires Splittable(s)
    ensures ChunksFrom(s, |s|) == [] && (s != "" ==> Chunks(s) == ChunksFrom(s, 0))
  {
  }

  method HistoryContentChunkCount(s: string) returns (chunks: nat)
    requires Splittable(s)
    ensures chunks == |Chunks(s)|
  {
    if |s| == 0 {
      return 1;
    }
    chunks := 0;
    var off := 0;
    while off < |s|
      invariant off <= |s|
      invariant chunks + |ChunksFrom(s, off)| == |ChunksFrom(s, 0)|
    {
      ChunkEndProgress(s, off);
      off := HistoryContentChunkEnd(s, off);
      chunks := chunks + 1;
    }
  }

  lemma SliceStep(all: seq<string>, i: nat, first: string, rest: seq<string>)
    requires i <= |all| && all[i..] == [first] + rest
    ensures i < |all| && all[i] == first && all[i + 1..] == rest
  {
  }

  method HistoryContentChunkAt(s: string, index: int) returns (data: string, chunks: nat)
    requires Splittable(s)
    ensures chunks == |Chunks(s)|
    ensures data == var i := if index < 0 then 0 else index; if i < |Chunks(s)| then Chunks(s)[i] else ""
  {
    chunks := HistoryContentChunkCount(s);
    NoChunkLeft(s);
    ghost var all := ChunksFrom(s, 0);
    assert all[0..] == all;
    assert s == "" ==> all == [] && Chunks(s) == [""];
    hide *;
    var want := if index < 0 then 0 else index;
    var off: nat, i := 0, 0;
    while i < want && off < |s|
      invariant 0 <= i <= want && off <= |s|
      invariant i <= |all| && ChunksFrom(s, off) == all[i..]
    {
      NextChunk(s, off);
      SliceStep(all, i, s[off..ChunkEnd(s, off)], ChunksFrom(s, ChunkEnd(s, off)));
      off := HistoryContentChunkEnd(s, off);
      i := i + 1;
    }
    if off >= |s| {
      return "", chunks;
    }
    NextChunk(s, off);
    SliceStep(all, i, s[off..ChunkEnd(s, off)], ChunksFrom(s, ChunkEnd(s, off)));
    var end := HistoryContentChunkEnd(s, off);
    data := s[off..end];
  }

  /** The chunks concatenate to the text; each is non-empty (unless the text is), within the
      chunk size, and well formed when the text is. */
  lemma {:induction false} ChunksFromRebuild(s: string, off: nat)
    requires Splittable(s) && off <= |s|
    ensures Concat(ChunksFrom(s, off)) == s[off..]
    ensures forall c | c in ChunksFrom(s, off) :: 0 < |c| <= HISTORY_CONTENT_CHUNK_BYTES
    ensures Valid(s[off..]) ==> forall c | c in ChunksFrom(s, off) :: Valid(c)
    decreases |s| - off
  {
    if off < |s| {
      var end := ChunkEnd(s, off);
      ChunkEndProgress(s, off);
      ChunksFromRebuild(s, end);
      assert s[off..] == s[off..end] + s[end..];
      if Valid(s[off..]) {
        var t := s[off..];
        ValidCut(t, end - off);
        assert t[..end - off] == s[off..end] && t[end - off..] == s[end..];
      }
    }
  }

  lemma ChunksRebuild(s: string)
    requires Valid(s)
    ensures Splittable(s) && Concat(Chunks(s)) == s
    ensures forall c | c in Chunks(s) :: Valid(c) && |c| <= HISTORY_CONTENT_CHUNK_BYTES && (s != "" ==> c != "")
  {
    ValidIsSplittable(s);
    ChunksFromRebuild(s, 0);
    assert s[0..] == s;
  }
}
