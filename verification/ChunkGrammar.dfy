/**
  What the chunked decoder accepts, stated without the decoder: UTF-8 by the code points
  it encodes, white space by code point, the size line by its parts, and the body by the
  pieces it is made of. Each is an if and only if.
 */
module ChunkGrammar {
  import opened Bytes
  import opened Wrappers
  import opened Chunked

  // ----- characters -----

  /** Unicode scalar values: every code point but the surrogates. */
  predicate IsScalar(c: nat) {
    c < 0xD800 || 0xE000 <= c < 0x11_0000
  }

  /** The UTF-8 form of a scalar value (section 3 of RFC 3629). */
  function Encoded(c: nat): (s: seq<byte>)
    requires IsScalar(c)
    ensures 1 <= |s| <= 4
  {
    if c < 0x80 then [c]
    else if c < 0x800 then [0xC0 + c / 64, 0x80 + c % 64]
    else if c < 0x1_0000 then [0xE0 + c / 4096, 0x80 + c / 64 % 64, 0x80 + c % 64]
    else [0xF0 + c / 262144, 0x80 + c / 4096 % 64, 0x80 + c / 64 % 64, 0x80 + c % 64]
  }

  ghost predicate AreScalars(cs: seq<nat>) {
    forall i :: 0 <= i < |cs| ==> IsScalar(cs[i])
  }

  ghost function Encoding(cs: seq<nat>): seq<byte>
    requires AreScalars(cs)
  {
    if cs == [] then [] else Encoded(cs[0]) + Encoding(cs[1..])
  }

  /** Bytes of two, three and four, and the code point they stand for. */
  lemma Split2(a: nat, b: nat)
    requires 2 <= a < 32 && b < 64
    ensures var c := 64 * a + b; 0x80 <= c < 0x800 && c / 64 == a && c % 64 == b
  {
  }

  lemma Split3(a: nat, b: nat, d: nat)
    requires a < 16 && b < 64 && d < 64
    ensures var c := 4096 * a + 64 * b + d; c < 0x1_0000 && c / 4096 == a && c / 64 % 64 == b && c % 64 == d
  {
    var c := 4096 * a + 64 * b + d;
    assert c / 64 == 64 * a + b;
  }

  lemma Split4(a: nat, b: nat, d: nat, e: nat)
    requires a < 8 && b < 64 && d < 64 && e < 64
    ensures
      var c := 262144 * a + 4096 * b + 64 * d + e;
      c / 262144 == a && c / 4096 % 64 == b && c / 64 % 64 == d && c % 64 == e
  {
    var c := 262144 * a + 4096 * b + 64 * d + e;
    assert c / 64 == 4096 * a + 64 * b + d;
    assert c / 4096 == 64 * a + b;
  }

  /** Which bytes the forms of two, three and four have: the ranges that rule out overlong forms,
      surrogates and values that are too big. */
  lemma Lead2(c: nat)
    requires 0x80 <= c < 0x800
    ensures 2 <= c / 64 <= 31 && c % 64 < 64
  {
  }

  lemma Lead3(c: nat)
    requires 0x800 <= c < 0x1_0000 && IsScalar(c)
    ensures
      var a, b := c / 4096, c / 64 % 64;
      a < 16 && b < 64 && c % 64 < 64 && (a == 0 ==> b >= 32) && (a == 13 ==> b < 32)
  {
    assert c / 64 == 64 * (c / 4096) + c / 64 % 64;
  }

  lemma Lead4(c: nat)
    requires 0x1_0000 <= c < 0x11_0000
    ensures
      var a, b := c / 262144, c / 4096 % 64;
      a <= 4 && b < 64 && c / 64 % 64 < 64 && c % 64 < 64 && (a == 0 ==> b >= 16) && (a == 4 ==> b < 16)
  {
    assert c / 4096 == 64 * (c / 262144) + c / 4096 % 64;
  }

  lemma Len2(s: seq<byte>)
    requires |s| >= 2 && 0xC2 <= s[0] <= 0xDF && 0x80 <= s[1] <= 0xBF
    ensures CharLen(s) == 2
  {
  }

  lemma Len3(s: seq<byte>)
    requires |s| >= 3 && 0xE0 <= s[0] <= 0xEF && 0x80 <= s[1] <= 0xBF && 0x80 <= s[2] <= 0xBF
    requires (s[0] == 0xE0 ==> s[1] >= 0xA0) && (s[0] == 0xED ==> s[1] < 0xA0)
    ensures CharLen(s) == 3
  {
  }

  lemma Len4(s: seq<byte>)
    requires |s| >= 4 && 0xF0 <= s[0] <= 0xF4 && 0x80 <= s[1] <= 0xBF && 0x80 <= s[2] <= 0xBF && 0x80 <= s[3] <= 0xBF
    requires (s[0] == 0xF0 ==> s[1] >= 0x90) && (s[0] == 0xF4 ==> s[1] < 0x90)
    ensures CharLen(s) == 4
  {
  }

  /** A scalar value is read as one character of its own length. */
  lemma EncodedIsChar(c: nat, rest: seq<byte>)
    requires IsScalar(c)
    ensures CharLen(Encoded(c) + rest) == |Encoded(c)|
  {
    var s := Encoded(c) + rest;
    if c < 0x80 {
      assert s[0] == c;
    } else if c < 0x800 {
      hide CharLen;
      Lead2(c);
      Len2(s);
    } else if c < 0x1_0000 {
      hide CharLen;
      Lead3(c);
      Len3(s);
    } else {
      hide CharLen;
      Lead4(c);
      Len4(s);
    }
  }

  lemma Char2(s: seq<byte>) returns (c: nat)
    requires CharLen(s) == 2
    ensures IsScalar(c) && Encoded(c) == [s[0], s[1]]
  {
    var a: nat, b: nat := s[0] - 0xC0, s[1] - 0x80;
    Split2(a, b);
    c := 64 * a + b;
  }

  lemma Char3(s: seq<byte>) returns (c: nat)
    requires CharLen(s) == 3
    ensures IsScalar(c) && Encoded(c) == [s[0], s[1], s[2]]
  {
    var a: nat, b: nat, d: nat := s[0] - 0xE0, s[1] - 0x80, s[2] - 0x80;
    Split3(a, b, d);
    c := 4096 * a + 64 * b + d;
  }

  lemma Char4(s: seq<byte>) returns (c: nat)
    requires CharLen(s) == 4
    ensures IsScalar(c) && Encoded(c) == [s[0], s[1], s[2], s[3]]
  {
    var a: nat, b: nat, d: nat, e: nat := s[0] - 0xF0, s[1] - 0x80, s[2] - 0x80, s[3] - 0x80;
    Split4(a, b, d, e);
    c := 262144 * a + 4096 * b + 64 * d + e;
  }

  lemma Char1(s: seq<byte>)
    requires CharLen(s) == 1
    ensures IsScalar(s[0]) && Encoded(s[0]) == [s[0]]
  {
  }

  /** And only scalar values are. */
  lemma CharIsEncoded(s: seq<byte>) returns (c: nat)
    requires CharLen(s) > 0
    ensures IsScalar(c) && s[..CharLen(s)] == Encoded(c)
  {
    hide CharLen, IsScalar, Encoded;
    var n := CharLen(s);
    if n == 1 {
      Char1(s);
      c := s[0];
    } else if n == 2 {
      c := Char2(s);
    } else if n == 3 {
      c := Char3(s);
    } else {
      c := Char4(s);
    }
  }

  lemma {:induction false} EncodingIsUtf8(cs: seq<nat>)
    requires AreScalars(cs)
    ensures Utf8(Encoding(cs))
    decreases |cs|
  {
    hide CharLen, Encoded;
    if cs != [] {
      EncodingIsUtf8(cs[1..]);
      EncodedIsChar(cs[0], Encoding(cs[1..]));
      var s, n := Encoding(cs), |Encoded(cs[0])|;
      assert s[n..] == Encoding(cs[1..]);
    }
  }

  lemma {:induction false} Utf8IsEncoding(s: seq<byte>) returns (cs: seq<nat>)
    requires Utf8(s)
    ensures AreScalars(cs) && Encoding(cs) == s
    decreases |s|
  {
    hide CharLen, Encoded, IsScalar;
    if s == [] {
      cs := [];
    } else {
      var n := CharLen(s);
      var c := CharIsEncoded(s);
      var more := Utf8IsEncoding(s[n..]);
      cs := [c] + more;
      assert cs[1..] == more;
      assert s == s[..n] + s[n..];
    }
  }

  /** The decoder's UTF-8 is UTF-8: the byte strings that encode some scalar values, and no others. */
  lemma Utf8Iff(s: seq<byte>)
    ensures Utf8(s) <==> exists cs :: AreScalars(cs) && Encoding(cs) == s
  {
    if Utf8(s) {
      var cs := Utf8IsEncoding(s);
    }
    forall cs | AreScalars(cs) && Encoding(cs) == s
      ensures Utf8(s)
    {
      EncodingIsUtf8(cs);
    }
  }

  // ----- white space -----

  /** The code points with the property White_Space. */
  predicate IsSpace(c: nat) {
    || 9 <= c <= 13 || c == 32 || c == 0x85 || c == 0xA0 || c == 0x1680
    || 0x2000 <= c <= 0x200A || c == 0x2028 || c == 0x2029 || c == 0x202F || c == 0x205F || c == 0x3000
  }

  lemma BlankIff(c: nat)
    requires IsScalar(c)
    ensures IsBlank(Encoded(c)) <==> IsSpace(c)
  {
  }

  lemma BlankIsChar(s: seq<byte>)
    requires IsBlank(s)
    ensures exists c :: IsSpace(c) && IsScalar(c) && Encoded(c) == s
  {
    assert CharLen(s) == |s|;
    var c := CharIsEncoded(s);
    assert s[..|s|] == s;
    BlankIff(c);
  }

  // ----- numbers -----

  /** The digits of a value below sixteen. */
  const LOWER: seq<byte> := [0x30, 0x31, 0x32, 0x33, 0x34, 0x35, 0x36, 0x37, 0x38, 0x39, 0x61, 0x62, 0x63, 0x64, 0x65, 0x66]
  const UPPER: seq<byte> := [0x30, 0x31, 0x32, 0x33, 0x34, 0x35, 0x36, 0x37, 0x38, 0x39, 0x41, 0x42, 0x43, 0x44, 0x45, 0x46]

  lemma HexDigitIff(b: byte, v: nat)
    ensures HexDigit(b) == Some(v) <==> v < 16 && (b == LOWER[v] || b == UPPER[v])
  {
  }

  /** A 64-bit number in hexadecimal digits of either case, perhaps with a plus sign in front. */
  ghost predicate IsNumber(s: seq<byte>, n: nat) {
    exists digits :: digits != [] && (s == digits || s == [0x2B] + digits) && HexValue(digits) == Some(n) && n < USIZE
  }

  lemma {:induction false} DigitsOnly(digits: seq<byte>)
    requires HexValue(digits).Some?
    ensures forall i :: 0 <= i < |digits| ==> HexDigit(digits[i]).Some?
    decreases |digits|
  {
    if digits != [] {
      DigitsOnly(digits[..|digits| - 1]);
    }
  }

  lemma FromHexIff(s: seq<byte>, n: nat)
    ensures FromHex(s) == Some(n) <==> IsNumber(s, n)
  {
    hide HexValue;
    if FromHex(s) == Some(n) {
      var digits := if |s| > 1 && s[0] == 0x2B then s[1..] else s;
      assert s == digits || s == [0x2B] + digits;
    }
    if IsNumber(s, n) {
      var digits :| digits != [] && (s == digits || s == [0x2B] + digits) && HexValue(digits) == Some(n) && n < USIZE;
      DigitsOnly(digits);
      assert HexDigit(digits[0]).Some?;
      if s == [0x2B] + digits {
        assert s[1..] == digits;
      }
    }
  }

  // ----- the size line -----

  ghost predicate AreBlanks(ws: seq<seq<byte>>) {
    forall i :: 0 <= i < |ws| ==> IsBlank(ws[i])
  }

  function Joined(ws: seq<seq<byte>>): seq<byte> {
    if ws == [] then [] else ws[0] + Joined(ws[1..])
  }

  lemma {:induction false} JoinedAppend(a: seq<seq<byte>>, b: seq<seq<byte>>)
    ensures Joined(a + b) == Joined(a) + Joined(b)
    decreases |a|
  {
    if a == [] {
      assert a + b == b;
    } else {
      assert (a + b)[1..] == a[1..] + b;
      JoinedAppend(a[1..], b);
    }
  }

  lemma JoinedOne(w: seq<byte>)
    ensures Joined([w]) == w
  {
    assert Joined([w]) == w + Joined([]);
  }

  lemma BlankLength(s: seq<byte>)
    requires IsBlank(s)
    ensures 1 <= |s| <= 3
  {
  }

  /** No white space character is the beginning or the end of another. */
  lemma BlankAlone(w: seq<byte>, j: nat)
    requires IsBlank(w) && 0 < j < |w|
    ensures !IsBlank(w[..j]) && !IsBlank(w[|w| - j..])
  {
  }

  lemma TrimStartHead(s: seq<byte>, k: nat)
    requires 0 < k <= |s| && IsBlank(s[..k])
    ensures TrimStart(s) == TrimStart(s[k..])
  {
    hide IsBlank;
    BlankLength(s[..k]);
    if k > 1 {
      BlankAlone(s[..k], 1);
      assert s[..k][..1] == s[..1];
    }
    if k > 2 {
      BlankAlone(s[..k], 2);
      assert s[..k][..2] == s[..2];
    }
  }

  /** The length of the white space character at the end, or zero. */
  function LastBlank(s: seq<byte>): (k: nat)
    ensures k <= |s|
  {
    if |s| >= 1 && IsBlank(s[|s| - 1..]) then 1
    else if |s| >= 2 && IsBlank(s[|s| - 2..]) then 2
    else if |s| >= 3 && IsBlank(s[|s| - 3..]) then 3
    else 0
  }

  lemma TrimEndOnce(s: seq<byte>, k: nat)
    requires k == LastBlank(s)
    ensures TrimEnd(s) == if k == 0 then s else TrimEnd(s[..|s| - k])
  {
    hide IsBlank;
    var n := |s|;
    if k == 1 {
      assert TrimEnd(s) == TrimEnd(s[..n - 1]);
    } else if k == 2 {
      assert TrimEnd(s) == TrimEnd(s[..n - 2]);
    } else if k == 3 {
      assert TrimEnd(s) == TrimEnd(s[..n - 3]);
    }
  }

  lemma NoShorterBlank(s: seq<byte>, k: nat, j: nat)
    requires 0 < j < k <= |s| && IsBlank(s[|s| - k..])
    ensures !IsBlank(s[|s| - j..])
  {
    hide IsBlank;
    BlankAlone(s[|s| - k..], j);
    TailOfTail(s, k, j);
  }

  lemma LastBlankIs(s: seq<byte>, k: nat)
    requires 0 < k <= |s| && IsBlank(s[|s| - k..])
    ensures LastBlank(s) == k
  {
    BlankLength(s[|s| - k..]);
    if k == 1 {
      hide IsBlank;
    } else if k == 2 {
      hide IsBlank;
      NoShorterBlank(s, 2, 1);
    } else {
      hide IsBlank;
      NoShorterBlank(s, 3, 1);
      NoShorterBlank(s, 3, 2);
    }
  }

  lemma TailOfTail<T>(s: seq<T>, k: nat, j: nat)
    requires j <= k <= |s|
    ensures s[|s| - k..][|s[|s| - k..]| - j..] == s[|s| - j..]
  {
  }

  lemma TrimEndLast(s: seq<byte>, k: nat)
    requires 0 < k <= |s| && IsBlank(s[|s| - k..])
    ensures TrimEnd(s) == TrimEnd(s[..|s| - k])
  {
    hide IsBlank, LastBlank, TrimEnd;
    LastBlankIs(s, k);
    TrimEndOnce(s, k);
  }

  lemma {:induction false} TrimStartJoined(ws: seq<seq<byte>>, s: seq<byte>)
    requires AreBlanks(ws)
    ensures TrimStart(Joined(ws) + s) == TrimStart(s)
    decreases |ws|
  {
    hide TrimStart, IsBlank;
    if ws == [] {
      assert [] + s == s;
    } else {
      var t := Joined(ws) + s;
      BlankLength(ws[0]);
      assert t[..|ws[0]|] == ws[0] && t[|ws[0]|..] == Joined(ws[1..]) + s;
      TrimStartHead(t, |ws[0]|);
      TrimStartJoined(ws[1..], s);
    }
  }

  lemma {:induction false} TrimEndJoined(ws: seq<seq<byte>>, s: seq<byte>)
    requires AreBlanks(ws)
    ensures TrimEnd(s + Joined(ws)) == TrimEnd(s)
    decreases |ws|
  {
    hide TrimEnd, IsBlank;
    if ws == [] {
      assert s + [] == s;
    } else {
      var front, w := ws[..|ws| - 1], ws[|ws| - 1];
      assert ws == front + [w];
      JoinedAppend(front, [w]);
      JoinedOne(w);
      BlankLength(w);
      var t := s + Joined(ws);
      assert t == (s + Joined(front)) + w;
      assert t[|t| - |w|..] == w && t[..|t| - |w|] == s + Joined(front);
      TrimEndLast(t, |w|);
      TrimEndJoined(front, s);
    }
  }

  /** What is trimmed off is white space. */
  lemma {:induction false} TrimStartSplit(s: seq<byte>) returns (ws: seq<seq<byte>>)
    ensures AreBlanks(ws) && s == Joined(ws) + TrimStart(s)
    decreases |s|
  {
    hide IsBlank;
    var k :=
      if |s| >= 1 && IsBlank(s[..1]) then 1 else if |s| >= 2 && IsBlank(s[..2]) then 2
      else if |s| >= 3 && IsBlank(s[..3]) then 3 else 0;
    if k == 0 {
      ws := [];
    } else {
      var more := TrimStartSplit(s[k..]);
      ws := [s[..k]] + more;
      JoinedAppend([s[..k]], more);
      JoinedOne(s[..k]);
      Rejoin(s, k, Joined(more), TrimStart(s[k..]));
    }
  }

  lemma Rejoin<T>(s: seq<T>, k: nat, a: seq<T>, b: seq<T>)
    requires k <= |s| && s[k..] == a + b
    ensures s == (s[..k] + a) + b
  {
  }

  lemma RejoinEnd<T>(s: seq<T>, k: nat, a: seq<T>, b: seq<T>)
    requires k <= |s| && s[..k] == a + b
    ensures s == a + (b + s[k..])
  {
    assert s == s[..k] + s[k..];
  }

  lemma {:induction false} TrimEndSplit(s: seq<byte>) returns (ws: seq<seq<byte>>)
    ensures AreBlanks(ws) && s == TrimEnd(s) + Joined(ws)
    decreases |s|
  {
    hide IsBlank, TrimEnd;
    var k := LastBlank(s);
    TrimEndOnce(s, k);
    if k == 0 {
      ws := [];
    } else {
      var m := |s| - k;
      var more := TrimEndSplit(s[..m]);
      ws := more + [s[m..]];
      JoinedAppend(more, [s[m..]]);
      JoinedOne(s[m..]);
      RejoinEnd(s, m, TrimEnd(s[..m]), Joined(more));
    }
  }

  /** Text that neither starts nor ends with white space. */
  lemma NumberEnds(s: seq<byte>, n: nat)
    requires IsNumber(s, n)
    ensures s != [] && TrimStart(s) == s && TrimEnd(s) == s && SEMICOLON !in s
    ensures forall trail :: TrimStart(s + trail) == s + trail
  {
    var digits :| digits != [] && (s == digits || s == [0x2B] + digits) && HexValue(digits) == Some(n) && n < USIZE;
    DigitsOnly(digits);
    hide HexValue;
    forall i | 0 <= i < |s|
      ensures s[i] == 0x2B || HexDigit(s[i]).Some?
    {
      if s != digits && i > 0 {
        assert s[i] == digits[i - 1];
      }
    }
    Solid(s);
    forall trail: seq<byte>
      ensures TrimStart(s + trail) == s + trail
    {
      SolidStart(s + trail);
    }
  }

  predicate IsSolid(b: byte) {
    b == 0x2B || HexDigit(b).Some?
  }

  lemma Solid(s: seq<byte>)
    requires s != [] && forall i :: 0 <= i < |s| ==> IsSolid(s[i])
    ensures TrimStart(s) == s && TrimEnd(s) == s && SEMICOLON !in s
  {
    hide TrimStart, TrimEnd;
    SolidStart(s);
    SolidEnd(s);
    assert !IsSolid(SEMICOLON);
    hide IsSolid;
  }

  lemma SolidIsNoBlank(w: seq<byte>)
    requires w != [] && (IsSolid(w[0]) || IsSolid(w[|w| - 1]))
    ensures !IsBlank(w)
  {
  }

  lemma SolidStart(s: seq<byte>)
    requires s != [] && IsSolid(s[0])
    ensures TrimStart(s) == s
  {
    hide IsBlank, IsSolid;
    SolidIsNoBlank(s[..1]);
    if |s| >= 2 { SolidIsNoBlank(s[..2]); }
    if |s| >= 3 { SolidIsNoBlank(s[..3]); }
  }

  lemma SolidEnd(s: seq<byte>)
    requires s != [] && IsSolid(s[|s| - 1])
    ensures TrimEnd(s) == s
  {
    hide IsBlank, IsSolid;
    SolidTail(s, 1);
    SolidTail(s, 2);
    SolidTail(s, 3);
  }

  lemma SolidTail(s: seq<byte>, k: nat)
    requires k > 0 && s != [] && IsSolid(s[|s| - 1])
    ensures k <= |s| ==> !IsBlank(s[|s| - k..])
  {
    hide IsBlank, IsSolid;
    if k <= |s| {
      var w := s[|s| - k..];
      assert w[|w| - 1] == s[|s| - 1];
      SolidIsNoBlank(w);
    }
  }

  lemma {:induction false} BeforeSemicolonSplit(s: seq<byte>) returns (ext: seq<byte>)
    ensures s == BeforeSemicolon(s) + ext && (ext == [] || ext[0] == SEMICOLON)
  {
    if s == [] || s[0] == SEMICOLON {
      ext := s;
    } else {
      ext := BeforeSemicolonSplit(s[1..]);
    }
  }

  lemma {:induction false} BeforeSemicolonIs(a: seq<byte>, ext: seq<byte>)
    requires SEMICOLON !in a && (ext == [] || ext[0] == SEMICOLON)
    ensures BeforeSemicolon(a + ext) == a
  {
    if a == [] {
      assert a + ext == ext;
    } else {
      assert (a + ext)[1..] == a[1..] + ext;
      BeforeSemicolonIs(a[1..], ext);
      assert [a[0]] + a[1..] == a;
    }
  }

  lemma BlankHasNoSemicolon(w: seq<byte>)
    requires IsBlank(w)
    ensures SEMICOLON !in w
  {
  }

  lemma {:induction false} BlanksHaveNoSemicolon(ws: seq<seq<byte>>)
    requires AreBlanks(ws)
    ensures SEMICOLON !in Joined(ws)
    decreases |ws|
  {
    hide IsBlank;
    if ws != [] {
      BlankHasNoSemicolon(ws[0]);
      BlanksHaveNoSemicolon(ws[1..]);
    }
  }

  /** The parts of a size line: white space, the number, white space, and perhaps an extension. */
  ghost predicate Parts(line: seq<byte>, n: nat, lead: seq<seq<byte>>, number: seq<byte>, trail: seq<seq<byte>>, ext: seq<byte>) {
    && line == Joined(lead) + (number + Joined(trail)) + ext
    && AreBlanks(lead) && AreBlanks(trail) && IsNumber(number, n)
    && (ext == [] || ext[0] == SEMICOLON)
  }

  lemma PartsParse(line: seq<byte>, n: nat, lead: seq<seq<byte>>, number: seq<byte>, trail: seq<seq<byte>>, ext: seq<byte>)
    requires Parts(line, n, lead, number, trail, ext) && Utf8(line)
    ensures ParseSizeLine(line) == Some(n)
  {
    hide IsNumber, AreBlanks, Joined, TrimStart, TrimEnd, BeforeSemicolon, FromHex, Utf8;
    var size := Joined(lead) + (number + Joined(trail));
    NumberEnds(number, n);
    BlanksHaveNoSemicolon(lead);
    BlanksHaveNoSemicolon(trail);
    BeforeSemicolonIs(size, ext);
    TrimStartJoined(lead, number + Joined(trail));
    TrimEndJoined(trail, number);
    FromHexIff(number, n);
  }

  lemma ParsedParts(line: seq<byte>, n: nat)
    returns (lead: seq<seq<byte>>, number: seq<byte>, trail: seq<seq<byte>>, ext: seq<byte>)
    requires ParseSizeLine(line) == Some(n)
    ensures Parts(line, n, lead, number, trail, ext)
  {
    hide IsNumber, AreBlanks, Joined, TrimStart, TrimEnd, BeforeSemicolon, FromHex, Utf8;
    ext := BeforeSemicolonSplit(line);
    var size := BeforeSemicolon(line);
    lead := TrimStartSplit(size);
    trail := TrimEndSplit(TrimStart(size));
    number := TrimEnd(TrimStart(size));
    FromHexIff(number, n);
  }

  /** A size line is accepted, with a size, exactly if it is UTF-8 text made of a 64-bit hexadecimal
      number, white space around it, and perhaps an extension behind a semicolon. */
  lemma SizeLineIff(line: seq<byte>, n: nat)
    ensures ParseSizeLine(line) == Some(n) <==>
            Utf8(line) && exists lead, number, trail, ext :: Parts(line, n, lead, number, trail, ext)
  {
    hide Parts;
    if ParseSizeLine(line) == Some(n) {
      var lead, number, trail, ext := ParsedParts(line, n);
    }
    forall lead, number, trail, ext | Utf8(line) && Parts(line, n, lead, number, trail, ext)
      ensures ParseSizeLine(line) == Some(n)
    {
      PartsParse(line, n, lead, number, trail, ext);
    }
  }

  // ----- the body -----

  /** A chunk as the decoder reads it: the two bytes behind the data may be any two. */
  datatype Loose = Loose(line: seq<byte>, data: seq<byte>, end: seq<byte>)

  ghost predicate IsLoose(c: Loose) {
    && IsChunk(Chunk(c.line, c.data)) && |c.end| == 2
  }

  ghost predicate AreLoose(chunks: seq<Loose>) {
    forall i :: 0 <= i < |chunks| ==> IsLoose(chunks[i])
  }

  function PrintLoose(chunks: seq<Loose>): seq<byte> {
    if chunks == [] then [] else (chunks[0].line + CRLF + (chunks[0].data + chunks[0].end)) + PrintLoose(chunks[1..])
  }

  function LooseData(chunks: seq<Loose>): seq<byte> {
    if chunks == [] then [] else chunks[0].data + LooseData(chunks[1..])
  }

  /** A whole body and what the connection carries behind it. */
  ghost predicate IsBody(s: seq<byte>, chunks: seq<Loose>, last: seq<byte>, trailers: seq<seq<byte>>, rest: seq<byte>) {
    && AreLoose(chunks) && IsLine(last) && ParseSizeLine(last) == Some(0) && AreTrailers(trailers)
    && s == PrintLoose(chunks) + (last + CRLF + (PrintTrailers(trailers) + rest))
  }

  lemma {:induction false} FoundCrlf(s: seq<byte>, e: nat)
    requires FirstCrlf(s) == Some(e)
    ensures e + 2 <= |s| && IsLine(s[..e]) && s == s[..e] + CRLF + s[e + 2..]
    decreases |s|
  {
    if e > 0 {
      FoundCrlf(s[1..], e - 1);
      forall i | 0 <= i < |s[..e]| - 1
        ensures !(s[..e][i] == CR && s[..e][i + 1] == LF)
      {
        if i > 0 {
          assert s[1..][..e - 1][i - 1] == s[i] && s[1..][..e - 1][i] == s[i + 1];
        }
      }
      assert s[e] == s[1..][e - 1] && s[e + 1] == s[1..][e];
    }
  }

  lemma {:induction false} TrailersFound(s: seq<byte>) returns (trailers: seq<seq<byte>>, rest: seq<byte>)
    requires TrailersEnd(s)
    ensures AreTrailers(trailers) && s == PrintTrailers(trailers) + rest
    decreases |s|
  {
    hide FirstCrlf, IsLine;
    var e := FirstCrlf(s).value;
    FoundCrlf(s, e);
    if e == 0 {
      trailers, rest := [], s[2..];
      assert s == [] + CRLF + s[2..];
    } else {
      var more;
      more, rest := TrailersFound(s[e + 2..]);
      trailers := [s[..e]] + more;
      assert trailers[1..] == more;
      assert s == (s[..e] + CRLF + PrintTrailers(more)) + rest;
    }
  }

  lemma LooseOne(line: seq<byte>, data: seq<byte>, end: seq<byte>, more: seq<Loose>, rest: seq<byte>)
    ensures PrintLoose([Loose(line, data, end)] + more) + rest == line + CRLF + (data + end + (PrintLoose(more) + rest))
    ensures LooseData([Loose(line, data, end)] + more) == data + LooseData(more)
  {
    var all := [Loose(line, data, end)] + more;
    assert all[1..] == more;
  }

  /** The size the first line declares. */
  function FirstSize(s: seq<byte>): Option<nat> {
    match FirstCrlf(s)
    case None => None
    case Some(e) => ParseSizeLine(s[..e])
  }

  lemma DecodesSize(s: seq<byte>, body: seq<byte>, max: nat)
    requires BodyOf(s, body, max).Some?
    ensures FirstSize(s).Some?
  {
    hide FirstCrlf, ParseSizeLine, ChunkBody;
  }

  lemma EndFound(s: seq<byte>, body: seq<byte>, max: nat)
    returns (last: seq<byte>, trailers: seq<seq<byte>>, rest: seq<byte>)
    requires BodyOf(s, body, max).Some? && FirstSize(s) == Some(0)
    ensures IsBody(s, [], last, trailers, rest) && BodyOf(s, body, max) == Some(body)
  {
    hide FirstCrlf, ParseSizeLine, IsLine, AreTrailers, TrailersEnd, PrintTrailers;
    var e := FirstCrlf(s).value;
    FoundCrlf(s, e);
    last := s[..e];
    trailers, rest := TrailersFound(s[e + 2..]);
    assert [] + s == s;
  }

  lemma ChunkFound(s: seq<byte>, body: seq<byte>, max: nat)
    returns (c: Loose, more: seq<byte>)
    requires BodyOf(s, body, max).Some? && FirstSize(s) != Some(0)
    ensures IsLoose(c) && s == c.line + CRLF + (c.data + c.end + more) && |more| < |s|
    ensures |body + c.data| <= max && BodyOf(s, body, max) == BodyOf(more, body + c.data, max)
  {
    hide FirstCrlf, ParseSizeLine, IsLine, TrailersEnd;
    var e := FirstCrlf(s).value;
    FoundCrlf(s, e);
    var t, n := s[e + 2..], ParseSizeLine(s[..e]).value;
    c, more := Loose(s[..e], t[..n], t[n..n + 2]), t[n + 2..];
    ThreeParts(t, n);
  }

  /** Whatever decodes is a body, and decodes to its data. */
  lemma {:induction false} DecodedIsBody(s: seq<byte>, body: seq<byte>, max: nat)
    returns (chunks: seq<Loose>, last: seq<byte>, trailers: seq<seq<byte>>, rest: seq<byte>)
    requires BodyOf(s, body, max).Some? && |body| <= max
    ensures IsBody(s, chunks, last, trailers, rest)
    ensures BodyOf(s, body, max) == Some(body + LooseData(chunks)) && |body + LooseData(chunks)| <= max
    decreases |s|
  {
    hide BodyOf, FirstSize, ParseSizeLine, IsLine, AreTrailers, PrintTrailers, IsLoose;
    DecodesSize(s, body, max);
    if FirstSize(s) == Some(0) {
      last, trailers, rest := EndFound(s, body, max);
      chunks := [];
      assert body + [] == body;
    } else {
      var c, more := ChunkFound(s, body, max);
      var tail;
      tail, last, trailers, rest := DecodedIsBody(more, body + c.data, max);
      chunks := [c] + tail;
      LooseOne(c.line, c.data, c.end, tail, last + CRLF + (PrintTrailers(trailers) + rest));
      assert (body + c.data) + LooseData(tail) == body + (c.data + LooseData(tail));
    }
  }

  lemma ThreeParts<T>(t: seq<T>, n: nat)
    requires n + 2 <= |t|
    ensures t == t[..n] + t[n..n + 2] + t[n + 2..]
  {
  }

  lemma LooseStep(c: Loose, rest: seq<byte>, body: seq<byte>, max: nat)
    requires IsLoose(c)
    ensures BodyOf(c.line + CRLF + (c.data + c.end + rest), body, max)
         == if |body + c.data| > max then None else BodyOf(rest, body + c.data, max)
  {
    hide BodyOf, ChunkBody, ParseSizeLine, IsLine;
    BodyOfLine(c.line, c.data + c.end + rest, |c.data|, body, max);
    assert c.end == [c.end[0], c.end[1]];
    ChunkEndIsNotChecked(c.data, c.end[0], c.end[1], rest, body, max);
    ChunkBodyOfData(c.data, rest, body, max);
  }

  /** And every body decodes to its data, unless that outgrows the limit. */
  lemma {:induction false} BodyDecodes(s: seq<byte>, chunks: seq<Loose>, last: seq<byte>, trailers: seq<seq<byte>>,
                                       rest: seq<byte>, body: seq<byte>, max: nat)
    requires IsBody(s, chunks, last, trailers, rest) && |body| <= max
    ensures BodyOf(s, body, max) == if |body + LooseData(chunks)| <= max then Some(body + LooseData(chunks)) else None
    decreases |chunks|
  {
    hide BodyOf, ChunkBody, ParseSizeLine, IsLine, AreTrailers, PrintTrailers, IsLoose;
    var end := last + CRLF + (PrintTrailers(trailers) + rest);
    if chunks == [] {
      assert s == end && body + [] == body;
      BodyOfLine(last, PrintTrailers(trailers) + rest, 0, body, max);
      LastChunk(trailers, rest, body, max);
    } else {
      var c, tail := chunks[0], chunks[1..];
      var more := PrintLoose(tail) + end;
      assert chunks == [c] + tail;
      LooseOne(c.line, c.data, c.end, tail, end);
      assert IsLoose(c);
      LooseStep(c, more, body, max);
      if |body + c.data| <= max {
        BodyDecodes(more, tail, last, trailers, rest, body + c.data, max);
        assert (body + c.data) + LooseData(tail) == body + LooseData(chunks);
      }
    }
  }

  /** What the decoder accepts: some bytes decode to a body exactly if they are chunks with that data, a
      zero-size line and trailers, with anything behind, and the data fits the limit. In particular a
      stream that stops short of the blank line behind the trailers is refused. */
  lemma BodyIff(s: seq<byte>, body: seq<byte>, max: nat)
    ensures BodyOf(s, [], max) == Some(body) <==>
            |body| <= max && exists chunks, last, trailers, rest :: IsBody(s, chunks, last, trailers, rest) && LooseData(chunks) == body
  {
    hide BodyOf, IsBody, LooseData;
    if BodyOf(s, [], max) == Some(body) {
      var chunks, last, trailers, rest := DecodedIsBody(s, [], max);
      assert [] + LooseData(chunks) == LooseData(chunks);
    }
    forall chunks, last, trailers, rest | IsBody(s, chunks, last, trailers, rest) && LooseData(chunks) == body && |body| <= max
      ensures BodyOf(s, [], max) == Some(body)
    {
      BodyDecodes(s, chunks, last, trailers, rest, [], max);
      assert [] + LooseData(chunks) == LooseData(chunks);
    }
  }
}
