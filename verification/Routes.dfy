/**
  Route normalisation: parsing IPv4 route texts, clearing their host bits, dropping what
  is not a route and what repeats, and printing them back.
 */
module Routes {
  import opened Wrappers
  import opened Netmask

  // ----- decimal text -----

  function Digit(n: nat): char
    requires n < 10
  {
    "0123456789"[n]
  }

  function DigitValue(c: char): Option<nat> {
    if '0' <= c <= '9' then Some((c as int - '0' as int) as nat) else None
  }

  function Decimal(n: nat): (r: string)
    ensures |r| > 0
  {
    if n < 10 then [Digit(n)] else Decimal(n / 10) + [Digit(n % 10)]
  }

  function ParseDecimal(s: string): Option<nat> {
    if s == [] then None
    else
      var d := DigitValue(s[|s| - 1]);
      if d.None? then None
      else if |s| == 1 then d
      else
        var rest := ParseDecimal(s[..|s| - 1]);
        if rest.None? then None else Some(10 * rest.value + d.value)
  }

  lemma DigitRoundTrip(n: nat)
    requires n < 10
    ensures DigitValue(Digit(n)) == Some(n)
  {
  }

  lemma {:induction false} DecimalRoundTrip(n: nat)
    ensures ParseDecimal(Decimal(n)) == Some(n)
  {
    hide Digit, DigitValue;
    if n < 10 {
      DigitRoundTrip(n);
    } else {
      DigitRoundTrip(n % 10);
      DecimalRoundTrip(n / 10);
      assert Decimal(n)[..|Decimal(n)| - 1] == Decimal(n / 10);
    }
  }

  predicate AllDigits(s: string) {
    forall i :: 0 <= i < |s| ==> '0' <= s[i] <= '9'
  }

  lemma {:induction false} DecimalDigits(n: nat)
    ensures AllDigits(Decimal(n))
  {
    if n >= 10 {
      DecimalDigits(n / 10);
    }
  }

  // ----- splitting -----

  predicate Lacks(s: string, c: char) {
    forall i :: 0 <= i < |s| ==> s[i] != c
  }

  /** The text before and after the first occurrence. */
  function SplitOnce(s: string, c: char): Option<(string, string)> {
    if s == [] then None
    else if s[0] == c then Some(([], s[1..]))
    else
      var r := SplitOnce(s[1..], c);
      if r.None? then None else Some(([s[0]] + r.value.0, r.value.1))
  }

  lemma {:induction false} SplitOnceAt(a: string, c: char, b: string)
    requires Lacks(a, c)
    ensures SplitOnce(a + [c] + b, c) == Some((a, b))
  {
    if a == [] {
      assert (a + [c] + b)[1..] == b;
    } else {
      assert (a + [c] + b)[1..] == a[1..] + [c] + b;
      SplitOnceAt(a[1..], c, b);
      assert [a[0]] + a[1..] == a;
    }
  }

  lemma {:induction false} SplitOnceNone(a: string, c: char)
    ensures SplitOnce(a, c).None? <==> Lacks(a, c)
  {
    if a != [] {
      SplitOnceNone(a[1..], c);
      if Lacks(a[1..], c) && a[0] != c {
        assert forall i :: 0 < i < |a| ==> a[i] == a[1..][i - 1];
      }
    }
  }

  lemma {:induction false} SplitOnceJoins(s: string, c: char)
    ensures SplitOnce(s, c).Some? ==> s == SplitOnce(s, c).value.0 + [c] + SplitOnce(s, c).value.1
  {
    if s != [] && s[0] != c {
      SplitOnceJoins(s[1..], c);
    }
  }

  // ----- addresses -----

  function ParseOctet(s: string): Option<Octet> {
    var v := ParseDecimal(s);
    if |s| <= 3 && v.Some? && v.value < 256 then Some(v.value) else None
  }

  /** Octets separated by dots, as many as asked for. */
  function ParseOctets(s: string, n: nat): (r: Option<seq<Octet>>)
    requires n > 0
    ensures r.Some? ==> |r.value| == n
    decreases n
  {
    if n == 1 then
      var o := ParseOctet(s);
      if o.None? then None else Some([o.value])
    else
      var cut := SplitOnce(s, '.');
      if cut.None? then None
      else
        var o := ParseOctet(cut.value.0);
        var rest := ParseOctets(cut.value.1, n - 1);
        if o.None? || rest.None? then None else Some([o.value] + rest.value)
  }

  function Dotted(octets: seq<Octet>): string
    requires |octets| > 0
  {
    if |octets| == 1 then Decimal(octets[0]) else Decimal(octets[0]) + "." + Dotted(octets[1..])
  }

  lemma DigitsLack(s: string, c: char)
    requires AllDigits(s) && (c < '0' || c > '9')
    ensures Lacks(s, c)
  {
  }

  lemma OctetRoundTrip(o: Octet)
    ensures ParseOctet(Decimal(o)) == Some(o)
  {
    DecimalRoundTrip(o);
    if o >= 10 {
      assert |Decimal(o)| == |Decimal(o / 10)| + 1;
      assert |Decimal(o / 10)| <= 2;
    }
  }

  lemma {:induction false} DottedRoundTrip(octets: seq<Octet>)
    requires |octets| > 0
    ensures ParseOctets(Dotted(octets), |octets|) == Some(octets)
  {
    hide ParseOctet, Decimal;
    OctetRoundTrip(octets[0]);
    if |octets| > 1 {
      DecimalDigits(octets[0]);
      DigitsLack(Decimal(octets[0]), '.');
      SplitOnceAt(Decimal(octets[0]), '.', Dotted(octets[1..]));
      DottedRoundTrip(octets[1..]);
      assert [octets[0]] + octets[1..] == octets;
    } else {
      assert octets == [octets[0]];
    }
  }

  lemma {:induction false} DottedHasNoSlash(octets: seq<Octet>)
    requires |octets| > 0
    ensures Lacks(Dotted(octets), '/')
  {
    DecimalDigits(octets[0]);
    if |octets| > 1 {
      hide Decimal;
      DottedHasNoSlash(octets[1..]);
    }
  }

  /** `Ipv4Addr` parsing, with the check that the text is the address's own form. */
  function ParseAddress(s: string): Option<seq<Octet>> {
    var r := ParseOctets(s, 4);
    if r.Some? && Dotted(r.value) == s then r else None
  }

  lemma AddressIff(s: string, octets: seq<Octet>)
    requires |octets| == 4
    ensures ParseAddress(s) == Some(octets) <==> s == Dotted(octets)
  {
    if s == Dotted(octets) {
      DottedRoundTrip(octets);
    }
  }

  // ----- routes -----

  datatype Route = Route(network: Word, prefix: nat)

  /** What a route text says before its host bits are cleared. */
  datatype Spelled = Spelled(octets: seq<Octet>, prefix: nat)

  predicate Valid(r: Spelled) {
    |r.octets| == 4 && 1 <= r.prefix <= 32
  }

  function ParsePrefix(s: string): Option<nat> {
    if !AllDigits(s) then None
    else
      var v := ParseDecimal(s);
      if v.Some? && 1 <= v.value <= 32 && Decimal(v.value) == s then v else None
  }

  function ReadRoute(s: string): (r: Option<Spelled>)
    ensures r.Some? ==> Valid(r.value)
  {
    var cut := SplitOnce(s, '/');
    var prefix := if cut.None? then Some(32) else ParsePrefix(cut.value.1);
    var address := ParseAddress(if cut.None? then s else cut.value.0);
    if prefix.None? || address.None? then None else Some(Spelled(address.value, prefix.value))
  }

  /** The texts that mean a route: a dotted address with a plain decimal prefix, or alone for /32. */
  ghost predicate Spells(s: string, r: Spelled)
    requires Valid(r)
  {
    s == Dotted(r.octets) + "/" + Decimal(r.prefix) || (r.prefix == 32 && s == Dotted(r.octets))
  }

  lemma PrefixIff(s: string, p: nat)
    requires 1 <= p <= 32
    ensures ParsePrefix(s) == Some(p) <==> s == Decimal(p)
  {
    DecimalRoundTrip(p);
    DecimalDigits(p);
  }

  /** A text is read as a route if and only if it spells it. */
  lemma ReadsIff(s: string, r: Spelled)
    requires Valid(r)
    ensures ReadRoute(s) == Some(r) <==> Spells(s, r)
  {
    hide ParsePrefix, ParseAddress, Dotted, Decimal;
    var cut := SplitOnce(s, '/');
    SplitOnceNone(s, '/');
    SplitOnceJoins(s, '/');
    DottedHasNoSlash(r.octets);
    if s == Dotted(r.octets) + "/" + Decimal(r.prefix) {
      SplitOnceAt(Dotted(r.octets), '/', Decimal(r.prefix));
    }
    if cut.Some? {
      PrefixIff(cut.value.1, r.prefix);
      AddressIff(cut.value.0, r.octets);
      SlashInside(cut.value.0, cut.value.1);
    } else {
      AddressIff(s, r.octets);
      SlashInside(Dotted(r.octets), Decimal(r.prefix));
    }
  }

  lemma SlashInside(a: string, b: string)
    ensures !Lacks(a + "/" + b, '/')
  {
    assert (a + "/" + b)[|a|] == '/';
  }

  function Masked(r: Spelled): Route
    requires Valid(r)
  {
    Route(And(WordOf(r.octets), ShiftLeft(Ones(32), 32 - r.prefix)), r.prefix)
  }

  /** `split_normalized_route` */
  function SplitRoute(s: string): Option<Route> {
    var r := ReadRoute(s);
    if r.None? then None else Some(Masked(r.value))
  }

  function Address(w: Word): (r: seq<Octet>)
    ensures |r| == 4
  {
    BitsOfValue(w[..8]); BitsOfValue(w[8..16]); BitsOfValue(w[16..24]); BitsOfValue(w[24..]);
    Pow2Of8();
    [ValueOf(w[..8]), ValueOf(w[8..16]), ValueOf(w[16..24]), ValueOf(w[24..])]
  }

  lemma Pow2Of8()
    ensures Pow2(8) == 256
  {
    assert Pow2(4) == 16;
    assert Pow2(5) == 32 && Pow2(6) == 64 && Pow2(7) == 128;
  }

  lemma AddressRoundTrip(w: Word)
    ensures WordOf(Address(w)) == w
  {
    BitsOfValue(w[..8]);
    BitsOfValue(w[8..16]);
    BitsOfValue(w[16..24]);
    BitsOfValue(w[24..]);
    hide BitsOf, ValueOf;
    FourParts(w);
  }

  lemma FourParts(w: Word)
    ensures w[..8] + w[8..16] + w[16..24] + w[24..] == w
  {
  }

  function RouteText(r: Route): string {
    Dotted(Address(r.network)) + "/" + Decimal(r.prefix)
  }

  predicate Normal(r: Route) {
    1 <= r.prefix <= 32 && r.network[r.prefix..] == Zeros(32 - r.prefix)
  }

  /** Masking keeps the leading bits of the prefix and clears the rest. */
  lemma MaskedBits(r: Spelled)
    requires Valid(r)
    ensures Masked(r).network == WordOf(r.octets)[..r.prefix] + Zeros(32 - r.prefix)
    ensures Normal(Masked(r))
  {
    hide WordOf;
    ShiftedOnes(r.prefix);
    var w, m := WordOf(r.octets), Masked(r).network;
    assert forall i :: 0 <= i < 32 ==> m[i] == (w[i] && Mask(r.prefix)[i]);
  }

  /** A normal route reads back from its own text. */
  lemma TextRoundTrip(r: Route)
    requires Normal(r)
    ensures SplitRoute(RouteText(r)) == Some(r)
  {
    hide WordOf, Address, And, Dotted, Decimal, ReadRoute;
    var s := Spelled(Address(r.network), r.prefix);
    ReadsIff(RouteText(r), s);
    AddressRoundTrip(r.network);
    MaskedBits(s);
    assert r.network == r.network[..r.prefix] + r.network[r.prefix..];
  }

  // ----- the whole list -----

  function Kept(texts: seq<string>): (r: seq<Route>) {
    if texts == [] then []
    else
      var before := Kept(texts[..|texts| - 1]);
      var r := SplitRoute(texts[|texts| - 1]);
      if r.None? || r.value in before then before else before + [r.value]
  }

  function Texts(rs: seq<Route>): (r: seq<string>)
    ensures |r| == |rs| && forall i :: 0 <= i < |rs| ==> r[i] == RouteText(rs[i])
  {
    if rs == [] then [] else Texts(rs[..|rs| - 1]) + [RouteText(rs[|rs| - 1])]
  }

  method NormalizedConnectRoutes(texts: seq<string>) returns (out: seq<string>)
    ensures out == Texts(Kept(texts))
  {
    hide SplitRoute, RouteText;
    var seen: set<Route> := {};
    out := [];
    ghost var kept: seq<Route> := [];
    for i := 0 to |texts|
      invariant kept == Kept(texts[..i]) && out == Texts(kept)
      invariant forall r :: r in seen <==> r in kept
    {
      assert texts[..i + 1][..i] == texts[..i];
      var r := SplitRoute(texts[i]);
      if r.Some? && r.value !in seen {
        seen := seen + {r.value};
        out := out + [RouteText(r.value)];
        TextsSnoc(kept, r.value);
        kept := kept + [r.value];
      }
    }
    assert texts[..|texts|] == texts;
  }

  lemma TextsSnoc(rs: seq<Route>, r: Route)
    ensures Texts(rs + [r]) == Texts(rs) + [RouteText(r)]
  {
    assert (rs + [r])[..|rs|] == rs;
  }

  ghost predicate NoRepeats<T>(s: seq<T>) {
    forall i, j :: 0 <= i < j < |s| ==> s[i] != s[j]
  }

  ghost predicate AllNormal(rs: seq<Route>) {
    forall i :: 0 <= i < |rs| ==> Normal(rs[i])
  }

  lemma SplitIsNormal(s: string)
    ensures SplitRoute(s).Some? ==> Normal(SplitRoute(s).value)
  {
    hide Masked, Normal, ReadRoute;
    if ReadRoute(s).Some? {
      MaskedBits(ReadRoute(s).value);
    }
  }

  /** What is kept has no host bits and no repeats, and is exactly the set of routes the texts spell. */
  lemma {:induction false} KeptIsNormal(texts: seq<string>)
    ensures AllNormal(Kept(texts)) && NoRepeats(Kept(texts))
    ensures forall r :: r in Kept(texts) <==> exists i :: 0 <= i < |texts| && SplitRoute(texts[i]) == Some(r)
  {
    hide SplitRoute, Normal;
    if texts != [] {
      var n := |texts| - 1;
      KeptIsNormal(texts[..n]);
      SplitIsNormal(texts[n]);
      var before := Kept(texts[..n]);
      forall r
        ensures r in Kept(texts) <==> exists i :: 0 <= i < |texts| && SplitRoute(texts[i]) == Some(r)
      {
        if r in Kept(texts) {
          if r in before {
            var i :| 0 <= i < n && SplitRoute(texts[..n][i]) == Some(r);
            assert SplitRoute(texts[i]) == Some(r);
          } else {
            assert SplitRoute(texts[n]) == Some(r);
          }
        }
        if i :| 0 <= i < |texts| && SplitRoute(texts[i]) == Some(r) {
          if i < n {
            assert SplitRoute(texts[..n][i]) == Some(r);
          }
        }
      }
    }
  }

  /** Printing what was kept and normalising again keeps it all. */
  lemma {:induction false} KeptOfTexts(rs: seq<Route>)
    requires AllNormal(rs) && NoRepeats(rs)
    ensures Kept(Texts(rs)) == rs
  {
    hide SplitRoute, Normal, RouteText;
    if rs != [] {
      var n := |rs| - 1;
      KeptOfTexts(rs[..n]);
      TextRoundTrip(rs[n]);
      assert Texts(rs)[..n] == Texts(rs[..n]);
      assert rs == rs[..n] + [rs[n]];
    }
  }

  /** Normalisation is idempotent, and no two of its texts are equal. */
  lemma NormalizingAgain(texts: seq<string>)
    ensures var out := Texts(Kept(texts)); Texts(Kept(out)) == out && NoRepeats(out)
  {
    hide Kept, Texts, SplitRoute;
    KeptIsNormal(texts);
    var rs := Kept(texts);
    KeptOfTexts(rs);
    forall i, j | 0 <= i < j < |rs|
      ensures Texts(rs)[i] != Texts(rs)[j]
    {
      TextRoundTrip(rs[i]);
      TextRoundTrip(rs[j]);
    }
  }

  // ----- the addresses covered -----

  /** A route covers the addresses that agree with it on the bits of its prefix. */
  ghost predicate Covers(r: Spelled, x: Word)
    requires Valid(r)
  {
    x[..r.prefix] == WordOf(r.octets)[..r.prefix]
  }

  ghost predicate Covered(texts: seq<string>, x: Word) {
    exists i :: 0 <= i < |texts| && CoveredBy(texts[i], x)
  }

  ghost predicate CoveredBy(s: string, x: Word) {
    ReadRoute(s).Some? && Covers(ReadRoute(s).value, x)
  }

  ghost predicate RouteCovers(r: Route, x: Word) {
    r.prefix <= 32 && x[..r.prefix] == r.network[..r.prefix]
  }

  lemma CoversItsRoute(s: string, x: Word)
    ensures CoveredBy(s, x) <==> SplitRoute(s).Some? && RouteCovers(SplitRoute(s).value, x)
  {
    hide ReadRoute, WordOf, Masked;
    if ReadRoute(s).Some? {
      var r := ReadRoute(s).value;
      MaskedBits(r);
      assert Masked(r).prefix == r.prefix by { MaskedPrefix(r); }
      assert Masked(r).network[..r.prefix] == WordOf(r.octets)[..r.prefix];
    }
  }

  lemma MaskedPrefix(r: Spelled)
    requires Valid(r)
    ensures Masked(r).prefix == r.prefix
  {
  }

  lemma CoveredIff(texts: seq<string>, x: Word)
    ensures Covered(texts, x) <==> exists r :: r in Kept(texts) && RouteCovers(r, x)
  {
    hide SplitRoute, RouteCovers, CoveredBy, Kept;
    KeptIsNormal(texts);
    if i :| 0 <= i < |texts| && CoveredBy(texts[i], x) {
      CoversItsRoute(texts[i], x);
      assert SplitRoute(texts[i]).value in Kept(texts);
    }
    if r :| r in Kept(texts) && RouteCovers(r, x) {
      var i :| 0 <= i < |texts| && SplitRoute(texts[i]) == Some(r);
      CoversItsRoute(texts[i], x);
    }
  }

  /** Normalisation neither adds nor loses an address. */
  lemma CoversTheSame(texts: seq<string>, x: Word)
    ensures Covered(Texts(Kept(texts)), x) <==> Covered(texts, x)
  {
    hide Kept, Texts, Covered, RouteCovers;
    KeptIsNormal(texts);
    KeptOfTexts(Kept(texts));
    CoveredIff(texts, x);
    CoveredIff(Texts(Kept(texts)), x);
  }
}
