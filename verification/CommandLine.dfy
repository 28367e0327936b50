/**
  Quoting an argument for a Windows command line, against the documented rules by which
  CommandLineToArgvW splits one: whitespace separates arguments outside quotation marks;
  2n backslashes and a quotation mark stand for n backslashes and toggle quoting; 2n+1
  backslashes and a quotation mark stand for n backslashes and a literal quotation mark;
  other backslashes stand for themselves.
 */
module CommandLine {

  const BACKSLASH := '\\'
  const QUOTE := '\"'

  predicate IsBlank(c: char) {
    c == ' ' || c == '\t'
  }

  function Backslashes(n: nat): (s: string)
    ensures |s| == n
    ensures forall i :: 0 <= i < n ==> s[i] == BACKSLASH
  {
    seq(n, i => BACKSLASH)
  }

  // ----- the reference parser -----

  function LeadingBackslashes(s: string): (n: nat)
    ensures n <= |s|
  {
    if s == [] || s[0] != BACKSLASH then 0 else 1 + LeadingBackslashes(s[1..])
  }

  /** One argument and the text behind it. */
  datatype Parsed = Parsed(text: string, rest: string)

  function Before(text: string, p: Parsed): Parsed {
    Parsed(text + p.text, p.rest)
  }

  /** The argument at the front of s, with quoting on or off. */
  function ParseArg(s: string, quoted: bool): (p: Parsed)
    ensures |p.rest| <= |s|
    decreases |s|
  {
    if s == [] then Parsed("", "")
    else if !quoted && IsBlank(s[0]) then Parsed("", s)
    else if s[0] == BACKSLASH then
      var n := LeadingBackslashes(s);
      var after := s[n..];
      if after != [] && after[0] == QUOTE then
        if n % 2 == 0 then Before(Backslashes(n / 2), ParseArg(after[1..], !quoted))
        else Before(Backslashes(n / 2) + [QUOTE], ParseArg(after[1..], quoted))
      else Before(Backslashes(n), ParseArg(after, quoted))
    else if s[0] == QUOTE then ParseArg(s[1..], !quoted)
    else Before([s[0]], ParseArg(s[1..], quoted))
  }

  function SkipBlanks(s: string): (r: string)
    ensures |r| <= |s|
    ensures r == [] || !IsBlank(r[0])
  {
    if s != [] && IsBlank(s[0]) then SkipBlanks(s[1..]) else s
  }

  /** An argument is never empty text that consumes nothing. */
  lemma ParseArgAdvances(s: string)
    requires s != [] && !IsBlank(s[0])
    ensures |ParseArg(s, false).rest| < |s|
  {
  }

  /** The arguments of a command line. */
  function Arguments(s: string): (args: seq<string>)
    decreases |s|
  {
    var t := SkipBlanks(s);
    if t == [] then []
    else
      ParseArgAdvances(t);
      var p := ParseArg(t, false);
      [p.text] + Arguments(p.rest)
  }

  // ----- quoting -----

  /** The quoted form behind its opening mark, with n backslashes pending. */
  function QuoteFrom(value: string, n: nat): (s: string)
    decreases |value|
  {
    if value == [] then Backslashes(2 * n) + [QUOTE]
    else if value[0] == BACKSLASH then QuoteFrom(value[1..], n + 1)
    else if value[0] == QUOTE then Backslashes(2 * n + 1) + [QUOTE] + QuoteFrom(value[1..], 0)
    else Backslashes(n) + [value[0]] + QuoteFrom(value[1..], 0)
  }

  function Quote(value: string): (s: string)
    ensures s != [] && s[0] == QUOTE
  {
    [QUOTE] + QuoteFrom(value, 0)
  }

  /** One pass, counting the backslashes that may precede a quotation mark. */
  method QuoteCommandLineArgument(value: string) returns (quoted: string)
    ensures quoted == Quote(value)
  {
    quoted := [QUOTE];
    var backslashes: nat := 0;
    for i := 0 to |value|
      invariant quoted + QuoteFrom(value[i..], backslashes) == Quote(value)
    {
      var ch := value[i];
      ghost var before := quoted;
      assert value[i..][1..] == value[i + 1..];
      if ch == BACKSLASH {
        backslashes := backslashes + 1;
      } else if ch == QUOTE {
        quoted := quoted + Backslashes(backslashes * 2 + 1);
        quoted := quoted + [QUOTE];
        assert quoted + QuoteFrom(value[i + 1..], 0) == before + QuoteFrom(value[i..], backslashes);
        backslashes := 0;
      } else {
        quoted := quoted + Backslashes(backslashes);
        quoted := quoted + [ch];
        assert quoted + QuoteFrom(value[i + 1..], 0) == before + QuoteFrom(value[i..], backslashes);
        backslashes := 0;
      }
    }
    quoted := quoted + Backslashes(backslashes * 2);
    quoted := quoted + [QUOTE];
  }

  // ----- quoting is undone by the parser -----

  lemma {:induction false} LeadingOf(n: nat, rest: string)
    requires rest == [] || rest[0] != BACKSLASH
    ensures LeadingBackslashes(Backslashes(n) + rest) == n
  {
    if n == 0 {
      assert Backslashes(0) + rest == rest;
    } else {
      assert (Backslashes(n) + rest)[1..] == Backslashes(n - 1) + rest;
      LeadingOf(n - 1, rest);
    }
  }

  /** A run of backslashes in front of a quotation mark. */
  lemma ParseRunQuote(n: nat, rest: string, quoted: bool)
    ensures
      ParseArg(Backslashes(n) + [QUOTE] + rest, quoted)
      == if n % 2 == 0 then Before(Backslashes(n / 2), ParseArg(rest, !quoted))
         else Before(Backslashes(n / 2) + [QUOTE], ParseArg(rest, quoted))
  {
    hide LeadingBackslashes;
    var s := Backslashes(n) + [QUOTE] + rest;
    assert s == Backslashes(n) + ([QUOTE] + rest);
    if n == 0 {
      assert s == [QUOTE] + rest && s[1..] == rest;
      var p := ParseArg(rest, !quoted);
      assert Backslashes(0) + p.text == p.text;
    } else {
      LeadingOf(n, [QUOTE] + rest);
      assert s[n..] == [QUOTE] + rest && s[n..][1..] == rest;
    }
  }

  lemma ParseChar(c: char, rest: string)
    requires c != BACKSLASH && c != QUOTE
    ensures ParseArg([c] + rest, true) == Before([c], ParseArg(rest, true))
  {
    assert ([c] + rest)[1..] == rest;
  }

  lemma ParseRun(n: nat, t: string)
    requires n > 0 && t != [] && t[0] != BACKSLASH && t[0] != QUOTE
    ensures ParseArg(Backslashes(n) + t, true) == Before(Backslashes(n), ParseArg(t, true))
  {
    hide LeadingBackslashes;
    LeadingOf(n, t);
    assert (Backslashes(n) + t)[n..] == t;
  }

  /** A run of backslashes in front of anything else. */
  lemma ParseRunOther(n: nat, c: char, rest: string)
    requires c != BACKSLASH && c != QUOTE
    ensures ParseArg(Backslashes(n) + [c] + rest, true) == Before(Backslashes(n) + [c], ParseArg(rest, true))
  {
    hide ParseArg;
    ParseChar(c, rest);
    if n == 0 {
      assert Backslashes(0) + [c] == [c];
    } else {
      assert Backslashes(n) + [c] + rest == Backslashes(n) + ([c] + rest);
      ParseRun(n, [c] + rest);
      Assoc(Backslashes(n), [c], ParseArg(rest, true).text);
    }
  }

  lemma Assoc(a: string, b: string, c: string)
    ensures a + (b + c) == (a + b) + c
  {
  }

  lemma BackslashMore(n: nat)
    ensures Backslashes(n + 1) == Backslashes(n) + [BACKSLASH]
  {
  }

  lemma TextsJoin(a: string, b: string, c: string, d: string)
    ensures (a + b) + ((Backslashes(0) + c) + d) == (a + (b + c)) + d
  {
    assert Backslashes(0) + c == c;
  }

  /** Inside the quotation marks the parser reads back the value, then continues unquoted. */
  lemma {:induction false} ParseOfQuoteFrom(value: string, n: nat, tail: string)
    ensures ParseArg(QuoteFrom(value, n) + tail, true) == Before(Backslashes(n) + value, ParseArg(tail, false))
    decreases |value|
  {
    hide ParseArg;
    if value == [] {
      assert QuoteFrom(value, n) + tail == Backslashes(2 * n) + [QUOTE] + tail;
      ParseRunQuote(2 * n, tail, true);
      assert Backslashes(n) + value == Backslashes(n);
    } else {
      var c, more := value[0], value[1..];
      var p := ParseArg(tail, false);
      if c == BACKSLASH {
        ParseOfQuoteFrom(more, n + 1, tail);
        BackslashMore(n);
        assert Backslashes(n) + value == Backslashes(n + 1) + more;
      } else if c == QUOTE {
        var rest := QuoteFrom(more, 0) + tail;
        assert QuoteFrom(value, n) + tail == Backslashes(2 * n + 1) + [QUOTE] + rest;
        ParseRunQuote(2 * n + 1, rest, true);
        ParseOfQuoteFrom(more, 0, tail);
        TextsJoin(Backslashes(n), [QUOTE], more, p.text);
        assert [QUOTE] + more == value;
      } else {
        var rest := QuoteFrom(more, 0) + tail;
        assert QuoteFrom(value, n) + tail == Backslashes(n) + [c] + rest;
        ParseRunOther(n, c, rest);
        ParseOfQuoteFrom(more, 0, tail);
        TextsJoin(Backslashes(n), [c], more, p.text);
        assert [c] + more == value;
      }
    }
  }

  /** Text that ends an unquoted argument. */
  predicate Boundary(tail: string) {
    tail == [] || IsBlank(tail[0])
  }

  lemma ParseOfQuote(value: string, tail: string)
    requires Boundary(tail)
    ensures ParseArg(Quote(value) + tail, false) == Parsed(value, tail)
  {
    hide QuoteFrom;
    var s := Quote(value) + tail;
    assert s[1..] == QuoteFrom(value, 0) + tail;
    ParseOfQuoteFrom(value, 0, tail);
    assert Backslashes(0) + value == value && value + "" == value;
  }

  /** Every string survives quoting and parsing, including the empty one. */
  lemma QuoteRoundTrip(value: string)
    ensures Arguments(Quote(value)) == [value]
  {
    hide ParseArg;
    ParseOfQuote(value, "");
    assert Quote(value) + "" == Quote(value);
    assert SkipBlanks(Quote(value)) == Quote(value);
    assert Arguments("") == [];
  }

  // ----- a line of flags and quoted values -----

  datatype Token = Plain(text: string) | Quoted(text: string)

  /** Text that the parser reads as itself. */
  predicate IsPlain(s: string) {
    s != [] && forall i :: 0 <= i < |s| ==> !IsBlank(s[i]) && s[i] != BACKSLASH && s[i] != QUOTE
  }

  function Print(t: Token): string {
    match t
    case Plain(text) => text
    case Quoted(text) => Quote(text)
  }

  /** The tokens separated by single spaces. */
  function Line(tokens: seq<Token>): string {
    if tokens == [] then ""
    else if |tokens| == 1 then Print(tokens[0])
    else Print(tokens[0]) + [' '] + Line(tokens[1..])
  }

  function Texts(tokens: seq<Token>): (r: seq<string>)
    ensures |r| == |tokens|
  {
    seq(|tokens|, i requires 0 <= i < |tokens| => tokens[i].text)
  }

  lemma {:induction false} ParseOfPlain(text: string, tail: string)
    requires text == [] || IsPlain(text)
    requires Boundary(tail)
    ensures ParseArg(text + tail, false) == Parsed(text, tail)
    decreases |text|
  {
    if text == [] {
      assert text + tail == tail;
    } else {
      assert (text + tail)[1..] == text[1..] + tail;
      ParseOfPlain(text[1..], tail);
      assert [text[0]] + text[1..] == text;
    }
  }

  lemma ArgumentsStep(t: Token, tail: string)
    requires t.Plain? ==> IsPlain(t.text)
    requires Boundary(tail)
    ensures Arguments(Print(t) + tail) == [t.text] + Arguments(tail)
  {
    hide ParseArg, Quote;
    if t.Plain? { ParseOfPlain(t.text, tail); } else { ParseOfQuote(t.text, tail); }
    assert SkipBlanks(Print(t) + tail) == Print(t) + tail;
  }

  lemma ArgumentsSkipBlank(s: string)
    ensures Arguments([' '] + s) == Arguments(s)
  {
    assert ([' '] + s)[1..] == s;
    assert SkipBlanks([' '] + s) == SkipBlanks(s);
  }

  /** Parsing a printed line gives back the tokens' texts. */
  lemma {:induction false} ArgumentsOfLine(tokens: seq<Token>)
    requires forall i :: 0 <= i < |tokens| && tokens[i].Plain? ==> IsPlain(tokens[i].text)
    ensures Arguments(Line(tokens)) == Texts(tokens)
    decreases |tokens|
  {
    hide ParseArg, Print, IsPlain;
    if tokens == [] {
      assert Arguments("") == [];
    } else {
      var t, more := tokens[0], Line(tokens[1..]);
      ArgumentsOfLine(tokens[1..]);
      if |tokens| == 1 {
        assert Print(t) + "" == Line(tokens);
        ArgumentsStep(t, "");
      } else {
        assert Line(tokens) == Print(t) + ([' '] + more);
        ArgumentsStep(t, [' '] + more);
        ArgumentsSkipBlank(more);
      }
      assert Texts(tokens) == [t.text] + Texts(tokens[1..]);
    }
  }
}
