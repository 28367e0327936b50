/**
  XML text in the authentication exchange: escaping against the five-pass unescape, and
  the opaque nodes that must be echoed verbatim in the reply.
 */
module Xml {
  import opened Wrappers

  // ----- escaping -----

  /** The entity of a special character, if it has one. */
  function EntityOf(c: char): (e: Option<string>) {
    match c
    case '&' => Some("&amp;")
    case '<' => Some("&lt;")
    case '>' => Some("&gt;")
    case '\"' => Some("&quot;")
    case '\'' => Some("&apos;")
    case _ => None
  }

  function EscapeChar(c: char): string {
    match EntityOf(c)
    case Some(e) => e
    case None => [c]
  }

  /** What a text looks like when only the characters of `open` are still escaped. */
  function EscapeOnly(value: string, open: set<char>): (s: string) {
    if value == [] then []
    else (if value[0] in open then EscapeChar(value[0]) else [value[0]]) + EscapeOnly(value[1..], open)
  }

  const SPECIAL: set<char> := {'&', '<', '>', '\"', '\''}

  method EscapeOne(ch: char) returns (piece: string)
    ensures piece == if ch in SPECIAL then EscapeChar(ch) else [ch]
  {
    match ch {
      case '&' => piece := "&amp;";
      case '<' => piece := "&lt;";
      case '>' => piece := "&gt;";
      case '\"' => piece := "&quot;";
      case '\'' => piece := "&apos;";
      case _ => piece := [ch];
    }
  }

  method XmlEscapeInto(out: string, value: string) returns (r: string)
    ensures r == out + EscapeOnly(value, SPECIAL)
  {
    hide EscapeChar;
    r := out;
    for i := 0 to |value|
      invariant r + EscapeOnly(value[i..], SPECIAL) == out + EscapeOnly(value, SPECIAL)
    {
      var piece := EscapeOne(value[i]);
      assert value[i..][1..] == value[i + 1..];
      assert (r + piece) + EscapeOnly(value[i + 1..], SPECIAL) == r + (piece + EscapeOnly(value[i + 1..], SPECIAL));
      r := r + piece;
    }
    assert r + [] == r;
  }

  // ----- replacing -----

  predicate StartsWith(s: string, p: string) {
    |p| <= |s| && s[..|p|] == p
  }

  /** Every leftmost, non-overlapping occurrence of a pattern replaced. */
  function Replace(s: string, from: string, to: string): (r: string)
    requires from != []
    decreases |s|
  {
    if s == [] then []
    else if StartsWith(s, from) then to + Replace(s[|from|..], from, to)
    else [s[0]] + Replace(s[1..], from, to)
  }

  const PASSES: seq<(char, string)> := [('\"', "&quot;"), ('\'', "&apos;"), ('<', "&lt;"), ('>', "&gt;"), ('&', "&amp;")]

  /** The passes of `xml_unescape`, the ampersand last. */
  function UnescapeFrom(s: string, k: nat): (r: string)
    requires k <= |PASSES|
    decreases |PASSES| - k
  {
    if k == |PASSES| then s else UnescapeFrom(Replace(s, PASSES[k].1, [PASSES[k].0]), k + 1)
  }

  function Unescape(s: string): string {
    UnescapeFrom(s, 0)
  }

  method XmlUnescape(value: string) returns (out: string)
    ensures out == Unescape(value)
  {
    hide Replace;
    out := value;
    for k := 0 to |PASSES|
      invariant UnescapeFrom(out, k) == Unescape(value)
    {
      out := Replace(out, PASSES[k].1, [PASSES[k].0]);
    }
  }

  // ----- one pass removes one entity -----

  /** A piece of text in which no occurrence of the pattern can start, whatever follows. */
  lemma {:induction false} ReplaceSkips(piece: string, rest: string, from: string, to: string)
    requires from != [] && from[0] == '&'
    requires forall i :: 0 <= i < |piece| ==> piece[i] != '&'
    ensures Replace(piece + rest, from, to) == piece + Replace(rest, from, to)
    decreases |piece|
  {
    if piece == [] {
      assert piece + rest == rest;
    } else {
      assert (piece + rest)[1..] == piece[1..] + rest;
      assert !StartsWith(piece + rest, from);
      ReplaceSkips(piece[1..], rest, from, to);
    }
  }

  lemma ReplaceHit(rest: string, from: string, to: string)
    requires from != []
    ensures Replace(from + rest, from, to) == to + Replace(rest, from, to)
  {
    assert (from + rest)[..|from|] == from;
    assert (from + rest)[|from|..] == rest;
  }

  /** An entity that is not the pattern is passed over whole. */
  lemma ReplacePasses(entity: string, rest: string, from: string, to: string)
    requires from != [] && from[0] == '&'
    requires entity != [] && !StartsWith(entity + rest, from)
    requires forall i :: 1 <= i < |entity| ==> entity[i] != '&'
    ensures Replace(entity + rest, from, to) == entity + Replace(rest, from, to)
  {
    var s := entity + rest;
    assert s[1..] == entity[1..] + rest;
    ReplaceSkips(entity[1..], rest, from, to);
  }

  /** Two different entities disagree within the shorter one. */
  lemma EntitiesDiffer(c: char, d: char, rest: string)
    requires c in SPECIAL && d in SPECIAL && c != d
    ensures !StartsWith(EscapeChar(c) + rest, EscapeChar(d))
  {
    var s := EscapeChar(c) + rest;
    assert s[1] == EscapeChar(c)[1] && s[2] == EscapeChar(c)[2];
  }

  lemma EntityShape(c: char)
    requires c in SPECIAL
    ensures
      var e := EscapeChar(c);
      e != [] && e[0] == '&' && forall i :: 1 <= i < |e| ==> e[i] != '&'
  {
  }

  /** A pass turns the entities of its character back, and touches nothing else. */
  lemma {:induction false} PassOpens(value: string, open: set<char>, d: char)
    requires open <= SPECIAL && d in open && '&' in open
    ensures Replace(EscapeOnly(value, open), EscapeChar(d), [d]) == EscapeOnly(value, open - {d})
    decreases |value|
  {
    hide Replace, EscapeChar;
    EntityShape(d);
    if value == [] {
      ReplaceNothing(EscapeChar(d), [d]);
    } else {
      var c, rest := value[0], EscapeOnly(value[1..], open);
      PassOpens(value[1..], open, d);
      if c == d {
        ReplaceHit(rest, EscapeChar(d), [d]);
      } else if c in open {
        EntitiesDiffer(c, d, rest);
        EntityShape(c);
        ReplacePasses(EscapeChar(c), rest, EscapeChar(d), [d]);
      } else {
        ReplaceSkips([c], rest, EscapeChar(d), [d]);
      }
    }
  }

  lemma ReplaceNothing(from: string, to: string)
    requires from != []
    ensures Replace([], from, to) == []
  {
  }

  lemma {:induction false} NothingOpen(value: string)
    ensures EscapeOnly(value, {}) == value
  {
    if value != [] {
      NothingOpen(value[1..]);
      assert [value[0]] + value[1..] == value;
    }
  }

  /** The five passes undo the escape, on every string. */
  lemma UnescapeInvertsEscape(value: string)
    ensures Unescape(EscapeOnly(value, SPECIAL)) == value
  {
    hide Replace, EscapeOnly;
    var o0 := SPECIAL;
    var o1 := o0 - {'\"'};
    var o2 := o1 - {'\''};
    var o3 := o2 - {'<'};
    var o4 := o3 - {'>'};
    PassOpens(value, o0, '\"');
    PassOpens(value, o1, '\'');
    PassOpens(value, o2, '<');
    PassOpens(value, o3, '>');
    PassOpens(value, o4, '&');
    assert o4 - {'&'} == {};
    NothingOpen(value);
    var s1, s2 := EscapeOnly(value, o1), EscapeOnly(value, o2);
    assert UnescapeFrom(s2, 2) == UnescapeFrom(EscapeOnly(value, o4), 4);
    assert UnescapeFrom(EscapeOnly(value, o4), 4) == UnescapeFrom(value, 5);
  }
}
