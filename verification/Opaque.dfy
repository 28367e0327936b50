/**
  Opaque nodes: the raw markup that an authentication request hands out and the reply must
  carry back byte for byte, amid text the user controls.
 */
module Opaque {
  import opened Wrappers
  import opened Xml

  const OPEN := "<opaque"
  const CLOSE := "</opaque>"

  // ----- searching -----

  /** The first place where a pattern occurs. */
  function Find(s: string, p: string): (r: Option<nat>)
    ensures r.Some? ==> r.value + |p| <= |s|
  {
    if StartsWith(s, p) then Some(0)
    else if s == [] then None
    else
      match Find(s[1..], p)
      case None => None
      case Some(k) => Some(k + 1)
  }

  /** It occurs there and nowhere before; with no place, it occurs nowhere. */
  lemma {:induction false} FindIsFirst(s: string, p: string)
    ensures
      match Find(s, p)
      case Some(k) => StartsWith(s[k..], p) && forall j :: 0 <= j < k ==> !StartsWith(s[j..], p)
      case None => forall j :: 0 <= j <= |s| ==> !StartsWith(s[j..], p)
  {
    hide StartsWith;
    assert s[0..] == s;
    if !StartsWith(s, p) && s != [] {
      FindIsFirst(s[1..], p);
      assert forall j :: 1 <= j <= |s| ==> s[j..] == s[1..][j - 1..];
    }
  }

  /** An occurrence is not moved by what follows the text. */
  lemma {:induction false} FindExtends(a: string, b: string, p: string)
    requires Find(a, p).Some?
    ensures Find(a + b, p) == Find(a, p)
  {
    assert (a + b)[..|p|] == a[..|p|];
    if !StartsWith(a, p) {
      FindExtends(a[1..], b, p);
      assert (a + b)[1..] == a[1..] + b;
    }
  }

  /** Cutting a text behind the first occurrence keeps it. */
  lemma {:induction false} FindInPrefix(s: string, p: string, n: nat)
    requires p != [] && Find(s, p).Some? && Find(s, p).value + |p| <= n <= |s|
    ensures Find(s[..n], p) == Find(s, p)
  {
    var t := s[..n];
    assert t[..|p|] == s[..|p|];
    if !StartsWith(s, p) {
      assert t[1..] == s[1..][..n - 1];
      FindInPrefix(s[1..], p, n - 1);
    }
  }

  // ----- scanning -----

  /** The nodes of a text: from each opening to the first closing tag behind it. */
  function Nodes(s: string): (nodes: seq<string>)
    decreases |s|, 1
  {
    match Find(s, OPEN)
    case None => []
    case Some(a) => NodesAt(s[a..])
  }

  function NodesAt(t: string): (nodes: seq<string>)
    decreases |t|, 0
  {
    match Find(t, CLOSE)
    case None => []
    case Some(c) => [t[..c + |CLOSE|]] + Nodes(t[c + |CLOSE|..])
  }

  method OpaqueNodes(xml: string) returns (nodes: seq<string>)
    ensures nodes == Nodes(xml)
  {
    hide Find;
    nodes := [];
    var pos := 0;
    assert xml[0..] == xml;
    while true
      invariant 0 <= pos <= |xml|
      invariant Nodes(xml) == nodes + Nodes(xml[pos..])
      decreases |xml| - pos
    {
      var rel := Find(xml[pos..], OPEN);
      if rel.None? { break; }
      var start := pos + rel.value;
      assert xml[pos..][rel.value..] == xml[start..];
      var closeRel := Find(xml[start..], CLOSE);
      if closeRel.None? { break; }
      var end := start + closeRel.value + |CLOSE|;
      assert xml[start..][..closeRel.value + |CLOSE|] == xml[start..end];
      assert xml[start..][closeRel.value + |CLOSE|..] == xml[end..];
      nodes := nodes + [xml[start..end]];
      pos := end;
    }
  }

  /** What a scanned node looks like: it opens at its start and closes, for the first time, at its end. */
  ghost predicate IsNode(n: string) {
    StartsWith(n, OPEN) && |n| >= |CLOSE| && Find(n, CLOSE) == Some(|n| - |CLOSE|)
  }

  lemma {:induction false} ScannedAreNodes(s: string)
    ensures forall i :: 0 <= i < |Nodes(s)| ==> IsNode(Nodes(s)[i])
    decreases |s|
  {
    hide Find;
    if Find(s, OPEN).Some? {
      var t := s[Find(s, OPEN).value..];
      if Find(t, CLOSE).Some? {
        var end := Find(t, CLOSE).value + |CLOSE|;
        FindIsFirst(s, OPEN);
        FindInPrefix(t, CLOSE, end);
        assert t[..end][..|OPEN|] == t[..|OPEN|];
        ScannedAreNodes(t[end..]);
        assert Nodes(s) == [t[..end]] + Nodes(t[end..]);
      }
    }
  }

  /** A node at the front is found whole. */
  lemma NodeFound(n: string, rest: string)
    requires IsNode(n)
    ensures Nodes(n + rest) == [n] + Nodes(rest)
  {
    var s := n + rest;
    assert s[..|OPEN|] == n[..|OPEN|];
    assert Find(s, OPEN) == Some(0);
    hide Find;
    assert s[0..] == s;
    FindExtends(n, rest, CLOSE);
    assert s[..|n|] == n && s[|n|..] == rest;
  }

  // ----- text between nodes -----

  /** Every '<' is followed, within the text, by something other than the start of an opaque tag. */
  ghost predicate Quiet(s: string) {
    forall i :: 0 <= i < |s| && s[i] == '<' ==> i + 1 < |s| && s[i + 1] != 'o'
  }

  lemma QuietAppend(a: string, b: string)
    requires Quiet(a) && Quiet(b)
    ensures Quiet(a + b)
  {
  }

  lemma QuietDoesNotOpen(q: string, rest: string)
    requires q != [] && Quiet(q)
    ensures !StartsWith(q + rest, OPEN)
  {
    var s := q + rest;
    assert s[0] == q[0] && (|q| > 1 ==> s[1] == q[1]);
    assert |OPEN| <= |s| ==> s[..|OPEN|][0] == s[0] && s[..|OPEN|][1] == s[1];
  }

  lemma {:induction false} FindSkipsQuiet(q: string, rest: string)
    requires Quiet(q)
    ensures Find(q + rest, OPEN) == match Find(rest, OPEN) case None => None case Some(a) => Some(|q| + a)
    decreases |q|
  {
    if q == [] {
      assert q + rest == rest;
    } else {
      var s := q + rest;
      assert s[1..] == q[1..] + rest;
      QuietDoesNotOpen(q, rest);
      FindSkipsQuiet(q[1..], rest);
    }
  }

  lemma NodesSkipQuiet(q: string, rest: string)
    requires Quiet(q)
    ensures Nodes(q + rest) == Nodes(rest)
  {
    hide Find, NodesAt;
    FindSkipsQuiet(q, rest);
    if Find(rest, OPEN).Some? {
      var a := Find(rest, OPEN).value;
      assert (q + rest)[|q| + a..] == rest[a..];
    }
  }

  lemma QuietHasNoNodes(q: string)
    requires Quiet(q)
    ensures Nodes(q) == []
  {
    NodesSkipQuiet(q, "");
    assert q + "" == q;
    assert Find("", OPEN) == None;
  }

  /** Escaped text is quiet, whatever it was before. */
  lemma {:induction false} EscapedIsQuiet(value: string)
    ensures Quiet(Escaped(value))
    ensures forall i :: 0 <= i < |Escaped(value)| ==> Escaped(value)[i] != '<'
  {
    hide EscapeChar;
    if value != [] {
      EscapedIsQuiet(value[1..]);
      EscapeCharHasNoTag(value[0]);
    }
  }

  function Escaped(value: string): string {
    EscapeOnly(value, SPECIAL)
  }

  lemma EscapeCharHasNoTag(c: char)
    ensures forall i :: 0 <= i < |EscapeChar(c)| ==> EscapeChar(c)[i] != '<'
    ensures c !in SPECIAL ==> c != '<'
  {
  }

  // ----- the reply -----

  /** The text of some pieces. */
  function Join(pieces: seq<string>): string {
    if pieces == [] then "" else Join(pieces[..|pieces| - 1]) + pieces[|pieces| - 1]
  }

  function Element(open: string, value: string, close: string): seq<string> {
    if value == "" then [] else [open, Escaped(value), close]
  }

  function HeadPieces(userAgent: string): seq<string> {
    ["<?xml version=\"1.0\" encoding=\"UTF-8\"?>\n",
     "<config-auth client=\"vpn\" ", "type=\"auth-reply\" ", "aggregate-auth-version=\"2\">\n",
     "  <version who=\"vpn\">",
     Escaped(userAgent),
     "</version>\n",
     "  <device-id>exv-native</device-id>\n",
     "  <capabilities>\n",
     "    <auth-method>", "single-sign-on-v2", "</auth-method>\n",
     "  </capabilities>\n"]
  }

  function TailPieces(username: string, password: string, group: string): seq<string> {
    ["  <auth>\n"]
    + Element("    <username>", username, "</username>\n")
    + Element("    <password>", password, "</password>\n")
    + ["  </auth>\n"]
    + Element("  <group-select>", group, "</group-select>\n")
    + ["</config-auth>"]
  }

  /** One indented line per node, verbatim. */
  function NodeLines(nodes: seq<string>): string {
    if nodes == [] then "" else "  " + (nodes[0] + ("\n" + NodeLines(nodes[1..])))
  }

  function Reply(userAgent: string, nodes: seq<string>, username: string, password: string, group: string): string {
    Join(HeadPieces(userAgent)) + (NodeLines(nodes) + Join(TailPieces(username, password, group)))
  }

  ghost predicate AllQuiet(pieces: seq<string>) {
    forall i :: 0 <= i < |pieces| ==> Quiet(pieces[i])
  }

  lemma {:induction false} JoinIsQuiet(pieces: seq<string>)
    requires AllQuiet(pieces)
    ensures Quiet(Join(pieces))
  {
    if pieces != [] {
      JoinIsQuiet(pieces[..|pieces| - 1]);
      QuietAppend(Join(pieces[..|pieces| - 1]), pieces[|pieces| - 1]);
    }
  }

  lemma HeadLiteralsQuiet()
    ensures Quiet("<?xml version=\"1.0\" encoding=\"UTF-8\"?>\n")
    ensures Quiet("  <version who=\"vpn\">") && Quiet("</version>\n")
  {
  }

  lemma RootLiteralsQuiet()
    ensures Quiet("<config-auth client=\"vpn\" ") && Quiet("type=\"auth-reply\" ")
    ensures Quiet("aggregate-auth-version=\"2\">\n")
  {
  }

  lemma DeviceLiteralsQuiet()
    ensures Quiet("  <device-id>exv-native</device-id>\n") && Quiet("  <capabilities>\n") && Quiet("  </capabilities>\n")
  {
  }

  lemma MethodLiteralsQuiet()
    ensures Quiet("    <auth-method>") && Quiet("single-sign-on-v2") && Quiet("</auth-method>\n")
  {
  }

  lemma TailLiteralsQuiet()
    ensures Quiet("  <auth>\n") && Quiet("    <username>") && Quiet("</username>\n")
    ensures Quiet("    <password>") && Quiet("</password>\n") && Quiet("  </auth>\n")
  {
  }

  lemma GroupLiteralsQuiet()
    ensures Quiet("  <group-select>") && Quiet("</group-select>\n") && Quiet("</config-auth>")
    ensures Quiet("  ") && Quiet("\n")
  {
  }

  lemma HeadIsQuiet(userAgent: string)
    ensures Quiet(Join(HeadPieces(userAgent)))
  {
    hide Quiet, Join, Escaped;
    HeadLiteralsQuiet();
    RootLiteralsQuiet();
    DeviceLiteralsQuiet();
    MethodLiteralsQuiet();
    EscapedIsQuiet(userAgent);
    JoinIsQuiet(HeadPieces(userAgent));
  }

  lemma ElementIsQuiet(open: string, value: string, close: string)
    requires Quiet(open) && Quiet(close)
    ensures AllQuiet(Element(open, value, close))
  {
    hide Quiet, Escaped;
    EscapedIsQuiet(value);
  }

  lemma TailIsQuiet(username: string, password: string, group: string)
    ensures Quiet(Join(TailPieces(username, password, group)))
  {
    hide Quiet, Join, Element;
    TailLiteralsQuiet();
    GroupLiteralsQuiet();
    ElementIsQuiet("    <username>", username, "</username>\n");
    ElementIsQuiet("    <password>", password, "</password>\n");
    ElementIsQuiet("  <group-select>", group, "</group-select>\n");
    JoinIsQuiet(TailPieces(username, password, group));
  }

  lemma {:induction false} NodesOfLines(nodes: seq<string>, tail: string)
    requires forall i :: 0 <= i < |nodes| ==> IsNode(nodes[i])
    requires Quiet(tail)
    ensures Nodes(NodeLines(nodes) + tail) == nodes
  {
    hide Nodes, IsNode, Quiet;
    if nodes == [] {
      assert "" + tail == tail;
      QuietHasNoNodes(tail);
    } else {
      var n, rest := nodes[0], NodeLines(nodes[1..]) + tail;
      GroupLiteralsQuiet();
      assert NodeLines(nodes) + tail == "  " + (n + ("\n" + rest));
      NodesSkipQuiet("  ", n + ("\n" + rest));
      NodeFound(n, "\n" + rest);
      NodesSkipQuiet("\n", rest);
      NodesOfLines(nodes[1..], tail);
      assert [n] + nodes[1..] == nodes;
    }
  }

  /** The echo: scanning the reply finds exactly the nodes scanned from the request, in order, whatever
      the user agent, credentials and group contain. */
  lemma EchoIsVerbatim(request: string, userAgent: string, username: string, password: string, group: string)
    ensures Nodes(Reply(userAgent, Nodes(request), username, password, group)) == Nodes(request)
  {
    hide Nodes, IsNode, Quiet, Join, HeadPieces, TailPieces, NodeLines;
    var tail := Join(TailPieces(username, password, group));
    ScannedAreNodes(request);
    HeadIsQuiet(userAgent);
    TailIsQuiet(username, password, group);
    NodesSkipQuiet(Join(HeadPieces(userAgent)), NodeLines(Nodes(request)) + tail);
    NodesOfLines(Nodes(request), tail);
  }

  // ----- building the reply -----

  method PushAll(out: string, pieces: seq<string>) returns (r: string)
    ensures r == out + Join(pieces)
  {
    r := out;
    assert out + "" == out;
    for i := 0 to |pieces|
      invariant r == out + Join(pieces[..i])
    {
      assert pieces[..i + 1][..i] == pieces[..i];
      r := r + pieces[i];
    }
    assert pieces[..|pieces|] == pieces;
  }

  method BuildAggregateAuthReplyXml(userAgent: string, nodes: seq<string>, username: string, password: string, group: string)
    returns (out: string)
    ensures out == Reply(userAgent, nodes, username, password, group)
  {
    hide Join, HeadPieces, TailPieces;
    out := PushAll("", HeadPieces(userAgent));
    ghost var head := Join(HeadPieces(userAgent));
    assert out + NodeLines(nodes) == head + NodeLines(nodes);
    for i := 0 to |nodes|
      invariant out + NodeLines(nodes[i..]) == head + NodeLines(nodes)
    {
      assert nodes[i..][1..] == nodes[i + 1..];
      LineStep(out, nodes[i], NodeLines(nodes[i + 1..]));
      out := out + "  ";
      out := out + nodes[i];
      out := out + "\n";
    }
    assert out + "" == out;
    out := PushAll(out, TailPieces(username, password, group));
  }

  lemma LineStep(out: string, n: string, rest: string)
    ensures (((out + "  ") + n) + "\n") + rest == out + ("  " + (n + ("\n" + rest)))
  {
  }
}
