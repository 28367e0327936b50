/**
  Which value the authentication reply carries where. The reader here knows nothing of how
  the reply is built: it looks for the text between a tag and its closing tag, behind the
  opaque nodes, and unescapes it.
 */
module ReplyFields {
  import opened Wrappers
  import opened Xml
  import opened Opaque

  // ----- the reader -----

  /** The text between the first opening tag and the first closing tag behind it. */
  function Between(s: string, open: string, close: string): Option<string> {
    match Find(s, open)
    case None => None
    case Some(a) =>
      var t := s[a + |open|..];
      match Find(t, close)
      case None => None
      case Some(b) => Some(t[..b])
  }

  function Value(s: string, open: string, close: string): Option<string> {
    match Between(s, open, close)
    case None => None
    case Some(text) => Some(Unescape(text))
  }

  /** What lies behind the last opaque node. */
  function BehindNodes(s: string): string
    decreases |s|
  {
    match Find(s, OPEN)
    case None => s
    case Some(a) =>
      match Find(s[a..], CLOSE)
      case None => s
      case Some(c) => BehindNodes(s[a..][c + |CLOSE|..])
  }

  // ----- text without a tag -----

  /** Every '<' is followed, within the text, by something else than these. */
  ghost predicate Avoids(s: string, firsts: set<char>) {
    forall i :: 0 <= i < |s| && s[i] == '<' ==> i + 1 < |s| && s[i + 1] !in firsts
  }

  lemma AvoidsAppend(a: string, b: string, firsts: set<char>)
    requires Avoids(a, firsts) && Avoids(b, firsts)
    ensures Avoids(a + b, firsts)
  {
  }

  /** A tag is not looked for in text that avoids its first letter. */
  lemma {:induction false} FindPast(q: string, rest: string, tag: string)
    requires |tag| >= 2 && tag[0] == '<' && Avoids(q, {tag[1]})
    ensures Find(q + rest, tag) == match Find(rest, tag) case None => None case Some(a) => Some(|q| + a)
    decreases |q|
  {
    if q == [] {
      assert q + rest == rest;
    } else {
      var s := q + rest;
      assert s[1..] == q[1..] + rest;
      assert !StartsWith(s, tag) by {
        assert s[0] == q[0] && (|q| > 1 ==> s[1] == q[1]);
        assert |tag| <= |s| ==> s[..|tag|][0] == s[0] && s[..|tag|][1] == s[1];
      }
      FindPast(q[1..], rest, tag);
    }
  }

  lemma FindNowhere(q: string, tag: string)
    requires |tag| >= 2 && tag[0] == '<' && Avoids(q, {tag[1]})
    ensures Find(q, tag) == None
  {
    FindPast(q, "", tag);
    assert q + "" == q;
  }

  lemma FindHere(tag: string, rest: string)
    requires tag != ""
    ensures Find(tag + rest, tag) == Some(0)
  {
    assert (tag + rest)[..|tag|] == tag;
  }

  lemma EscapedAvoids(value: string, firsts: set<char>)
    ensures Avoids(Escaped(value), firsts)
  {
    EscapedIsQuiet(value);
  }

  /** An element behind text that avoids its tag gives its value back. */
  lemma ElementIsRead(q: string, open: string, value: string, close: string, rest: string)
    requires |open| >= 2 && open[0] == '<' && Avoids(q, {open[1]})
    requires |close| >= 2 && close[0] == '<'
    ensures Value(q + (open + (Escaped(value) + (close + rest))), open, close) == Some(value)
  {
    hide Find, Avoids, Escaped, Unescape;
    var t := Escaped(value) + (close + rest);
    FindPast(q, open + t, open);
    FindHere(open, t);
    assert (q + (open + t))[|q| + |open|..] == t;
    EscapedAvoids(value, {close[1]});
    FindPast(Escaped(value), close + rest, close);
    FindHere(close, rest);
    assert t[..|Escaped(value)|] == Escaped(value);
    UnescapeIsInverse(value);
  }

  lemma UnescapeIsInverse(value: string)
    ensures Unescape(Escaped(value)) == value
  {
    UnescapeInvertsEscape(value);
  }

  lemma NoElement(s: string, open: string, close: string)
    requires |open| >= 2 && open[0] == '<' && Avoids(s, {open[1]})
    ensures Value(s, open, close) == None
  {
    hide Find;
    FindNowhere(s, open);
  }

  // ----- behind the nodes -----

  lemma BehindQuiet(q: string)
    requires Quiet(q)
    ensures BehindNodes(q) == q
  {
    FindSkipsQuiet(q, "");
    assert q + "" == q && Find("", OPEN) == None;
  }

  lemma BehindSkips(q: string, n: string, rest: string)
    requires Quiet(q) && IsNode(n)
    ensures BehindNodes(q + (n + rest)) == BehindNodes(rest)
  {
    hide Find;
    var t := n + rest;
    FindSkipsQuiet(q, t);
    NodeOpens(n, rest);
    FindExtends(n, rest, CLOSE);
    assert (q + t)[|q|..] == t;
    assert t[|n|..] == rest;
  }

  lemma NodeOpens(n: string, rest: string)
    requires IsNode(n)
    ensures Find(n + rest, OPEN) == Some(0)
  {
    assert (n + rest)[..|OPEN|] == n[..|OPEN|];
  }

  /** Behind the lines of the nodes: a line break and the tail, or all of it if there is no node. */
  lemma {:induction false} BehindLines(q: string, nodes: seq<string>, tail: string)
    requires Quiet(q) && Quiet(tail) && forall i :: 0 <= i < |nodes| ==> IsNode(nodes[i])
    ensures BehindNodes(q + (NodeLines(nodes) + tail)) == (if nodes == [] then q else "\n") + tail
    decreases |nodes|
  {
    hide BehindNodes, IsNode, Quiet;
    if nodes == [] {
      assert NodeLines(nodes) + tail == tail;
      QuietAppend(q, tail);
      BehindQuiet(q + tail);
    } else {
      var n, more := nodes[0], NodeLines(nodes[1..]) + tail;
      GroupLiteralsQuiet();
      QuietAppend(q, "  ");
      LineApart(q, n, NodeLines(nodes[1..]), tail);
      BehindSkips(q + "  ", n, "\n" + more);
      BehindLines("\n", nodes[1..], tail);
    }
  }

  lemma LineApart(q: string, n: string, lines: string, tail: string)
    ensures q + (("  " + (n + ("\n" + lines))) + tail) == (q + "  ") + (n + ("\n" + (lines + tail)))
  {
  }

  // ----- the pieces of the reply -----

  ghost predicate AllAvoid(pieces: seq<string>, firsts: set<char>) {
    forall i :: 0 <= i < |pieces| ==> Avoids(pieces[i], firsts)
  }

  lemma {:induction false} JoinAvoids(pieces: seq<string>, firsts: set<char>)
    requires AllAvoid(pieces, firsts)
    ensures Avoids(Join(pieces), firsts)
  {
    if pieces != [] {
      JoinAvoids(pieces[..|pieces| - 1], firsts);
      AvoidsAppend(Join(pieces[..|pieces| - 1]), pieces[|pieces| - 1], firsts);
    }
  }

  lemma {:induction false} JoinAppend(a: seq<string>, b: seq<string>)
    ensures Join(a + b) == Join(a) + Join(b)
    decreases |b|
  {
    if b == [] {
      assert a + b == a;
    } else {
      var n := |b| - 1;
      assert (a + b)[..|a| + n] == a + b[..n];
      JoinAppend(a, b[..n]);
    }
  }

  lemma JoinThree(a: string, b: string, c: string)
    ensures Join([a, b, c]) == a + (b + c)
  {
    assert [a, b, c][..2] == [a, b] && [a, b][..1] == [a] && [a][..0] == [];
    assert Join([a]) == a;
    assert Join([a, b]) == a + b;
  }

  /** Some pieces, an element, and more pieces, read as text. */
  lemma PiecesRead(q: string, before: seq<string>, indent: string, open: string, value: string, close: string, end: string, behind: seq<string>)
    requires |open| >= 2 && open[0] == '<' && |close| >= 2 && close[0] == '<'
    requires Avoids(q, {open[1]}) && AllAvoid(before, {open[1]}) && Avoids(indent, {open[1]})
    requires value == "" ==> AllAvoid(behind, {open[1]})
    ensures
      var s := q + Join(before + Element(indent + open, value, close + end) + behind);
      Value(s, open, close) == if value == "" then None else Some(value)
  {
    hide Avoids, Escaped, Join, Value;
    JoinAvoids(before, {open[1]});
    AvoidsAppend(q, Join(before), {open[1]});
    if value == "" {
      assert before + [] + behind == before + behind;
      JoinAppend(before, behind);
      JoinAvoids(behind, {open[1]});
      AvoidsAppend(Join(before), Join(behind), {open[1]});
      AvoidsAppend(q, Join(before + behind), {open[1]});
      NoElement(q + Join(before + behind), open, close);
    } else {
      var element := [indent + open, Escaped(value), close + end];
      JoinAppend(before + element, behind);
      JoinAppend(before, element);
      JoinThree(indent + open, Escaped(value), close + end);
      var front := (q + Join(before)) + indent;
      AvoidsAppend(q + Join(before), indent, {open[1]});
      var rest := end + Join(behind);
      Reassociate(q, Join(before), indent, open, Escaped(value), close, end, Join(behind));
      ElementIsRead(front, open, value, close, rest);
    }
  }

  lemma Reassociate(q: string, before: string, indent: string, open: string, value: string, close: string, end: string, behind: string)
    ensures q + ((before + ((indent + open) + (value + (close + end)))) + behind)
         == ((q + before) + indent) + (open + (value + (close + (end + behind))))
  {
  }

  const FIELD_LETTERS := {'u', 'p', 'g'}

  lemma PrologAvoids()
    ensures Avoids("<?xml version=\"1.0\" encoding=\"UTF-8\"?>\n", FIELD_LETTERS + {'v'})
  {
  }

  lemma VersionAvoids()
    ensures Avoids("  <version who=\"vpn\">", FIELD_LETTERS) && Avoids("</version>\n", FIELD_LETTERS)
  {
  }

  lemma RootAvoids()
    ensures Avoids("<config-auth client=\"vpn\" ", FIELD_LETTERS + {'v'})
  {
  }

  lemma RootRestAvoids()
    ensures Avoids("type=\"auth-reply\" ", FIELD_LETTERS + {'v'}) && Avoids("aggregate-auth-version=\"2\">\n", FIELD_LETTERS + {'v'})
  {
  }

  lemma DeviceAvoids()
    ensures Avoids("  <device-id>exv-native</device-id>\n", FIELD_LETTERS)
  {
  }

  lemma CapabilitiesAvoid()
    ensures Avoids("  <capabilities>\n", FIELD_LETTERS) && Avoids("  </capabilities>\n", FIELD_LETTERS)
  {
  }

  lemma MethodAvoids()
    ensures Avoids("    <auth-method>", FIELD_LETTERS) && Avoids("single-sign-on-v2", FIELD_LETTERS) && Avoids("</auth-method>\n", FIELD_LETTERS)
  {
  }

  lemma TailLiteralsAvoid()
    ensures Avoids("  <auth>\n", FIELD_LETTERS) && Avoids("  </auth>\n", FIELD_LETTERS) && Avoids("</config-auth>", FIELD_LETTERS)
    ensures Avoids("</username>\n", FIELD_LETTERS) && Avoids("</password>\n", FIELD_LETTERS) && Avoids("</group-select>\n", FIELD_LETTERS)
    ensures Avoids("\n", FIELD_LETTERS) && Avoids("    ", FIELD_LETTERS) && Avoids("  ", FIELD_LETTERS + {'v'})
  {
    CloseAvoids("  <auth>\n", 2);
    CloseAvoids("  </auth>\n", 2);
    CloseAvoids("</config-auth>", 0);
    CloseAvoids("</username>\n", 0);
    CloseAvoids("</password>\n", 0);
    CloseAvoids("</group-select>\n", 0);
  }

  /** One tag, at this place, whose first letter is none of these. */
  lemma CloseAvoids(s: string, at: nat)
    requires at + 1 < |s| && s[at + 1] !in FIELD_LETTERS && forall i :: 0 <= i < |s| && i != at ==> s[i] != '<'
    ensures Avoids(s, FIELD_LETTERS)
  {
  }

  lemma OpenLiteralsAvoid()
    ensures Avoids("    <username>", {'p', 'g'}) && Avoids("    <password>", {'u', 'g'}) && Avoids("  <group-select>", {'u', 'p'})
  {
  }

  lemma Narrow(s: string, wide: set<char>, narrow: set<char>)
    requires Avoids(s, wide) && narrow <= wide
    ensures Avoids(s, narrow)
  {
  }

  lemma ElementAvoids(open: string, value: string, close: string, firsts: set<char>)
    requires Avoids(open, firsts) && Avoids(close, firsts)
    ensures AllAvoid(Element(open, value, close), firsts)
  {
    hide Avoids, Escaped;
    EscapedAvoids(value, firsts);
  }

  lemma HeadAvoids(userAgent: string)
    ensures Avoids(Join(HeadPieces(userAgent)), FIELD_LETTERS)
  {
    hide Avoids, Join, Escaped;
    PrologAvoids();
    Narrow("<?xml version=\"1.0\" encoding=\"UTF-8\"?>\n", FIELD_LETTERS + {'v'}, FIELD_LETTERS);
    VersionAvoids();
    RootAvoids();
    Narrow("<config-auth client=\"vpn\" ", FIELD_LETTERS + {'v'}, FIELD_LETTERS);
    RootRestAvoids();
    Narrow("type=\"auth-reply\" ", FIELD_LETTERS + {'v'}, FIELD_LETTERS);
    Narrow("aggregate-auth-version=\"2\">\n", FIELD_LETTERS + {'v'}, FIELD_LETTERS);
    DeviceAvoids();
    CapabilitiesAvoid();
    MethodAvoids();
    EscapedAvoids(userAgent, FIELD_LETTERS);
    JoinAvoids(HeadPieces(userAgent), FIELD_LETTERS);
  }

  // ----- the values -----

  lemma UsernameRead(q: string, username: string, password: string, group: string)
    requires Avoids(q, FIELD_LETTERS)
    ensures Value(q + Join(TailPieces(username, password, group)), "<username>", "</username>")
         == if username == "" then None else Some(username)
  {
    hide Avoids, Join, Element, Value;
    TailLiteralsAvoid();
    OpenLiteralsAvoid();
    NarrowTail({'u'});
    Narrow(q, FIELD_LETTERS, {'u'});
    Narrow("    <password>", {'u', 'g'}, {'u'});
    Narrow("  <group-select>", {'u', 'p'}, {'u'});
    ElementAvoids("    <password>", password, "</password>\n", {'u'});
    ElementAvoids("  <group-select>", group, "</group-select>\n", {'u'});
    var before := ["  <auth>\n"];
    var behind := Element("    <password>", password, "</password>\n") + ["  </auth>\n"]
                  + Element("  <group-select>", group, "</group-select>\n") + ["</config-auth>"];
    PiecesRead(q, before, "    ", "<username>", username, "</username>", "\n", behind);
    assert "    " + "<username>" == "    <username>" && "</username>" + "\n" == "</username>\n";
    assert TailPieces(username, password, group) == before + Element("    <username>", username, "</username>\n") + behind;
  }

  lemma PasswordRead(q: string, username: string, password: string, group: string)
    requires Avoids(q, FIELD_LETTERS)
    ensures Value(q + Join(TailPieces(username, password, group)), "<password>", "</password>")
         == if password == "" then None else Some(password)
  {
    hide Avoids, Join, Element, Value;
    TailLiteralsAvoid();
    OpenLiteralsAvoid();
    NarrowTail({'p'});
    Narrow(q, FIELD_LETTERS, {'p'});
    Narrow("    <username>", {'p', 'g'}, {'p'});
    Narrow("  <group-select>", {'u', 'p'}, {'p'});
    ElementAvoids("    <username>", username, "</username>\n", {'p'});
    ElementAvoids("  <group-select>", group, "</group-select>\n", {'p'});
    var before := ["  <auth>\n"] + Element("    <username>", username, "</username>\n");
    var behind := ["  </auth>\n"] + Element("  <group-select>", group, "</group-select>\n") + ["</config-auth>"];
    PiecesRead(q, before, "    ", "<password>", password, "</password>", "\n", behind);
    assert "    " + "<password>" == "    <password>" && "</password>" + "\n" == "</password>\n";
    assert TailPieces(username, password, group) == before + Element("    <password>", password, "</password>\n") + behind;
  }

  lemma GroupRead(q: string, username: string, password: string, group: string)
    requires Avoids(q, FIELD_LETTERS)
    ensures Value(q + Join(TailPieces(username, password, group)), "<group-select>", "</group-select>")
         == if group == "" then None else Some(group)
  {
    hide Avoids, Join, Element, Value;
    TailLiteralsAvoid();
    OpenLiteralsAvoid();
    NarrowTail({'g'});
    Narrow(q, FIELD_LETTERS, {'g'});
    Narrow("    <username>", {'p', 'g'}, {'g'});
    Narrow("    <password>", {'u', 'g'}, {'g'});
    ElementAvoids("    <username>", username, "</username>\n", {'g'});
    ElementAvoids("    <password>", password, "</password>\n", {'g'});
    var before := ["  <auth>\n"] + Element("    <username>", username, "</username>\n")
                  + Element("    <password>", password, "</password>\n") + ["  </auth>\n"];
    PiecesRead(q, before, "  ", "<group-select>", group, "</group-select>", "\n", ["</config-auth>"]);
    assert "  " + "<group-select>" == "  <group-select>" && "</group-select>" + "\n" == "</group-select>\n";
    assert TailPieces(username, password, group) == before + Element("  <group-select>", group, "</group-select>\n") + ["</config-auth>"];
  }

  lemma NarrowTail(firsts: set<char>)
    requires firsts <= FIELD_LETTERS
    ensures Avoids("  <auth>\n", firsts) && Avoids("  </auth>\n", firsts) && Avoids("</config-auth>", firsts)
    ensures Avoids("</username>\n", firsts) && Avoids("</password>\n", firsts) && Avoids("</group-select>\n", firsts)
    ensures Avoids("\n", firsts) && Avoids("    ", firsts) && Avoids("  ", firsts)
  {
    TailLiteralsAvoid();
  }

  /** What stands in front of the version element, and what behind it. */
  function Preamble(): seq<string> {
    ["<?xml version=\"1.0\" encoding=\"UTF-8\"?>\n",
     "<config-auth client=\"vpn\" ", "type=\"auth-reply\" ", "aggregate-auth-version=\"2\">\n"]
  }

  function Device(): seq<string> {
    ["  <device-id>exv-native</device-id>\n", "  <capabilities>\n",
     "    <auth-method>", "single-sign-on-v2", "</auth-method>\n", "  </capabilities>\n"]
  }

  lemma PreambleAvoids()
    ensures Avoids(Join(Preamble()), {'v'})
  {
    hide Avoids, Join;
    PrologAvoids();
    Narrow("<?xml version=\"1.0\" encoding=\"UTF-8\"?>\n", FIELD_LETTERS + {'v'}, {'v'});
    RootAvoids();
    Narrow("<config-auth client=\"vpn\" ", FIELD_LETTERS + {'v'}, {'v'});
    RootRestAvoids();
    Narrow("type=\"auth-reply\" ", FIELD_LETTERS + {'v'}, {'v'});
    Narrow("aggregate-auth-version=\"2\">\n", FIELD_LETTERS + {'v'}, {'v'});
    JoinAvoids(Preamble(), {'v'});
  }

  lemma HeadParts(userAgent: string)
    ensures HeadPieces(userAgent) == Preamble() + ["  <version who=\"vpn\">", Escaped(userAgent), "</version>\n"] + Device()
  {
    hide Escaped;
  }

  /** The user agent is the first version element. */
  lemma VersionRead(userAgent: string, rest: string)
    ensures Value(Join(HeadPieces(userAgent)) + rest, "<version who=\"vpn\">", "</version>") == Some(userAgent)
  {
    hide Avoids, Join, Escaped, Value, HeadPieces, Preamble, Device;
    var element := ["  <version who=\"vpn\">", Escaped(userAgent), "</version>\n"];
    HeadParts(userAgent);
    PreambleAvoids();
    TailLiteralsAvoid();
    Narrow("  ", FIELD_LETTERS + {'v'}, {'v'});
    AvoidsAppend(Join(Preamble()), "  ", {'v'});
    JoinAppend(Preamble() + element, Device());
    JoinAppend(Preamble(), element);
    JoinThree("  <version who=\"vpn\">", Escaped(userAgent), "</version>\n");
    SplitTags();
    ReassociateHead(Join(Preamble()), "<version who=\"vpn\">", Escaped(userAgent), "</version>", Join(Device()), rest);
    ElementIsRead(Join(Preamble()) + "  ", "<version who=\"vpn\">", userAgent, "</version>", "\n" + (Join(Device()) + rest));
  }

  lemma SplitTags()
    ensures "  " + "<version who=\"vpn\">" == "  <version who=\"vpn\">" && "</version>" + "\n" == "</version>\n"
    ensures |"<version who=\"vpn\">"| >= 2 && "<version who=\"vpn\">"[0] == '<' && "<version who=\"vpn\">"[1] == 'v'
  {
  }

  lemma ReassociateHead(before: string, open: string, value: string, close: string, behind: string, rest: string)
    ensures ((before + (("  " + open) + (value + (close + "\n")))) + behind) + rest
         == (before + "  ") + (open + (value + (close + ("\n" + (behind + rest)))))
  {
  }

  /** What a reader of the reply finds: each value in its own element, whatever the values and the opaque
      nodes contain, and no element exactly for an empty value. */
  lemma ReplyCarries(request: string, userAgent: string, username: string, password: string, group: string)
    ensures
      var reply := Reply(userAgent, Nodes(request), username, password, group);
      var behind := BehindNodes(reply);
      && Value(reply, "<version who=\"vpn\">", "</version>") == Some(userAgent)
      && Value(behind, "<username>", "</username>") == (if username == "" then None else Some(username))
      && Value(behind, "<password>", "</password>") == (if password == "" then None else Some(password))
      && Value(behind, "<group-select>", "</group-select>") == (if group == "" then None else Some(group))
  {
    hide Nodes, IsNode, Quiet, Join, HeadPieces, TailPieces, NodeLines, Value, Avoids, BehindNodes;
    var nodes := Nodes(request);
    var tail := Join(TailPieces(username, password, group));
    ScannedAreNodes(request);
    HeadIsQuiet(userAgent);
    TailIsQuiet(username, password, group);
    BehindLines(Join(HeadPieces(userAgent)), nodes, tail);
    HeadAvoids(userAgent);
    TailLiteralsAvoid();
    var q := if nodes == [] then Join(HeadPieces(userAgent)) else "\n";
    UsernameRead(q, username, password, group);
    PasswordRead(q, username, password, group);
    GroupRead(q, username, password, group);
    VersionRead(userAgent, NodeLines(nodes) + tail);
  }
}
