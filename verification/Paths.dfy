/**
  Where a path in an archive leads once it is joined to a directory. Resolution follows the
  rules of the target system: both slashes separate, a leading slash or a drive prefix
  replaces the directory, an empty or single-dot component stays, and a double-dot component
  goes up. The name test of the installer is stated against that.
 */
module Paths {
  import opened Bytes
  import opened Wrappers

  type Path = seq<byte>

  const DOT: byte := 0x2E

  // ----- the installer's test -----

  predicate HasDotDot(path: Path) {
    exists i :: 0 <= i < |path| - 1 && path[i] == 0x2E && path[i + 1] == 0x2E
  }

  predicate IsAlpha(b: byte) {
    0x41 <= b <= 0x5A || 0x61 <= b <= 0x7A
  }

  /** Not absolute, no "..", no drive letter. */
  predicate IsSafeRelativePath(path: Path) {
    && path != [] && path[0] != 0x2F && path[0] != 0x5C
    && !HasDotDot(path)
    && !(|path| >= 2 && IsAlpha(path[0]) && path[1] == 0x3A)
  }

  // ----- resolution -----

  predicate IsSeparator(b: byte) {
    b == 0x2F || b == 0x5C
  }

  /** The texts between the separators. */
  function Components(path: Path): (c: seq<Path>)
    ensures c != []
  {
    if path == [] then [[]]
    else
      var c := Components(path[1..]);
      if IsSeparator(path[0]) then [[]] + c else [[path[0]] + c[0]] + c[1..]
  }

  /** A letter and a colon in front name a drive. */
  predicate NamesDrive(path: Path) {
    |path| > 1 && path[1] == 0x3A && (0x41 <= path[0] <= 0x5A || 0x61 <= path[0] <= 0x7A)
  }

  /** Nothing in front of the first separator: the root of the drive. */
  predicate NamesRoot(path: Path) {
    |Components(path)| > 1 && Components(path)[0] == []
  }

  function Walk(at: seq<Path>, components: seq<Path>): seq<Path>
    decreases |components|
  {
    if components == [] then at
    else if components[0] == [] || components[0] == [DOT] then Walk(at, components[1..])
    else if components[0] == [DOT, DOT] then Walk(if at == [] then [] else at[..|at| - 1], components[1..])
    else Walk(at + [components[0]], components[1..])
  }

  /** Where a path leads from a directory, or nowhere below any directory. */
  function Resolve(directory: seq<Path>, path: Path): Option<seq<Path>> {
    if NamesDrive(path) || NamesRoot(path) then None else Some(Walk(directory, Components(path)))
  }

  /** From every directory, the path leads to that directory or below it. */
  ghost predicate StaysBelow(path: Path) {
    forall directory :: LeadsBelow(directory, path)
  }

  ghost predicate LeadsBelow(directory: seq<Path>, path: Path) {
    Resolve(directory, path).Some? && directory <= Resolve(directory, path).value
  }

  // ----- accepted paths stay below -----

  lemma {:induction false} FirstIsPrefix(path: Path)
    ensures Components(path)[0] <= path
  {
    if path != [] {
      FirstIsPrefix(path[1..]);
    }
  }

  lemma RootIsLeadingSeparator(path: Path)
    ensures NamesRoot(path) <==> path != [] && IsSeparator(path[0])
  {
  }

  lemma {:induction false} ComponentsLackDots(path: Path)
    requires !HasDotDot(path)
    ensures forall i :: 0 <= i < |Components(path)| ==> !HasDotDot(Components(path)[i])
  {
    if path != [] {
      var rest := path[1..];
      assert forall i :: 0 <= i < |rest| ==> rest[i] == path[i + 1];
      ComponentsLackDots(rest);
      FirstIsPrefix(path);
      assert !HasDotDot(Components(path)[0]);
    }
  }

  lemma {:induction false} WalkGoesDown(at: seq<Path>, components: seq<Path>)
    requires forall i :: 0 <= i < |components| ==> components[i] != [DOT, DOT]
    ensures at <= Walk(at, components)
    decreases |components|
  {
    if components != [] {
      if components[0] == [] || components[0] == [DOT] {
        WalkGoesDown(at, components[1..]);
      } else {
        WalkGoesDown(at + [components[0]], components[1..]);
      }
    }
  }

  lemma DotsAreDots(c: Path)
    requires !HasDotDot(c)
    ensures c != [DOT, DOT]
  {
    assert |c| == 2 ==> !(c[0] == 0x2E && c[0 + 1] == 0x2E);
  }

  /** Every accepted path stays below whatever directory it is joined to. */
  lemma SafeStaysBelow(path: Path)
    requires IsSafeRelativePath(path)
    ensures StaysBelow(path)
  {
    hide Components, HasDotDot;
    RootIsLeadingSeparator(path);
    ComponentsLackDots(path);
    var c := Components(path);
    forall i | 0 <= i < |c|
      ensures c[i] != [DOT, DOT]
    {
      DotsAreDots(c[i]);
    }
    forall directory
      ensures LeadsBelow(directory, path)
    {
      WalkGoesDown(directory, c);
    }
  }

  /** The test accepts exactly the non-empty paths that name no root and no drive and have no two dots
      in a row. */
  lemma SafeIff(path: Path)
    ensures IsSafeRelativePath(path)
       <==> path != [] && !NamesRoot(path) && !NamesDrive(path) && forall i :: 0 <= i < |path| - 1 ==> path[i] != DOT || path[i + 1] != DOT
  {
    hide Components;
    RootIsLeadingSeparator(path);
  }

  /** A list of plain components leads where it says, one after the other. */
  lemma {:induction false} PlainWalk(at: seq<Path>, components: seq<Path>)
    requires forall i :: 0 <= i < |components| ==> IsPlain(components[i])
    ensures Walk(at, components) == at + components
    decreases |components|
  {
    if components != [] {
      PlainWalk(at + [components[0]], components[1..]);
      assert (at + [components[0]]) + components[1..] == at + components;
    } else {
      assert at + components == at;
    }
  }

  /** A name that is neither empty nor one of the two dot names, with no separator in it. */
  predicate IsPlain(name: Path) {
    name != [] && name != [DOT] && name != [DOT, DOT] && forall i :: 0 <= i < |name| ==> !IsSeparator(name[i])
  }

  function Joined(names: seq<Path>): Path
    requires names != []
  {
    if |names| == 1 then names[0] else names[0] + [0x2F] + Joined(names[1..])
  }

  lemma {:induction false} ComponentsOfName(name: Path)
    requires forall i :: 0 <= i < |name| ==> !IsSeparator(name[i])
    ensures Components(name) == [name]
  {
    if name != [] {
      ComponentsOfName(name[1..]);
      assert [name[0]] + name[1..] == name;
    }
  }

  lemma {:induction false} ComponentsBehind(name: Path, separator: byte, rest: Path)
    requires IsSeparator(separator) && forall i :: 0 <= i < |name| ==> !IsSeparator(name[i])
    ensures Components(name + [separator] + rest) == [name] + Components(rest)
  {
    var path := name + [separator] + rest;
    if name == [] {
      assert path[1..] == rest;
    } else {
      assert path[1..] == name[1..] + [separator] + rest;
      ComponentsBehind(name[1..], separator, rest);
      assert [name[0]] + name[1..] == name;
    }
  }

  lemma {:induction false} ComponentsOfJoined(names: seq<Path>)
    requires names != [] && forall i :: 0 <= i < |names| ==> IsPlain(names[i])
    ensures Components(Joined(names)) == names
  {
    hide Components;
    ComponentsOfName(names[0]);
    if |names| == 1 {
      assert names == [names[0]];
    } else {
      ComponentsOfJoined(names[1..]);
      ComponentsBehind(names[0], 0x2F, Joined(names[1..]));
    }
  }

  /** Names joined by slashes lead exactly where they say, unless the first two bytes name a drive; and
      they are accepted exactly if, besides that, no two dots are in a row. */
  lemma JoinedLeads(directory: seq<Path>, names: seq<Path>)
    requires names != [] && (forall i :: 0 <= i < |names| ==> IsPlain(names[i])) && !NamesDrive(Joined(names))
    ensures Resolve(directory, Joined(names)) == Some(directory + names)
    ensures IsSafeRelativePath(Joined(names)) <==> !HasDotDot(Joined(names))
  {
    hide Components, HasDotDot;
    ComponentsOfJoined(names);
    PlainWalk(directory, names);
    RootIsLeadingSeparator(Joined(names));
    assert Joined(names) != [];
  }

  /** A drive letter, a slash or a backslash in front is refused; "b/a.e" is accepted. */
  lemma NamesTried(directory: seq<Path>)
    ensures !IsSafeRelativePath([0x43, 0x3A, 0x5C, 0x78]) && !IsSafeRelativePath([0x5C, 0x78]) && !IsSafeRelativePath([0x2F, 0x78])
    ensures IsSafeRelativePath([0x62, 0x2F, 0x61, 0x2E, 0x65])
    ensures Resolve(directory, [0x62, 0x2F, 0x61, 0x2E, 0x65]) == Some(directory + [[0x62], [0x61, 0x2E, 0x65]])
  {
    var names: seq<Path> := [[0x62], [0x61, 0x2E, 0x65]];
    assert names[1..] == [[0x61, 0x2E, 0x65]];
    assert Joined(names) == [0x62] + [0x2F] + [0x61, 0x2E, 0x65] == [0x62, 0x2F, 0x61, 0x2E, 0x65];
    JoinedLeads(directory, names);
  }

  /** The test is stricter than staying below: "a..b" is a plain name and is refused. */
  lemma StricterThanNeeded()
    ensures var path := [0x61, 0x2E, 0x2E, 0x62]; StaysBelow(path) && !IsSafeRelativePath(path)
  {
    var path: Path := [0x61, 0x2E, 0x2E, 0x62];
    assert path[1] == 0x2E && path[1 + 1] == 0x2E;
    assert Joined([path]) == path;
    forall directory
      ensures LeadsBelow(directory, path)
    {
      JoinedLeads(directory, [path]);
    }
  }
}
