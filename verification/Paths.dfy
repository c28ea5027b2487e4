// Slash-separated paths as Go's path/filepath treats them on Unix.
module Paths {
  import opened Options
  import opened Sequences
  import opened Text

  /** The name of a directory entry. */
  predicate Proper(name: string) {
    name != "" && name != "." && name != ".." && '/' !in name
  }

  predicate AllProper(names: seq<string>) {
    forall i :: 0 <= i < |names| ==> Proper(names[i])
  }

  // ----- clean paths as text -----------------------------------------------------------------

  /** What one more element of a path does to the elements before it. */
  function Enter(rooted: bool, names: seq<string>, element: string): seq<string> {
    if element == "" || element == "." then names
    else if element != ".." then names + [element]
    else if names != [] && names[|names| - 1] != ".." then names[..|names| - 1]
    else if rooted then names
    else names + [element]
  }

  function Resolve(rooted: bool, names: seq<string>, elements: seq<string>): seq<string>
    decreases |elements|
  {
    if elements == [] then names else Resolve(rooted, Enter(rooted, names, elements[0]), elements[1..])
  }

  function Show(rooted: bool, names: seq<string>): (s: string)
    ensures rooted ==> s != "" && s[0] == '/'
  {
    if rooted then "/" + Join(names, '/') else if names == [] then "." else Join(names, '/')
  }

  function ElementsOf(path: string): seq<string> {
    Resolve(path != "" && path[0] == '/', [], Split(path, '/'))
  }

  /** filepath.Clean. */
  function Clean(path: string): string {
    if path == "" then "." else Show(path[0] == '/', ElementsOf(path))
  }

  lemma {:induction false} ResolveProper(rooted: bool, names: seq<string>, more: seq<string>)
    requires AllProper(more)
    ensures Resolve(rooted, names, more) == names + more
    decreases |more|
  {
    if more != [] {
      ResolveProper(rooted, names + [more[0]], more[1..]);
      assert names + [more[0]] + more[1..] == names + more;
    } else {
      assert names + more == names;
    }
  }

  lemma {:induction false} ResolveAppend(rooted: bool, names: seq<string>, a: seq<string>, b: seq<string>)
    ensures Resolve(rooted, names, a + b) == Resolve(rooted, Resolve(rooted, names, a), b)
    decreases |a|
  {
    if a == [] {
      assert a + b == b;
    } else {
      ResolveAppend(rooted, Enter(rooted, names, a[0]), a[1..], b);
      assert (a + b)[1..] == a[1..] + b;
    }
  }

  /** Below the root nothing but proper names is left of a path. */
  lemma {:induction false} ResolveRooted(names: seq<string>, elements: seq<string>)
    requires AllProper(names) && Free(elements, '/')
    ensures AllProper(Resolve(true, names, elements))
    decreases |elements|
  {
    if elements != [] {
      ResolveRooted(Enter(true, names, elements[0]), elements[1..]);
    }
  }

  lemma {:induction false} JoinAppend(a: seq<string>, b: seq<string>, c: char)
    requires a != [] && b != []
    ensures Join(a + b, c) == Join(a, c) + [c] + Join(b, c)
  {
    JoinMore(a + b, c);
    if |a| == 1 {
      assert (a + b)[1..] == b;
    } else {
      assert (a + b)[1..] == a[1..] + b;
      JoinAppend(a[1..], b, c);
      JoinMore(a, c);
      Associate(a[0] + [c], Join(a[1..], c), [c] + Join(b, c));
      assert Join(a[1..], c) + [c] + Join(b, c) == Join(a[1..], c) + ([c] + Join(b, c));
      assert Join(a, c) + [c] + Join(b, c) == Join(a, c) + ([c] + Join(b, c));
    }
  }

  lemma SplitAppend(a: string, b: string, c: char)
    ensures Split(a + [c] + b, c) == Split(a, c) + Split(b, c)
  {
    JoinSplit(a, c);
    JoinSplit(b, c);
    JoinAppend(Split(a, c), Split(b, c), c);
    SplitJoin(Split(a, c) + Split(b, c), c);
  }

  lemma ProperIsFree(names: seq<string>)
    requires AllProper(names)
    ensures Free(names, '/')
  {
  }

  /** The text of a path below the root splits into an empty element and its names. */
  lemma SplitShow(names: seq<string>)
    requires AllProper(names) && names != []
    ensures Split(Show(true, names), '/') == [""] + names
  {
    ProperIsFree(names);
    SplitJoin(names, '/');
    SplitAppend("", Join(names, '/'), '/');
    assert "" + ['/'] + Join(names, '/') == Show(true, names);
    assert Split("", '/') == [""];
  }

  lemma {:induction false} ResolveEmpty(rooted: bool, names: seq<string>, elements: seq<string>)
    requires forall i :: 0 <= i < |elements| ==> elements[i] == ""
    ensures Resolve(rooted, names, elements) == names
  {
    if elements != [] {
      ResolveEmpty(rooted, names, elements[1..]);
    }
  }

  lemma ElementsOfRoot()
    ensures ElementsOf("/") == []
  {
    SplitAppend("", "", '/');
    assert "" + ['/'] + "" == "/";
    assert Split("", '/') == [""];
    ResolveEmpty(true, [], ["", ""]);
  }

  lemma ElementsBelowRoot(names: seq<string>)
    requires AllProper(names) && names != []
    ensures ElementsOf(Show(true, names)) == names
  {
    SplitShow(names);
    ResolveAppend(true, [], [""], names);
    ResolveEmpty(true, [], [""]);
    ResolveProper(true, [], names);
    assert [] + names == names;
  }

  /** The names of a path can be read off its text. */
  lemma ElementsShow(names: seq<string>)
    requires AllProper(names)
    ensures ElementsOf(Show(true, names)) == names
    ensures Clean(Show(true, names)) == Show(true, names)
  {
    if names == [] {
      ElementsOfRoot();
      assert Show(true, names) == "/";
    } else {
      ElementsBelowRoot(names);
    }
  }

  /** filepath.Join of a clean rooted path with any text: the text is entered element by element. */
  lemma JoinResolves(names: seq<string>, text: string)
    requires AllProper(names)
    ensures ElementsOf(Show(true, names) + "/" + text) == Resolve(true, names, Split(text, '/'))
    ensures Clean(Show(true, names) + "/" + text) == Show(true, Resolve(true, names, Split(text, '/')))
  {
    var s := Show(true, names);
    SplitAppend(s, text, '/');
    assert s + ['/'] + text == s + "/" + text;
    ResolveAppend(true, [], Split(s, '/'), Split(text, '/'));
    ElementsShow(names);
  }

  lemma RootIsNoPrefix(other: seq<string>)
    requires AllProper(other)
    ensures !HasPrefix(Show(true, other), "//")
  {
    if |other| > 1 {
      JoinMore(other, '/');
    }
    if other != [] {
      assert Show(true, other)[1] == other[0][0];
    }
  }

  lemma CutFirst(a: seq<string>, b: seq<string>, c: seq<string>)
    requires [""] + c == [""] + a + b && b != []
    ensures a < c
  {
    assert c == ([""] + c)[1..];
    assert a + b == ([""] + a + b)[1..];
  }

  lemma PrefixIsBelow(names: seq<string>, other: seq<string>)
    requires AllProper(names) && AllProper(other) && names != [] && other != []
    requires HasPrefix(Show(true, other), Show(true, names) + "/")
    ensures names < other
  {
    var s := Show(true, names);
    var rest := Show(true, other)[|s| + 1..];
    assert Show(true, other) == s + ['/'] + rest;
    SplitAppend(s, rest, '/');
    SplitShow(names);
    SplitShow(other);
    CutFirst(names, Split(rest, '/'), other);
  }

  /**
   * Of clean rooted paths, the text of one followed by a slash starts the other if and only if the
   * other is strictly below it, and it is not the root.
   */
  lemma BelowIff(names: seq<string>, other: seq<string>)
    requires AllProper(names) && AllProper(other)
    ensures HasPrefix(Show(true, other), Show(true, names) + "/") <==> names != [] && names < other
  {
    if names != [] && names < other {
      var tail := other[|names|..];
      assert names + tail == other;
      JoinAppend(names, tail, '/');
    } else if HasPrefix(Show(true, other), Show(true, names) + "/") {
      if names == [] {
        RootIsNoPrefix(other);
      } else if other != [] {
        PrefixIsBelow(names, other);
      }
    }
  }

  // ----- clean paths as names ----------------------------------------------------------------

  /** A clean path; the names of one that is not rooted may start with "..". */
  datatype Path = Path(rooted: bool, names: seq<string>)

  predicate AllUp(names: seq<string>) {
    forall k :: 0 <= k < |names| ==> names[k] == ".."
  }

  predicate IsClean(p: Path) {
    forall i :: 0 <= i < |p.names| ==> Proper(p.names[i]) || (!p.rooted && AllUp(p.names[..i + 1]))
  }

  /** filepath.Dir. */
  function DirOf(p: Path): Path {
    if p.names == [] then p else p.(names := p.names[..|p.names| - 1])
  }

  function Below(p: Path, names: seq<string>): Path {
    p.(names := p.names + names)
  }

  /** The number of names two paths start with alike. */
  function Common(a: seq<string>, b: seq<string>): (n: nat)
    ensures n <= |a| && n <= |b|
  {
    if a == [] || b == [] || a[0] != b[0] then 0 else 1 + Common(a[1..], b[1..])
  }

  /** filepath.Rel. */
  function Rel(base: Path, target: Path): Option<string> {
    if base == target then Some(".")
    else
      var k := Common(base.names, target.names);
      if base.rooted != target.rooted || (k < |base.names| && base.names[k] == "..") then None
      else Some(Join(seq(|base.names| - k, _ => "..") + target.names[k..], '/'))
  }

  lemma {:induction false} CommonPrefix(a: seq<string>, b: seq<string>)
    ensures Common(a, a + b) == |a|
  {
    if a != [] {
      assert (a + b)[1..] == a[1..] + b;
      CommonPrefix(a[1..], b);
    }
  }

  /** Relative to its parent, what is below a path is called by the path's last name. */
  lemma RelToParent(p: Path, names: seq<string>)
    ensures Rel(DirOf(p), Below(p, names)) ==
      if p.names == [] then if names == [] then Some(".") else Some(Join(names, '/'))
      else Some(Join([p.names[|p.names| - 1]] + names, '/'))
  {
    var base, target := DirOf(p), Below(p, names);
    var tail := if p.names == [] then names else [p.names[|p.names| - 1]] + names;
    assert target.names == base.names + tail;
    CommonPrefix(base.names, tail);
    assert target.names[|base.names|..] == tail;
    assert seq(0, _ => "..") + tail == tail;
    if base == target {
      assert |tail| == 0;
    }
  }

  // ----- what dots mean ----------------------------------------------------------------------

  /** A name and ".." after it cancel. */
  lemma DotDotCancels(rooted: bool, names: seq<string>, name: string, rest: seq<string>)
    requires Proper(name)
    ensures Resolve(rooted, names, [name, ".."] + rest) == Resolve(rooted, names, rest)
  {
    var elements := [name, ".."] + rest;
    assert elements[1..] == [".."] + rest;
    assert ([".."] + rest)[1..] == rest;
    assert (names + [name])[..|names|] == names;
  }

  /** ".." at the root stays there, and in front of a path that is not rooted it is kept. */
  lemma DotDotAtFront(ups: seq<string>, rest: seq<string>)
    requires AllUp(ups)
    ensures Resolve(true, [], [".."] + rest) == Resolve(true, [], rest)
    ensures Resolve(false, ups, [".."] + rest) == Resolve(false, ups + [".."], rest)
  {
    assert ([".."] + rest)[1..] == rest;
  }

  /** "." and empty elements mean nothing. */
  lemma DotsAreSkipped(rooted: bool, names: seq<string>, rest: seq<string>)
    ensures Resolve(rooted, names, ["."] + rest) == Resolve(rooted, names, rest)
    ensures Resolve(rooted, names, [""] + rest) == Resolve(rooted, names, rest)
  {
    assert (["."] + rest)[1..] == rest && ([""] + rest)[1..] == rest;
  }

  /** A clean rooted path stays as it is. */
  lemma CleanTwice(path: string)
    requires path != "" && path[0] == '/'
    ensures Clean(Clean(path)) == Clean(path) && AllProper(ElementsOf(path))
  {
    JoinSplit(path, '/');
    ResolveRooted([], Split(path, '/'));
    ElementsShow(ElementsOf(path));
  }

  lemma {:induction false} CommonOf(shared: seq<string>, up: seq<string>, down: seq<string>)
    requires up == [] || down == [] || up[0] != down[0]
    ensures Common(shared + up, shared + down) == |shared|
  {
    if shared == [] {
      assert shared + up == up && shared + down == down;
    } else {
      assert (shared + up)[1..] == shared[1..] + up && (shared + down)[1..] == shared[1..] + down;
      CommonOf(shared[1..], up, down);
    }
  }

  lemma WhereTheyPart(shared: seq<string>, up: seq<string>, down: seq<string>)
    requires up != [] && (down == [] || down[0] != up[0])
    ensures shared + up != shared + down
    ensures (shared + up)[|shared|] == up[0] && (shared + down)[|shared|..] == down
  {
    var a, b := shared + up, shared + down;
    assert a[|shared|] == up[0];
    if down != [] {
      assert b[|shared|] == down[0];
    }
  }

  /** From one path to another: up to where they part, and down again. */
  lemma RelIs(rooted: bool, shared: seq<string>, up: seq<string>, down: seq<string>)
    requires up != [] && up[0] != ".." && (down == [] || down[0] != up[0])
    ensures Rel(Path(rooted, shared + up), Path(rooted, shared + down))
      == Some(Join(seq(|up|, _ => "..") + down, '/'))
  {
    CommonOf(shared, up, down);
    WhereTheyPart(shared, up, down);
    assert |shared + up| - |shared| == |up|;
  }
}
