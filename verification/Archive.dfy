// zipFile and unzip (pkg/slurm/slurm.go and, word for word, cmd/results/main.go).
//
// An archive is its list of entries; how it is encoded in bytes is not modelled here.
module Archive {
  import opened Options
  import opened Text
  import opened Paths

  type Bytes = seq<bv8>

  datatype Node = Directory | Regular(content: Bytes)

  /** A disk below its root: from the names on the way to what is there. */
  type Fs = map<seq<string>, Node>

  /** A file or a directory with all that is in it. */
  datatype Tree = Leaf(content: Bytes) | Branch(children: Forest)
  datatype Forest = Nothing | Child(name: string, tree: Tree, rest: Forest)

  predicate HasName(f: Forest, name: string) {
    f.Child? && (f.name == name || HasName(f.rest, name))
  }

  /** Names of directory entries are proper and occur once. */
  predicate ProperTree(t: Tree) {
    t.Branch? ==> ProperForest(t.children)
  }

  predicate ProperForest(f: Forest) {
    f.Child? ==> Paths.Proper(f.name) && !HasName(f.rest, f.name) && ProperTree(f.tree) && ProperForest(f.rest)
  }

  /** The root of a tree. */
  function Top(t: Tree): Node {
    match t
    case Leaf(content) => Regular(content)
    case Branch(_) => Directory
  }

  // ----- what a tree occupies on a disk ------------------------------------------------------

  /** The tree, and nothing else, at a path. */
  function Placed(at: seq<string>, t: Tree): Fs
    decreases t
  {
    match t
    case Leaf(content) => map[at := Regular(content)]
    case Branch(children) => map[at := Directory] + PlacedIn(at, children)
  }

  function PlacedIn(at: seq<string>, f: Forest): Fs
    decreases f
  {
    match f
    case Nothing => map[]
    case Child(name, tree, rest) => Placed(at + [name], tree) + PlacedIn(at, rest)
  }

  /** What one finds in a tree by following names down. */
  function Lookup(t: Tree, names: seq<string>): Option<Node>
    decreases t
  {
    if names == [] then Some(Top(t)) else if t.Branch? then LookupIn(t.children, names) else None
  }

  function LookupIn(f: Forest, names: seq<string>): Option<Node>
    requires names != []
    decreases f
  {
    match f
    case Nothing => None
    case Child(name, tree, rest) => if name == names[0] then Lookup(tree, names[1..]) else LookupIn(rest, names)
  }

  function OnDisk(fs: Fs, p: seq<string>): Option<Node> {
    if p in fs then Some(fs[p]) else None
  }

  /** At the path the disk holds exactly this tree. */
  ghost predicate Holds(fs: Fs, at: seq<string>, t: Tree) {
    forall names :: OnDisk(fs, at + names) == Lookup(t, names)
  }

  // ----- archiving ---------------------------------------------------------------------------

  datatype Found = Found(path: seq<string>, node: Node)

  /** filepath.Walk: a directory before what is in it. */
  function Walk(at: seq<string>, t: Tree): seq<Found>
    decreases t
  {
    match t
    case Leaf(content) => [Found(at, Regular(content))]
    case Branch(children) => [Found(at, Directory)] + WalkIn(at, children)
  }

  function WalkIn(at: seq<string>, f: Forest): seq<Found>
    decreases f
  {
    match f
    case Nothing => []
    case Child(name, tree, rest) => Walk(at + [name], tree) + WalkIn(at, rest)
  }

  /** dirMode: the mode bits in the header say that it is a directory. */
  datatype Entry = Entry(name: string, dirMode: bool, content: Bytes)

  /** An entry is a directory when its mode says so or its name ends with a slash. */
  predicate IsDir(e: Entry) {
    e.dirMode || (e.name != "" && e.name[|e.name| - 1] == '/')
  }

  function NodeOf(e: Entry): Node {
    if IsDir(e) then Directory else Regular(e.content)
  }

  function EntryCalled(name: string, node: Node): Entry {
    match node
    case Directory => Entry(name + "/", true, [])
    case Regular(content) => Entry(name, false, content)
  }

  /** The entry for what was found below source. */
  function EntryFor(source: Path, found: Found): Option<Entry> {
    match Rel(DirOf(source), Below(source, found.path))
    case None => None
    case Some(name) =>
      Some(EntryCalled(name, found.node))
  }

  /** The entries for what was found, in the same order. */
  ghost predicate Lists(source: Path, found: seq<Found>, entries: seq<Entry>) {
    |entries| == |found| && forall i :: 0 <= i < |entries| ==> EntryFor(source, found[i]) == Some(entries[i])
  }

  lemma AllHaveEntries(source: Path, found: seq<Found>)
    ensures forall i :: 0 <= i < |found| ==> EntryFor(source, found[i]).Some?
  {
    forall i | 0 <= i < |found| ensures EntryFor(source, found[i]).Some? {
      RelToParent(source, found[i].path);
    }
  }

  /** The archive of t, found at source. */
  function Entries(source: Path, t: Tree): (entries: seq<Entry>)
    ensures Lists(source, Walk([], t), entries)
  {
    var found := Walk([], t);
    AllHaveEntries(source, found);
    seq(|found|, i requires 0 <= i < |found| => EntryFor(source, found[i]).value)
  }

  lemma ListsOnce(source: Path, found: seq<Found>, a: seq<Entry>, b: seq<Entry>)
    requires Lists(source, found, a) && Lists(source, found, b)
    ensures a == b
  {
    forall i | 0 <= i < |a| ensures a[i] == b[i] {
      assert Some(a[i]) == EntryFor(source, found[i]) == Some(b[i]);
    }
  }

  lemma ListsSnoc(source: Path, found: seq<Found>, i: nat, entries: seq<Entry>, e: Entry)
    requires i < |found| && Lists(source, found[..i], entries) && EntryFor(source, found[i]) == Some(e)
    ensures Lists(source, found[..i + 1], entries + [e])
  {
  }

  method ZipFile(source: Path, t: Tree) returns (entries: Option<seq<Entry>>)
    ensures entries == Some(Entries(source, t))
  {
    var found := Walk([], t);
    var done: seq<Entry> := [];
    AllHaveEntries(source, found);
    for i := 0 to |found|
      invariant Lists(source, found[..i], done)
    {
      var entry := EntryFor(source, found[i]);
      if entry.None? {
        return None;
      }
      ListsSnoc(source, found, i, done, entry.value);
      done := done + [entry.value];
    }
    assert found[..|found|] == found;
    ListsOnce(source, found, done, Entries(source, t));
    return Some(done);
  }

  // ----- extracting --------------------------------------------------------------------------

  /** A disk after an operation, and whether the operation succeeded. */
  datatype Outcome = Outcome(fs: Fs, ok: bool)

  /** p is on the way to path, or path itself. */
  predicate OnWay(p: seq<string>, path: seq<string>) {
    p <= path
  }

  ghost predicate NoFileOn(fs: Fs, path: seq<string>) {
    forall p :: p in fs && OnWay(p, path) ==> fs[p] == Directory
  }

  function Prefixes(path: seq<string>): set<seq<string>> {
    set i | 0 <= i <= |path| :: path[..i]
  }

  lemma PrefixesAre(path: seq<string>)
    ensures forall p :: OnWay(p, path) <==> p in Prefixes(path)
  {
    forall p ensures OnWay(p, path) <==> p in Prefixes(path) {
      if OnWay(p, path) {
        assert p == path[..|p|];
      }
    }
  }

  ghost function WithDirs(fs: Fs, path: seq<string>): (r: Fs)
    ensures forall p :: p in r <==> p in fs || OnWay(p, path)
    ensures forall p :: p in r ==> r[p] == if p in fs then fs[p] else Directory
  {
    PrefixesAre(path);
    map p | p in fs.Keys + Prefixes(path) :: if p in fs then fs[p] else Directory
  }

  /** os.MkdirAll. */
  ghost function MadeAll(fs: Fs, path: seq<string>): Outcome {
    if NoFileOn(fs, path) then Outcome(WithDirs(fs, path), true) else Outcome(fs, false)
  }

  /** Put a directory or a file at a path, with the directories on the way. */
  ghost function Put(fs: Fs, path: seq<string>, node: Node): Outcome {
    if node.Directory? then MadeAll(fs, path)
    else
      var made := MadeAll(fs, if path == [] then [] else path[..|path| - 1]);
      if !made.ok || (path in made.fs && made.fs[path].Directory?) then made.(ok := false)
      else Outcome(made.fs[path := node], true)
  }

  /** unzipFile; the check is on the text of the paths. */
  ghost function Extracted(fs: Fs, destination: string, e: Entry): Outcome {
    var filePath := Clean(destination + "/" + e.name);
    if !HasPrefix(filePath, Clean(destination) + "/") then Outcome(fs, false)
    else Put(fs, ElementsOf(filePath), NodeOf(e))
  }

  ghost function Unzipped(fs: Fs, destination: string, entries: seq<Entry>): Outcome
    decreases |entries|
  {
    if entries == [] then Outcome(fs, true)
    else
      var first := Extracted(fs, destination, entries[0]);
      if first.ok then Unzipped(first.fs, destination, entries[1..]) else first
  }

  class Disk {
    var nodes: Fs

    method MkdirAll(path: seq<string>) returns (ok: bool)
      modifies this
      ensures Outcome(nodes, ok) == MadeAll(old(nodes), path)
    {
      ghost var was := nodes;
      for i := 0 to |path| + 1
        invariant nodes == was
        invariant forall k :: 0 <= k < i && path[..k] in nodes ==> nodes[path[..k]] == Directory
      {
        if path[..i] in nodes && nodes[path[..i]] != Directory {
          return false;
        }
      }
      assert NoFileOn(was, path) by {
        forall p | p in was && OnWay(p, path) ensures was[p] == Directory { assert p == path[..|p|]; }
      }
      for i := 0 to |path| + 1
        invariant forall p :: p in nodes <==> p in was || (OnWay(p, path) && |p| < i)
        invariant forall p :: p in nodes ==> nodes[p] == if p in was then was[p] else Directory
      {
        assert forall p :: OnWay(p, path) && |p| == i ==> p == path[..i];
        assert OnWay(path[..i], path);
        if path[..i] !in nodes {
          nodes := nodes[path[..i] := Directory];
        }
      }
      assert nodes == WithDirs(was, path);
      return true;
    }

    method UnzipFile(e: Entry, destination: string) returns (ok: bool)
      modifies this
      ensures Outcome(nodes, ok) == Extracted(old(nodes), destination, e)
    {
      var filePath := Clean(destination + "/" + e.name);
      if !HasPrefix(filePath, Clean(destination) + "/") {
        return false;
      }
      var path := ElementsOf(filePath);
      if IsDir(e) {
        ok := MkdirAll(path);
        return;
      }
      var made := MkdirAll(if path == [] then [] else path[..|path| - 1]);
      if !made || (path in nodes && nodes[path].Directory?) {
        return false;
      }
      nodes := nodes[path := Regular(e.content)];
      return true;
    }

    method Unzip(entries: seq<Entry>, destination: string) returns (ok: bool)
      modifies this
      ensures Outcome(nodes, ok) == Unzipped(old(nodes), destination, entries)
    {
      ghost var o := Unzipped(nodes, destination, entries);
      assert entries[0..] == entries;
      for i := 0 to |entries|
        invariant o == Unzipped(nodes, destination, entries[i..])
      {
        assert entries[i..][1..] == entries[i + 1..];
        var done := UnzipFile(entries[i], destination);
        if !done {
          return false;
        }
      }
      return true;
    }
  }

  // ----- the check of paths ------------------------------------------------------------------

  /** Where an entry name leads from a destination. */
  function Target(destination: seq<string>, name: string): seq<string> {
    Resolve(true, destination, Split(name, '/'))
  }

  /**
   * The textual check lets an entry pass if and only if its path is strictly below a destination that
   * is not the root.
   */
  lemma CheckIff(fs: Fs, destination: seq<string>, e: Entry)
    requires AllProper(destination)
    ensures Extracted(fs, Show(true, destination), e) ==
      if destination != [] && destination < Target(destination, e.name)
      then Put(fs, Target(destination, e.name), NodeOf(e)) else Outcome(fs, false)
  {
    var target := Target(destination, e.name);
    JoinResolves(destination, e.name);
    JoinSplit(e.name, '/');
    ResolveRooted(destination, Split(e.name, '/'));
    ElementsShow(target);
    ElementsShow(destination);
    BelowIff(destination, target);
  }

  /** Outside the destination nothing changes but that directories on the way to it may be new. */
  ghost predicate Confined(fs: Fs, after: Fs, destination: seq<string>) {
    && (forall p :: p in fs && !(destination < p) ==> p in after && after[p] == fs[p])
    && (forall p :: p in after && p !in fs && !(destination < p) ==> OnWay(p, destination) && after[p] == Directory)
    && (forall p :: p in fs ==> p in after && (after[p].Directory? <==> fs[p].Directory?))
  }

  lemma PutConfined(fs: Fs, path: seq<string>, node: Node, destination: seq<string>)
    requires destination < path
    ensures Confined(fs, Put(fs, path, node).fs, destination)
  {
    var after := Put(fs, path, node).fs;
    forall p | OnWay(p, path) ensures OnWay(p, destination) || destination < p {
      assert p == path[..|p|] && destination == path[..|destination|];
      if |p| <= |destination| {
        assert p == destination[..|p|];
      } else {
        assert destination == p[..|destination|];
      }
    }
  }

  /**
   * Whatever is in the archive, and however far extraction gets: outside the destination no file
   * changes and nothing appears but missing directories on the way to it, and no file becomes a
   * directory or the reverse.
   */
  lemma {:induction false} Confinement(fs: Fs, destination: seq<string>, entries: seq<Entry>)
    requires AllProper(destination)
    ensures Confined(fs, Unzipped(fs, Show(true, destination), entries).fs, destination)
    decreases |entries|
  {
    if entries != [] {
      CheckIff(fs, destination, entries[0]);
      var target := Target(destination, entries[0].name);
      if destination < target {
        PutConfined(fs, target, NodeOf(entries[0]), destination);
      }
      Confinement(Extracted(fs, Show(true, destination), entries[0]).fs, destination, entries[1..]);
    }
  }

  /** What extraction makes of an entry: a directory if its mode or a final slash says so, and otherwise a file. */
  lemma EntryIsMade(fs: Fs, destination: seq<string>, e: Entry)
    requires AllProper(destination) && Extracted(fs, Show(true, destination), e).ok
    ensures var (target, after) := (Target(destination, e.name), Extracted(fs, Show(true, destination), e).fs);
      OnDisk(after, target) == Some(
        if e.dirMode || (e.name != "" && e.name[|e.name| - 1] == '/') then Directory else Regular(e.content))
  {
    CheckIff(fs, destination, e);
    assert OnWay(Target(destination, e.name), Target(destination, e.name));
  }

  lemma SplitClimbing(up: string, name: string)
    requires '/' !in up && '/' !in name
    ensures Split(up + "/" + name, '/') == [up, name]
  {
    SplitAppend(up, name, '/');
    assert up + ['/'] + name == up + "/" + name;
    IndexOfAbsent(up, '/');
    IndexOfAbsent(name, '/');
  }

  lemma UpAndIn(destination: seq<string>, name: string)
    requires AllProper(destination) && Proper(name) && destination != []
    ensures !(destination < Resolve(true, destination, ["..", name]))
  {
    var up := Enter(true, destination, "..");
    assert [".."] + [name] == ["..", name] && [".."][1..] == [];
    ResolveAppend(true, destination, [".."], [name]);
    assert Resolve(true, destination, [".."]) == up;
    ResolveProper(true, up, [name]);
    assert |up| + 1 == |destination|;
  }

  lemma ClimbingLeadsOut(destination: seq<string>, name: string)
    requires AllProper(destination) && Proper(name) && destination != []
    ensures !(destination < Target(destination, ".." + "/" + name))
  {
    SplitClimbing("..", name);
    UpAndIn(destination, name);
  }

  /** An entry that climbs out of the destination is refused, and nothing is made. */
  lemma ClimbingIsRefused(fs: Fs, destination: seq<string>, name: string, e: Entry)
    requires AllProper(destination) && Proper(name) && e.name == ".." + "/" + name
    ensures Extracted(fs, Show(true, destination), e) == Outcome(fs, false)
  {
    CheckIff(fs, destination, e);
    if destination != [] {
      ClimbingLeadsOut(destination, name);
    }
  }

  // ----- where the entries of an archive lead ------------------------------------------------

  /** filepath.Base gives a name that can be entered: not ".", ".." or the root. */
  predicate HasProperBase(source: Path) {
    source.names != [] && Proper(source.names[|source.names| - 1])
  }

  function Base(source: Path): string
    requires HasProperBase(source)
  {
    source.names[|source.names| - 1]
  }

  lemma {:induction false} JoinEnd(names: seq<string>)
    requires AllProper(names) && names != []
    ensures var s := Join(names, '/'); s != "" && s[|s| - 1] != '/'
  {
    if |names| > 1 {
      JoinMore(names, '/');
      JoinEnd(names[1..]);
    }
  }

  lemma NameLeads(destination: seq<string>, names: seq<string>)
    requires AllProper(names) && names != []
    ensures Target(destination, Join(names, '/')) == destination + names
    ensures Target(destination, Join(names, '/') + "/") == destination + names
  {
    ProperIsFree(names);
    SplitJoin(names, '/');
    ResolveProper(true, destination, names);
    SplitAppend(Join(names, '/'), "", '/');
    assert Join(names, '/') + ['/'] + "" == Join(names, '/') + "/";
    assert Split("", '/') == [""];
    ResolveAppend(true, destination, names, [""]);
    ResolveEmpty(true, destination + names, [""]);
  }

  lemma EntryCalledIs(name: string, node: Node)
    requires name != "" && name[|name| - 1] != '/'
    ensures NodeOf(EntryCalled(name, node)) == node
  {
  }

  lemma Regroup(a: seq<string>, name: string, b: seq<string>)
    ensures a + ([name] + b) == a + [name] + b
  {
  }

  /** Every entry leads to its own place below the destination, and is a directory if what was found is one. */
  lemma EntryLeads(source: Path, found: Found, destination: seq<string>)
    requires HasProperBase(source) && AllProper(found.path)
    ensures EntryFor(source, found).Some?
    ensures var e := EntryFor(source, found).value;
      Target(destination, e.name) == destination + [Base(source)] + found.path && NodeOf(e) == found.node
  {
    var names := [Base(source)] + found.path;
    RelToParent(source, found.path);
    JoinEnd(names);
    EntryCalledIs(Join(names, '/'), found.node);
    NameLeads(destination, names);
    Regroup(destination, Base(source), found.path);
  }

  lemma DotLeads(destination: seq<string>, name: string)
    requires name == "." || name == ".."
    ensures !(destination < Target(destination, name))
  {
    assert Free([name], '/');
    SplitJoin([name], '/');
    assert Resolve(true, destination, [name]) == Enter(true, destination, name);
  }

  lemma DotSlashLeads(destination: seq<string>, name: string)
    requires name == "." || name == ".."
    ensures !(destination < Target(destination, name + "/"))
  {
    DotLeads(destination, name);
    SplitAppend(name, "", '/');
    assert Split("", '/') == [""];
    assert name + ['/'] + "" == name + "/";
    ResolveAppend(true, destination, Split(name, '/'), [""]);
    ResolveEmpty(true, Target(destination, name), [""]);
  }

  /** A source called ".", ".." or the root: already its first entry leads out of the destination. */
  lemma ImproperLeadsOut(source: Path, node: Node, destination: seq<string>)
    requires IsClean(source) && !HasProperBase(source)
    ensures EntryFor(source, Found([], node)).Some?
    ensures !(destination < Target(destination, EntryFor(source, Found([], node)).value.name))
  {
    RelToParent(source, []);
    var name := if source.names == [] then "." else "..";
    if source.names != [] {
      assert [source.names[|source.names| - 1]] + [] == [name];
      assert Join([name], '/') == name;
    }
    DotLeads(destination, name);
    DotSlashLeads(destination, name);
  }

  lemma {:induction false} WalkProper(at: seq<string>, t: Tree)
    requires AllProper(at) && ProperTree(t)
    ensures forall i :: 0 <= i < |Walk(at, t)| ==> AllProper(Walk(at, t)[i].path)
    decreases t
  {
    if t.Branch? {
      WalkInProper(at, t.children);
    }
  }

  lemma {:induction false} WalkInProper(at: seq<string>, f: Forest)
    requires AllProper(at) && ProperForest(f)
    ensures forall i :: 0 <= i < |WalkIn(at, f)| ==> AllProper(WalkIn(at, f)[i].path)
    decreases f
  {
    if f.Child? {
      WalkProper(at + [f.name], f.tree);
      WalkInProper(at, f.rest);
    }
  }

  /** Put things one after the other, up to the first that fails. */
  ghost function PutAll(fs: Fs, at: seq<string>, found: seq<Found>): Outcome
    decreases |found|
  {
    if found == [] then Outcome(fs, true)
    else
      var first := Put(fs, at + found[0].path, found[0].node);
      if first.ok then PutAll(first.fs, at, found[1..]) else first
  }

  /** Extracting puts everything where it was found, below the destination. */
  lemma {:induction false} UnzippedPuts(
    fs: Fs, source: Path, found: seq<Found>, entries: seq<Entry>, destination: seq<string>)
    requires HasProperBase(source) && AllProper(destination) && destination != []
    requires Lists(source, found, entries) && forall i :: 0 <= i < |found| ==> AllProper(found[i].path)
    ensures Unzipped(fs, Show(true, destination), entries) == PutAll(fs, destination + [Base(source)], found)
    decreases |found|
  {
    if found != [] {
      EntryLeads(source, found[0], destination);
      CheckIff(fs, destination, entries[0]);
      var first := Put(fs, destination + [Base(source)] + found[0].path, found[0].node);
      assert destination < destination + [Base(source)] + found[0].path;
      assert Lists(source, found[1..], entries[1..]);
      UnzippedPuts(first.fs, source, found[1..], entries[1..], destination);
    }
  }

  // ----- putting a tree ----------------------------------------------------------------------

  lemma {:induction false} PutAllAppend(fs: Fs, at: seq<string>, a: seq<Found>, b: seq<Found>)
    ensures PutAll(fs, at, a + b) ==
      var o := PutAll(fs, at, a); if o.ok then PutAll(o.fs, at, b) else o
    decreases |a|
  {
    if a == [] {
      assert a + b == b;
    } else {
      assert (a + b)[1..] == a[1..] + b;
      PutAllAppend(Put(fs, at + a[0].path, a[0].node).fs, at, a[1..], b);
    }
  }

  /** What is there already is of the same kind. */
  ghost predicate Compatible(fs: Fs, placed: Fs) {
    forall p :: p in placed && p in fs ==> (placed[p].Directory? <==> fs[p].Directory?)
  }

  /** All directories on the way to path are there. */
  ghost predicate DirsTo(fs: Fs, path: seq<string>) {
    forall p :: OnWay(p, path) ==> p in fs && fs[p] == Directory
  }

  lemma {:induction false} PlacedBelow(at: seq<string>, t: Tree)
    ensures forall p :: p in Placed(at, t) ==> at <= p
    decreases t
  {
    if t.Branch? {
      PlacedInBelow(at, t.children);
    }
  }

  lemma {:induction false} PlacedInBelow(at: seq<string>, f: Forest)
    ensures forall p :: p in PlacedIn(at, f) ==> at < p && HasName(f, p[|at|])
    decreases f
  {
    if f.Child? {
      PlacedBelow(at + [f.name], f.tree);
      PlacedInBelow(at, f.rest);
      forall p | at + [f.name] <= p ensures at < p && p[|at|] == f.name {
        assert (at + [f.name])[..|at|] == at;
        assert p[|at|] == (at + [f.name])[|at|];
      }
    }
  }

  /** The outcome of putting placed on the disk: all of it, or a clash. */
  ghost predicate Lands(o: Outcome, fs: Fs, placed: Fs) {
    (o.ok <==> Compatible(fs, placed)) && (o.ok ==> o.fs == fs + placed)
  }

  lemma PutOne(fs: Fs, path: seq<string>, node: Node)
    requires path != [] && DirsTo(fs, path[..|path| - 1])
    ensures Lands(Put(fs, path, node), fs, map[path := node])
  {
    var parent := path[..|path| - 1];
    forall p | OnWay(p, path) ensures OnWay(p, parent) || p == path {
      assert p == path[..|p|];
    }
    assert OnWay(path, path);
    assert WithDirs(fs, parent) == fs;
    if node.Directory? && Compatible(fs, map[path := node]) {
      assert WithDirs(fs, path) == fs + map[path := node];
    }
  }

  /** Two disjoint lots, one after the other. */
  lemma LandsBoth(fs: Fs, first: Fs, second: Fs, o1: Outcome, o2: Outcome)
    requires Lands(o1, fs, first) && (o1.ok ==> Lands(o2, o1.fs, second))
    requires first.Keys !! second.Keys
    ensures Lands(if o1.ok then o2 else o1, fs, first + second)
  {
    if o1.ok {
      assert Compatible(o1.fs, second) <==> Compatible(fs, second);
      assert Compatible(fs, first + second) <==> Compatible(fs, second);
      assert fs + first + second == fs + (first + second);
    } else {
      var p :| p in first && p in fs && !(first[p].Directory? <==> fs[p].Directory?);
      assert p in first + second && (first + second)[p] == first[p];
    }
  }

  lemma DirsAt(fs: Fs, x: seq<string>)
    requires x != [] && DirsTo(fs, x[..|x| - 1])
    ensures DirsTo(fs + map[x := Directory], x)
  {
    forall p | OnWay(p, x) ensures p == x || OnWay(p, x[..|x| - 1]) {
      assert p == x[..|p|];
    }
  }

  lemma {:induction false} PutTree(fs: Fs, at: seq<string>, r: seq<string>, t: Tree)
    requires ProperTree(t) && at + r != [] && DirsTo(fs, (at + r)[..|at + r| - 1])
    ensures Lands(PutAll(fs, at, Walk(r, t)), fs, Placed(at + r, t))
    decreases t
  {
    var x := at + r;
    PutOne(fs, x, Top(t));
    var o := Put(fs, x, Top(t));
    assert PutAll(fs, at, [Found(r, Top(t))]) == o;
    if t.Branch? {
      PutAllAppend(fs, at, [Found(r, Directory)], WalkIn(r, t.children));
      if o.ok {
        DirsAt(fs, x);
        PutForest(o.fs, at, r, t.children);
      }
      PlacedInBelow(x, t.children);
      LandsBoth(fs, map[x := Directory], PlacedIn(x, t.children), o, PutAll(o.fs, at, WalkIn(r, t.children)));
    }
  }

  lemma {:induction false} PutForest(fs: Fs, at: seq<string>, r: seq<string>, f: Forest)
    requires ProperForest(f) && DirsTo(fs, at + r)
    ensures Lands(PutAll(fs, at, WalkIn(r, f)), fs, PlacedIn(at + r, f))
    decreases f
  {
    if f.Child? {
      var x := at + r;
      var y := x + [f.name];
      assert at + (r + [f.name]) == y && y[..|y| - 1] == x;
      var first := Walk(r + [f.name], f.tree);
      PutTree(fs, at, r + [f.name], f.tree);
      PutAllAppend(fs, at, first, WalkIn(r, f.rest));
      var o := PutAll(fs, at, first);
      PlacedBelow(y, f.tree);
      PlacedInBelow(x, f.rest);
      if o.ok {
        assert DirsTo(o.fs, x);
        PutForest(o.fs, at, r, f.rest);
      }
      assert forall p :: p in Placed(y, f.tree) ==> p[|x|] == f.name;
      LandsBoth(fs, Placed(y, f.tree), PlacedIn(x, f.rest), o, PutAll(o.fs, at, WalkIn(r, f.rest)));
    } else {
      assert fs + map[] == fs;
    }
  }

  // ----- zip, then unzip ---------------------------------------------------------------------

  /** The first of the entries makes the destination; the others find it. */
  lemma PutThrough(fs: Fs, path: seq<string>, node: Node)
    requires path != []
    ensures var parent := path[..|path| - 1];
      var (o, u) := (Put(fs, path, node), Put(WithDirs(fs, parent), path, node));
      (o.ok <==> NoFileOn(fs, parent) && u.ok) && (o.ok ==> o.fs == u.fs)
  {
    var parent := path[..|path| - 1];
    var fs' := WithDirs(fs, parent);
    forall p ensures OnWay(p, path) <==> OnWay(p, parent) || p == path {
      if OnWay(p, path) {
        assert p == path[..|p|];
      }
    }
    assert WithDirs(fs', parent) == fs';
    if NoFileOn(fs, parent) {
      assert NoFileOn(fs', parent);
      if node.Directory? {
        assert NoFileOn(fs, path) <==> NoFileOn(fs', path);
        assert WithDirs(fs, path) == WithDirs(fs', path);
      }
    } else {
      var p :| p in fs && OnWay(p, parent) && fs[p] != Directory;
      assert OnWay(p, path);
    }
  }

  /** A whole tree put at a path, the directories on the way to it included. */
  lemma PutTreeThrough(fs: Fs, at: seq<string>, t: Tree)
    requires ProperTree(t) && at != []
    ensures var parent := at[..|at| - 1];
      var o := PutAll(fs, at, Walk([], t));
      && (o.ok <==> NoFileOn(fs, parent) && Compatible(fs, Placed(at, t)))
      && (o.ok ==> o.fs == WithDirs(fs, parent) + Placed(at, t))
  {
    var parent := at[..|at| - 1];
    var found, fs' := Walk([], t), WithDirs(fs, parent);
    assert at + [] == at && found[0] == Found([], Top(t));
    PutThrough(fs, at, Top(t));
    if NoFileOn(fs, parent) {
      assert DirsTo(fs', parent);
      PutTree(fs', at, [], t);
      PlacedBelow(at, t);
      assert Compatible(fs', Placed(at, t)) <==> Compatible(fs, Placed(at, t));
    }
  }

  /**
   * The round trip, for every tree, every clean source and destination and every disk: extraction
   * succeeds if and only if the source is not called ".", ".." or the root, the destination is not the
   * root, no file is on the way to it and what is already at the tree's place is of the same kind; and
   * then the disk is as before with the tree put over it at destination/base.
   */
  lemma ZipUnzip(source: Path, t: Tree, entries: seq<Entry>, destination: seq<string>, fs: Fs)
    requires IsClean(source) && ProperTree(t) && AllProper(destination) && Lists(source, Walk([], t), entries)
    ensures var o := Unzipped(fs, Show(true, destination), entries);
      && (o.ok <==> HasProperBase(source) && destination != [] && NoFileOn(fs, destination)
                    && Compatible(fs, Placed(destination + [Base(source)], t)))
      && (o.ok ==> o.fs == WithDirs(fs, destination) + Placed(destination + [Base(source)], t))
  {
    var found := Walk([], t);
    assert found[0] == Found([], Top(t));
    if !HasProperBase(source) {
      ImproperLeadsOut(source, Top(t), destination);
      CheckIff(fs, destination, entries[0]);
    } else if destination == [] {
      CheckIff(fs, destination, entries[0]);
    } else {
      WalkProper([], t);
      UnzippedPuts(fs, source, found, entries, destination);
      var at := destination + [Base(source)];
      assert at[..|at| - 1] == destination;
      PutTreeThrough(fs, at, t);
    }
  }

  /** What a placed tree occupies can be looked up in the tree. */
  lemma {:induction false} PlacedIs(at: seq<string>, t: Tree, names: seq<string>)
    requires ProperTree(t)
    ensures OnDisk(Placed(at, t), at + names) == Lookup(t, names)
    decreases t
  {
    if names == [] {
      assert at + names == at;
      if t.Branch? { PlacedInBelow(at, t.children); }
    } else if t.Branch? {
      PlacedInIs(at, t.children, names);
      assert at + names != at;
    } else {
      assert at + names != at;
    }
  }

  lemma {:induction false} PlacedInIs(at: seq<string>, f: Forest, names: seq<string>)
    requires ProperForest(f) && names != []
    ensures OnDisk(PlacedIn(at, f), at + names) == LookupIn(f, names)
    decreases f
  {
    if f.Child? {
      var p, y := at + names, at + [f.name];
      PlacedInBelow(at, f.rest);
      PlacedBelow(y, f.tree);
      assert p[|at|] == names[0];
      if f.name == names[0] {
        assert y + names[1..] == p;
        PlacedIs(y, f.tree, names[1..]);
      } else {
        PlacedInIs(at, f.rest, names);
        assert y[|at|] == f.name;
        assert !(y <= p);
      }
    }
  }

  lemma HoldsAfter(fs: Fs, at: seq<string>, t: Tree)
    requires ProperTree(t) && forall p :: p in fs ==> !(at <= p)
    ensures Holds(fs + Placed(at, t), at, t)
  {
    forall names ensures OnDisk(fs + Placed(at, t), at + names) == Lookup(t, names) {
      PlacedIs(at, t, names);
      assert at <= at + names;
    }
  }

  /**
   * Where nothing was before, exactly the tree is rebuilt, and nothing else changes but that
   * directories missing on the way to the destination are made.
   */
  lemma RebuildsExactly(source: Path, t: Tree, entries: seq<Entry>, destination: seq<string>, fs: Fs)
    requires IsClean(source) && ProperTree(t) && AllProper(destination) && Lists(source, Walk([], t), entries)
    requires HasProperBase(source) && destination != [] && NoFileOn(fs, destination)
    requires forall p :: p in fs ==> !(destination + [Base(source)] <= p)
    ensures var (o, at) := (Unzipped(fs, Show(true, destination), entries), destination + [Base(source)]);
      && o.ok && Holds(o.fs, at, t)
      && forall p :: !(at <= p) ==> OnDisk(o.fs, p) == OnDisk(WithDirs(fs, destination), p)
    ensures var o := Unzipped(fs, Show(true, destination), entries);
      forall p :: p in fs ==> OnDisk(o.fs, p) == OnDisk(fs, p)
  {
    var at := destination + [Base(source)];
    PlacedBelow(at, t);
    ZipUnzip(source, t, entries, destination, fs);
    var o := Unzipped(fs, Show(true, destination), entries);
    HoldsAfter(WithDirs(fs, destination), at, t);
  }
}
