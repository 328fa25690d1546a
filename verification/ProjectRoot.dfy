/** The search for the root of a project, and for a project nested inside it. */
module ProjectRoot {
  import opened Wrappers
  import opened Ordering

  /** A directory tree. Directories may be unreadable; symbolic links may lead to a regular file. */
  datatype Node =
    | File
    | Symlink(toFile: bool)
    | Other
    | Dir(readable: bool, entries: seq<Entry>)

  datatype Entry = Entry(name: string, node: Node)

  type Path = seq<string>

  /** The names in a directory are distinct. */
  predicate WellFormed(node: Node) {
    node.Dir? ==> && (forall i, j :: 0 <= i < j < |node.entries| ==> node.entries[i].name != node.entries[j].name)
                  && (forall i :: 0 <= i < |node.entries| ==> WellFormed(node.entries[i].node))
  }

  /** `lexicon.toml` is a file, or a link to one. */
  predicate Marked(node: Node) {
    node.Dir? && exists i :: 0 <= i < |node.entries| && node.entries[i].name == "lexicon.toml"
                             && (node.entries[i].node.File? || node.entries[i].node == Symlink(true))
  }

  /** `should_prune_descendant_directory`, for a directory by its name and its parent's name. */
  predicate Pruned(name: string, parent: string) {
    || name == ".git" || name == "target" || name == "artifacts" || name == "bundles" || name == "mza"
    || ((name == "raw" || name == "processed") && parent == "data")
  }

  // ---- What the search is for ----

  /** The directory below `node`, which is called `name`, that `path` leads to. */
  function Descend(name: string, node: Node, path: Path): (r: Option<Node>)
    ensures r.Some? ==> r.value.Dir? && node.Dir?
    decreases |path|
  {
    if path == [] then (if node.Dir? then Some(node) else None)
    else if !node.Dir? || !node.readable || Pruned(path[0], name) then None
    else
      var child := Child(node, path[0]);
      if child.None? then None else Descend(path[0], child.value, path[1..])
  }

  function Child(node: Node, name: string): Option<Node>
    requires node.Dir?
  {
    Lookup(node.entries, name)
  }

  function Lookup(entries: seq<Entry>, name: string): Option<Node> {
    if entries == [] then None
    else if entries[0].name == name then Some(entries[0].node)
    else Lookup(entries[1..], name)
  }

  lemma {:induction false} LookupFinds(entries: seq<Entry>, i: nat)
    requires forall i, j :: 0 <= i < j < |entries| ==> entries[i].name != entries[j].name
    requires i < |entries|
    ensures Lookup(entries, entries[i].name) == Some(entries[i].node)
    decreases i
  {
    if i > 0 {
      LookupFinds(entries[1..], i - 1);
    }
  }

  lemma {:induction false} LookupMeans(entries: seq<Entry>, name: string)
    ensures Lookup(entries, name).Some?
            ==> exists i :: && 0 <= i < |entries| && entries[i].name == name
                            && entries[i].node == Lookup(entries, name).value
    decreases |entries|
  {
    if entries != [] && entries[0].name != name {
      LookupMeans(entries[1..], name);
      if Lookup(entries, name).Some? {
        var rest := entries[1..];
        var i :| 0 <= i < |rest| && rest[i].name == name && rest[i].node == Lookup(rest, name).value;
        assert entries[i + 1].name == name;
      }
    } else if entries != [] {
      assert entries[0].node == Lookup(entries, name).value;
    }
  }

  /** A nested project, reachable through directories that are neither links nor pruned. */
  predicate Nested(name: string, node: Node, path: Path) {
    path != [] && Descend(name, node, path).Some? && Marked(Descend(name, node, path).value)
  }

  /** A reachable directory that cannot be read. */
  predicate Unreadable(name: string, node: Node, path: Path) {
    Descend(name, node, path).Some? && !Descend(name, node, path).value.readable
  }

  /** The search has to stop here. */
  predicate Stop(name: string, node: Node, path: Path) {
    Nested(name, node, path) || Unreadable(name, node, path)
  }

  /** Component by component; a directory comes before what is in it. */
  predicate PathLess(a: Path, b: Path) {
    b != [] && (a == [] || StringLess(a[0], b[0]) || (a[0] == b[0] && PathLess(a[1..], b[1..])))
  }

  ghost predicate FirstStop(name: string, node: Node, path: Path) {
    Stop(name, node, path) && forall other :: Stop(name, node, other) ==> other == path || PathLess(path, other)
  }

  // ---- The search ----

  predicate NameLeq(a: Entry, b: Entry) {
    !StringLess(b.name, a.name)
  }

  lemma NameLeqIsTotal()
    ensures TotalOrder(NameLeq)
  {
    forall a: Entry, b: Entry ensures NameLeq(a, b) || NameLeq(b, a) {
      StringLessTotal(a.name, b.name);
    }
    forall a: Entry, b: Entry, c: Entry | NameLeq(a, b) && NameLeq(b, c) ensures NameLeq(a, c) {
      StringLessTotal(a.name, b.name);
      StringLessTotal(b.name, c.name);
      if StringLess(c.name, a.name) && StringLess(a.name, b.name) {
        StringLessTransitive(c.name, a.name, b.name);
      }
    }
  }

  /** Sorting puts the entries in strictly ascending order and loses none. */
  lemma SortedEntries(entries: seq<Entry>)
    requires forall i, j :: 0 <= i < j < |entries| ==> entries[i].name != entries[j].name
    ensures var sorted := Sort(NameLeq, entries);
            && (forall i, j :: 0 <= i < j < |sorted| ==> StringLess(sorted[i].name, sorted[j].name))
            && (forall e :: e in sorted <==> e in entries)
  {
    var sorted := Sort(NameLeq, entries);
    NameLeqIsTotal();
    SortSorts(NameLeq, entries);
    SortContents(NameLeq, entries);
    forall e ensures e in sorted <==> e in entries {
      assert (e in sorted <==> e in multiset(sorted)) && (e in entries <==> e in multiset(entries));
    }
    NamesDistinct(entries);
    CollectPermutes(NameOf, entries, sorted);
    NoRepeatsCounts(Collect(NameOf, entries));
    NoRepeatsCounts(Collect(NameOf, sorted));
    NamesDistinct(sorted);
    forall i, j | 0 <= i < j < |sorted| ensures StringLess(sorted[i].name, sorted[j].name) {
      assert NameLeq(sorted[i], sorted[j]);
      assert Collect(NameOf, sorted)[i] != Collect(NameOf, sorted)[j];
      StringLessTotal(sorted[i].name, sorted[j].name);
    }
  }

  function NameOf(e: Entry): seq<string> {
    [e.name]
  }

  lemma {:induction false} NamesDistinct(entries: seq<Entry>)
    ensures |Collect(NameOf, entries)| == |entries|
    ensures forall i :: 0 <= i < |entries| ==> Collect(NameOf, entries)[i] == entries[i].name
    decreases |entries|
  {
    if entries != [] {
      NamesDistinct(entries[1..]);
    }
  }

  /** A stop below a directory is a stop below one of its entries, which is an unpruned directory. */
  lemma StopBelow(name: string, node: Node, path: Path)
    requires WellFormed(node) && Stop(name, node, path) && path != []
    ensures node.Dir? && node.readable && !Pruned(path[0], name)
    ensures exists i :: 0 <= i < |node.entries| && node.entries[i].name == path[0] && node.entries[i].node.Dir?
    ensures Child(node, path[0]).Some?
    ensures (path[1..] == [] && Marked(Child(node, path[0]).value))
            || Stop(path[0], Child(node, path[0]).value, path[1..])
  {
    LookupMeans(node.entries, path[0]);
  }

  /** The other way round, for an entry that is an unpruned directory. */
  lemma StopAbove(name: string, node: Node, i: nat, rest: Path)
    requires WellFormed(node) && node.Dir? && node.readable && i < |node.entries|
    requires node.entries[i].node.Dir? && !Pruned(node.entries[i].name, name)
    requires (rest == [] && Marked(node.entries[i].node)) || Stop(node.entries[i].name, node.entries[i].node, rest)
    ensures Stop(name, node, [node.entries[i].name] + rest)
    ensures Nested(name, node, [node.entries[i].name] + rest)
            <==> (rest == [] && Marked(node.entries[i].node))
                 || Nested(node.entries[i].name, node.entries[i].node, rest)
  {
    LookupFinds(node.entries, i);
    assert ([node.entries[i].name] + rest)[1..] == rest;
  }

  /** The sorted entries of a directory. */
  ghost predicate InOrder(node: Node, entries: seq<Entry>)
    requires node.Dir?
  {
    && (forall i, j :: 0 <= i < j < |entries| ==> StringLess(entries[i].name, entries[j].name))
    && (forall e :: e in entries <==> e in node.entries)
  }

  /** The first stop below the first entry that has one is the first stop of the directory. */
  lemma FirstHere(name: string, node: Node, entries: seq<Entry>, i: nat, rest: Path)
    requires WellFormed(node) && node.Dir? && node.readable && InOrder(node, entries) && i < |entries|
    requires forall j :: 0 <= j < i ==> Clear(name, node, entries[j].name)
    requires Stop(name, node, [entries[i].name] + rest)
    requires forall other :: Stop(name, node, [entries[i].name] + other) ==> other == rest || PathLess(rest, other)
    ensures FirstStop(name, node, [entries[i].name] + rest)
  {
    hide WellFormed, Stop, StringLess, Clear;
    var first := [entries[i].name] + rest;
    assert first[1..] == rest;
    forall other | Stop(name, node, other) ensures other == first || PathLess(first, other) {
      NoStopHere(name, node);
      StopHasEntry(name, node, entries, other);
      var j :| 0 <= j < |entries| && entries[j].name == other[0];
      assert other == [other[0]] + other[1..];
      NotClear(name, node, other);
    }
  }

  lemma NoStopHere(name: string, node: Node)
    requires node.Dir? && node.readable
    ensures !Stop(name, node, [])
  {
  }

  /** Nothing stops the search below the entries with this name. */
  ghost predicate Clear(name: string, node: Node, entry: string) {
    forall path :: path != [] && path[0] == entry ==> !Stop(name, node, path)
  }

  lemma NotClear(name: string, node: Node, path: Path)
    requires path != [] && Stop(name, node, path)
    ensures !Clear(name, node, path[0])
  {
  }

  lemma ClearIfSkipped(name: string, node: Node, i: nat)
    requires WellFormed(node) && node.Dir? && i < |node.entries|
    requires !node.entries[i].node.Dir? || Pruned(node.entries[i].name, name)
    ensures Clear(name, node, node.entries[i].name)
  {
    LookupFinds(node.entries, i);
    forall path | path != [] && path[0] == node.entries[i].name ensures !Stop(name, node, path) {
      if Stop(name, node, path) {
        StopBelow(name, node, path);
      }
    }
  }

  lemma ClearIfNothingBelow(name: string, node: Node, i: nat)
    requires WellFormed(node) && node.Dir? && i < |node.entries| && !Marked(node.entries[i].node)
    requires forall path :: !Stop(node.entries[i].name, node.entries[i].node, path)
    ensures Clear(name, node, node.entries[i].name)
  {
    LookupFinds(node.entries, i);
    forall path | path != [] && path[0] == node.entries[i].name ensures !Stop(name, node, path) {
      if Stop(name, node, path) {
        StopBelow(name, node, path);
      }
    }
  }

  /** A marked entry after clear ones is the first stop. */
  lemma FirstIfMarked(name: string, node: Node, entries: seq<Entry>, i: nat, k: nat)
    requires WellFormed(node) && node.Dir? && node.readable && InOrder(node, entries)
    requires i < |entries| && k < |node.entries| && node.entries[k] == entries[i]
    requires forall j :: 0 <= j < i ==> Clear(name, node, entries[j].name)
    requires entries[i].node.Dir? && !Pruned(entries[i].name, name) && Marked(entries[i].node)
    ensures Nested(name, node, [entries[i].name]) && FirstStop(name, node, [entries[i].name])
  {
    StopAbove(name, node, k, []);
    assert [entries[i].name] + [] == [entries[i].name];
    FirstHere(name, node, entries, i, []);
  }

  /** So is the first stop below an unmarked entry after clear ones. */
  lemma FirstIfBelow(name: string, node: Node, entries: seq<Entry>, i: nat, k: nat, rest: Path)
    requires WellFormed(node) && node.Dir? && node.readable && InOrder(node, entries)
    requires i < |entries| && k < |node.entries| && node.entries[k] == entries[i]
    requires forall j :: 0 <= j < i ==> Clear(name, node, entries[j].name)
    requires entries[i].node.Dir? && !Pruned(entries[i].name, name) && !Marked(entries[i].node)
    requires FirstStop(entries[i].name, entries[i].node, rest)
    ensures FirstStop(name, node, [entries[i].name] + rest)
    ensures Nested(name, node, [entries[i].name] + rest) <==> Nested(entries[i].name, entries[i].node, rest)
  {
    LookupFinds(node.entries, k);
    StopAbove(name, node, k, rest);
    forall other | Stop(name, node, [entries[i].name] + other) ensures other == rest || PathLess(rest, other) {
      StopBelow(name, node, [entries[i].name] + other);
      assert ([entries[i].name] + other)[1..] == other;
    }
    FirstHere(name, node, entries, i, rest);
  }

  lemma NoStopIfAllClear(name: string, node: Node, entries: seq<Entry>)
    requires WellFormed(node) && node.Dir? && node.readable && InOrder(node, entries)
    requires forall j :: 0 <= j < |entries| ==> Clear(name, node, entries[j].name)
    ensures forall path :: !Stop(name, node, path)
  {
    NoStopHere(name, node);
    forall path ensures !Stop(name, node, path) {
      if path != [] && Stop(name, node, path) {
        StopHasEntry(name, node, entries, path);
      }
    }
  }

  lemma StopHasEntry(name: string, node: Node, entries: seq<Entry>, path: Path)
    requires WellFormed(node) && Stop(name, node, path) && path != []
    requires node.Dir? && InOrder(node, entries)
    ensures exists j :: 0 <= j < |entries| && entries[j].name == path[0]
  {
    StopBelow(name, node, path);
    var k :| 0 <= k < |node.entries| && node.entries[k].name == path[0] && node.entries[k].node.Dir?;
    assert node.entries[k] in entries;
  }

  lemma ChildWellFormed(node: Node, i: nat)
    requires WellFormed(node) && node.Dir? && i < |node.entries|
    ensures WellFormed(node.entries[i].node)
  {
  }

  lemma UnreadableStops(name: string, node: Node)
    requires node.Dir? && !node.readable
    ensures Stop(name, node, []) && FirstStop(name, node, []) && !Nested(name, node, [])
  {
  }

  /** `visit_descendants`, for the directory at `current`, which is not itself looked at for its marker. */
  method VisitDescendants(current: Path, name: string, node: Node) returns (r: Result<Option<Path>, Path>)
    requires node.Dir? && WellFormed(node)
    ensures r == Ok(None) <==> forall path :: !Stop(name, node, path)
    ensures r.Ok? && r.value.Some?
            ==> && |current| <= |r.value.value| && r.value.value[..|current|] == current
                && var path := r.value.value[|current|..];
                Nested(name, node, path) && FirstStop(name, node, path)
    ensures r.Err? ==> && |current| <= |r.error| && r.error[..|current|] == current
                       && var path := r.error[|current|..];
                       !Nested(name, node, path) && FirstStop(name, node, path)
    decreases node
  {
    hide Nested, Unreadable, Clear, WellFormed, PathLess, Sort, NameLeq;
    if !node.readable {
      UnreadableStops(name, node);
      assert current[|current|..] == [];
      return Err(current);
    }
    var entries := Sort(NameLeq, node.entries);
    EntriesInOrder(node);
    var i := 0;
    while i < |entries|
      invariant 0 <= i <= |entries|
      invariant forall j :: 0 <= j < i ==> Clear(name, node, entries[j].name)
    {
      var entry := entries[i];
      assert entry in node.entries;
      ghost var k :| 0 <= k < |node.entries| && node.entries[k] == entry;
      if entry.node.Symlink? {
        ClearIfSkipped(name, node, k);
        i := i + 1;
        continue;
      }
      if Pruned(entry.name, name) {
        ClearIfSkipped(name, node, k);
        i := i + 1;
        continue;
      }
      if entry.node.Dir? {
        var path := current + [entry.name];
        if Marked(entry.node) {
          FirstIfMarked(name, node, entries, i, k);
          assert path[|current|..] == [entry.name];
          return Ok(Some(path));
        }
        ChildWellFormed(node, k);
        assert node.entries[k].node < node;
        var below := VisitDescendants(path, entry.name, entry.node);
        if below.Err? || below.value.Some? {
          ghost var found := if below.Err? then below.error else below.value.value;
          ghost var rest := found[|path|..];
          assert found == path + rest;
          assert found[|current|..] == [entry.name] + rest;
          FirstIfBelow(name, node, entries, i, k, rest);
          return below;
        }
        ClearIfNothingBelow(name, node, k);
      } else {
        ClearIfSkipped(name, node, k);
      }
      i := i + 1;
    }
    NoStopIfAllClear(name, node, entries);
    return Ok(None);
  }

  lemma EntriesInOrder(node: Node)
    requires node.Dir? && WellFormed(node)
    ensures InOrder(node, Sort(NameLeq, node.entries))
  {
    SortedEntries(node.entries);
  }

  // ---- The root of the project ----

  /** What is at every absolute path. */
  type FileSystem = Path -> Node

  datatype DiscoveryError =
    | ProjectNotFound
    | NestedProjectConflict(outer: Path, nested: Path)
    | CurrentDirectoryMetadata(path: Path)

  /** `file_name`: the file system's root has none. */
  function FileName(path: Path): string {
    if path == [] then "" else path[|path| - 1]
  }

  /** The ancestor that keeps `k` components is marked. */
  predicate MarkedAt(fs: FileSystem, start: Path, k: int) {
    0 <= k <= |start| && Marked(fs(start[..k]))
  }

  /** The path is the only marked one among `start` and its ancestors. */
  ghost predicate OnlyRoot(fs: FileSystem, start: Path, root: Path) {
    && |root| <= |start| && root == start[..|root|] && MarkedAt(fs, start, |root|)
    && forall k :: MarkedAt(fs, start, k) ==> k == |root|
  }

  lemma MarkedIsDirectory(node: Node)
    requires Marked(node)
    ensures node.Dir?
  {
  }

  lemma StopMeans(name: string, node: Node, path: Path)
    requires FirstStop(name, node, path)
    ensures Stop(name, node, path)
    ensures Nested(name, node, path) ==> path != []
    ensures !Nested(name, node, path) ==> Unreadable(name, node, path)
  {
  }

  /** The loop that walks up: every marked ancestor, innermost first. */
  method Ancestors(fs: FileSystem, start: Path) returns (ancestors: seq<Path>)
    ensures forall i :: 0 <= i < |ancestors| ==> |ancestors[i]| <= |start| && ancestors[i] == start[..|ancestors[i]|]
                                                 && MarkedAt(fs, start, |ancestors[i]|)
    ensures forall i, j :: 0 <= i < j < |ancestors| ==> |ancestors[j]| < |ancestors[i]|
    ensures forall k :: MarkedAt(fs, start, k) ==> start[..k] in ancestors
  {
    hide Marked;
    ancestors := [];
    var current := start;
    assert start[..|start|] == start;
    while true
      invariant |current| <= |start| && current == start[..|current|]
      invariant forall i :: 0 <= i < |ancestors| ==> |current| < |ancestors[i]| <= |start|
                                                     && ancestors[i] == start[..|ancestors[i]|]
                                                     && MarkedAt(fs, start, |ancestors[i]|)
      invariant forall i, j :: 0 <= i < j < |ancestors| ==> |ancestors[j]| < |ancestors[i]|
      invariant forall k :: |current| < k && MarkedAt(fs, start, k) ==> start[..k] in ancestors
      decreases |current|
    {
      if Marked(fs(current)) {
        ancestors := ancestors + [current];
      }
      if current == [] {
        break;
      }
      current := current[..|current| - 1];
    }
  }

  /** `find_project_root` */
  method FindProjectRoot(fs: FileSystem, start: Path) returns (r: Result<Path, DiscoveryError>)
    requires forall path :: WellFormed(fs(path))
    ensures r == Err(ProjectNotFound) <==> forall k :: !MarkedAt(fs, start, k)
    // Success, exactly: one marked ancestor, and nothing stops the search below it.
    ensures r.Ok? ==> OnlyRoot(fs, start, r.value) && forall path :: !Stop(FileName(r.value), fs(r.value), path)
    ensures r.Err? ==> forall root :: OnlyRoot(fs, start, root) ==> exists path :: Stop(FileName(root), fs(root), path)
    // A conflict names the outermost and the innermost marked ancestor, or the only one and the least
    // nested project below it.
    ensures r.Err? && r.error.NestedProjectConflict?
            ==> && var outer, nested := r.error.outer, r.error.nested;
                && |outer| <= |start| && outer == start[..|outer|] && MarkedAt(fs, start, |outer|)
                && (forall k :: MarkedAt(fs, start, k) ==> |outer| <= k)
                && |outer| < |nested|
                && if OnlyRoot(fs, start, outer)
                   then && nested[..|outer|] == outer && Nested(FileName(outer), fs(outer), nested[|outer|..])
                        && FirstStop(FileName(outer), fs(outer), nested[|outer|..])
                   else && |nested| <= |start| && nested == start[..|nested|] && MarkedAt(fs, start, |nested|)
                        && forall k :: MarkedAt(fs, start, k) ==> k <= |nested|
    ensures r.Err? && r.error.CurrentDirectoryMetadata?
            ==> exists root :: && OnlyRoot(fs, start, root) && |root| <= |r.error.path|
                               && r.error.path[..|root|] == root
                               && Unreadable(FileName(root), fs(root), r.error.path[|root|..])
  {
    hide Marked, Descend, Nested, Unreadable, WellFormed, FirstStop;
    var ancestors := Ancestors(fs, start);
    if |ancestors| == 0 {
      return Err(ProjectNotFound);
    }
    if |ancestors| > 1 {
      return Err(NestedProjectConflict(ancestors[|ancestors| - 1], ancestors[0]));
    }
    var root := ancestors[0];
    assert OnlyRoot(fs, start, root);
    assert forall other :: OnlyRoot(fs, start, other) ==> other == root;
    MarkedIsDirectory(fs(root));
    var found := VisitDescendants(root, FileName(root), fs(root));
    if found.Err? {
      StopMeans(FileName(root), fs(root), found.error[|root|..]);
      return Err(CurrentDirectoryMetadata(found.error));
    }
    if found.value.Some? {
      StopMeans(FileName(root), fs(root), found.value.value[|root|..]);
      return Err(NestedProjectConflict(root, found.value.value));
    }
    return Ok(root);
  }
}
