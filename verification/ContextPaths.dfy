/** The managed paths of a runtime, and why a processing run's context always agrees with them. */
module ContextPaths {
  import opened Wrappers
  import opened SessionModel
  import Discovery

  // ---- Paths, as far as `join`, `parent` and `==` go ----

  /** A path by its components; empty and `.` components do not count. */
  datatype Path = Path(absolute: bool, parts: seq<string>)

  function SlashAt(text: string): (n: nat)
    ensures n <= |text| && (n < |text| ==> text[n] == '/')
  {
    if text == "" || text[0] == '/' then 0 else 1 + SlashAt(text[1..])
  }

  function Parts(text: string): seq<string>
    decreases |text|
  {
    var n := SlashAt(text);
    var first := if n == 0 || text[..n] == "." then [] else [text[..n]];
    if n == |text| then first else first + Parts(text[n + 1..])
  }

  /** An absolute text replaces the path it is joined to. */
  function Join(base: Path, text: string): Path {
    if text != "" && text[0] == '/' then Path(true, Parts(text)) else Path(base.absolute, base.parts + Parts(text))
  }

  function Parent(path: Path): Option<Path> {
    if path.parts == [] then None else Some(path.(parts := path.parts[..|path.parts| - 1]))
  }

  // ---- The runtime's paths ----

  datatype RuntimePaths = RuntimePaths(project: Path, protocol: Path, operation: Path, session: Path,
                                       raw: Path, processed: Path, state: Option<Path>)

  datatype ContextError =
    | RelativeProjectRoot
    | PathTraversal(field: string)
    | OperationRootDisagreement
    | PathMismatch(field: string)
    | SessionDirectoryDisagreement
    | SourceStateDirectoryDisagreement

  predicate Traverses(path: Path) {
    ".." in path.parts
  }

  function OperationDirectory(operation: Operation): string {
    match operation
    case Acquisition => "get-raw-data"
    case Processing => "process-data"
  }

  /** `RuntimeContextPaths::new` */
  function Validate(p: RuntimePaths, operation: Operation, session: Identity): Result<RuntimePaths, ContextError> {
    if !p.project.absolute then Err(RelativeProjectRoot)
    else if Traverses(p.protocol) then Err(PathTraversal("protocol_root"))
    else if Traverses(p.operation) then Err(PathTraversal("operation_root"))
    else if Traverses(p.session) then Err(PathTraversal("session_directory"))
    else if Traverses(p.raw) then Err(PathTraversal("raw_data_directory"))
    else if Traverses(p.processed) then Err(PathTraversal("processed_data_directory"))
    else if p.state.Some? && Traverses(p.state.value) then Err(PathTraversal("source_state_directory"))
    else if p.operation != Join(p.protocol, OperationDirectory(operation)) then Err(OperationRootDisagreement)
    else if p.raw != Join(p.protocol, "data/raw") then Err(PathMismatch("raw_data_directory"))
    else if p.processed != Join(p.protocol, "data/processed") then Err(PathMismatch("processed_data_directory"))
    else if p.session != Join(Join(p.operation, "sessions"), session) then Err(SessionDirectoryDisagreement)
    else if p.state != (if operation == Acquisition then Some(Join(p.operation, "state")) else None) then
      Err(SourceStateDirectoryDisagreement)
    else Ok(p)
  }

  // ---- The processing run's database and context ----

  datatype PathError = ProcessedRootDisagreement | ManagedPath | DatabaseNameDisagreement | Sidecar

  /** What inspecting the file system comes to. */
  datatype Inspection = Inspection(protocol: bool, processed: bool, database: bool, sidecars: bool)

  function DatabasePath(processed: Path, runtime: Runtime): Path {
    Join(processed, runtime.source + ".sqlite3")
  }

  /** `derive_processing_database_path` */
  function DeriveDatabasePath(protocol: Path, processed: Path, runtime: Runtime, found: Inspection)
    : Result<Path, PathError>
  {
    if processed != Join(Join(protocol, "data"), "processed") then Err(ProcessedRootDisagreement)
    else if !found.protocol || !found.processed then Err(ManagedPath)
    else
      var database := DatabasePath(processed, runtime);
      if Parent(database) != Some(processed) then Err(DatabaseNameDisagreement)
      else if !found.database then Err(ManagedPath)
      else if !found.sidecars then Err(Sidecar)
      else Ok(database)
  }

  datatype Category = OperationRoot | RawDataDirectory | ProcessedDataDirectory | SessionDirectory | DatabaseFile

  datatype ConstructionError =
    | RuntimeOperationMismatch
    | ManagedPathDisagreement(category: Category)
    | CatalogProjectMismatch(index: nat)
    | CatalogSourceMismatch(index: nat)

  function RequireExactPath(category: Category, expected: Path, actual: Path): Result<(), ConstructionError> {
    if actual != expected then Err(ManagedPathDisagreement(category)) else Ok(())
  }

  /** `validate_catalog_agreement`: the first entry that belongs to another project or source. */
  method ValidateCatalog(catalog: seq<Discovery.Found>, project: Identity, runtime: Runtime)
    returns (r: Result<(), ConstructionError>)
    ensures r.Ok? <==> CatalogAgrees(catalog, project, runtime)
    ensures r.Err? ==> && (r.error.CatalogProjectMismatch? || r.error.CatalogSourceMismatch?)
                       && r.error.index < |catalog| && CatalogAgrees(catalog[..r.error.index], project, runtime)
                       && (r.error.CatalogProjectMismatch? <==> catalog[r.error.index].project != project)
                       && (r.error.CatalogSourceMismatch?
                           ==> catalog[r.error.index].acquisition.source != runtime.source)
  {
    var index := 0;
    while index < |catalog|
      invariant 0 <= index <= |catalog|
      invariant CatalogAgrees(catalog[..index], project, runtime)
    {
      if catalog[index].project != project {
        return Err(CatalogProjectMismatch(index));
      }
      if catalog[index].acquisition.source != runtime.source {
        return Err(CatalogSourceMismatch(index));
      }
      index := index + 1;
    }
    return Ok(());
  }

  predicate CatalogAgrees(catalog: seq<Discovery.Found>, project: Identity, runtime: Runtime) {
    forall i :: 0 <= i < |catalog| ==> catalog[i].project == project && catalog[i].acquisition.source == runtime.source
  }

  /** The checks of `ProcessingContext::new` before it looks at the catalog. */
  function CheckPaths(p: RuntimePaths, runtime: Runtime, session: Identity, database: Path)
    : Result<(), ConstructionError>
  {
    if runtime.operation != Processing then Err(RuntimeOperationMismatch)
    else
      var _ :- RequireExactPath(OperationRoot, Join(p.protocol, "process-data"), p.operation);
      var _ :- RequireExactPath(RawDataDirectory, Join(Join(p.protocol, "data"), "raw"), p.raw);
      var _ :- RequireExactPath(ProcessedDataDirectory, Join(Join(p.protocol, "data"), "processed"), p.processed);
      var _ :- RequireExactPath(SessionDirectory, Join(Join(p.operation, "sessions"), session), p.session);
      RequireExactPath(DatabaseFile, DatabasePath(p.processed, runtime), database)
  }

  lemma {:induction false} SlashAtIs(text: string, n: nat)
    requires n <= |text| && (n < |text| ==> text[n] == '/') && forall i :: 0 <= i < n ==> text[i] != '/'
    ensures SlashAt(text) == n
    decreases n
  {
    if n > 0 {
      SlashAtIs(text[1..], n - 1);
    }
  }

  /** Joining two names with a slash between them is joining one after the other. */
  lemma JoinTwice(base: Path, first: string, second: string)
    requires '/' !in first && first != "" && second != "" && second[0] != '/'
    ensures Join(base, first + "/" + second) == Join(Join(base, first), second)
  {
    var both := first + "/" + second;
    SlashAtIs(both, |first|);
    SlashAtIs(first, |first|);
    assert both[..|first|] == first && both[|first| + 1..] == second && first[..|first|] == first;
    assert both[0] == first[0];
    assert base.parts + (Parts(first) + Parts(second)) == (base.parts + Parts(first)) + Parts(second);
  }

  /**
   * Building the context cannot fail in a processing run: paths that were accepted for the run, the
   * database path that was derived from them, and a catalog that was discovered for its project and
   * source pass every check.
   */
  lemma ContextAlwaysAgrees(p: RuntimePaths, runtime: Runtime, session: Identity, found: Inspection,
                            asker: Discovery.Asker, entries: seq<Discovery.Entry>, catalog: seq<Discovery.Found>)
    requires Validate(p, Processing, session).Ok? && runtime.operation == Processing
    requires DeriveDatabasePath(p.protocol, p.processed, runtime, found).Ok?
    requires asker.runtime == runtime && Discovery.IsCatalog(asker, entries, catalog)
    ensures CheckPaths(p, runtime, session, DeriveDatabasePath(p.protocol, p.processed, runtime, found).value) == Ok(())
    ensures CatalogAgrees(catalog, asker.project, runtime)
  {
    hide Join, Traverses;
    var raw, processed := "raw", "processed";
    assert "data/raw" == "data" + "/" + raw && "data/processed" == "data" + "/" + processed;
    JoinTwice(p.protocol, "data", raw);
    JoinTwice(p.protocol, "data", processed);
    forall i | 0 <= i < |catalog|
      ensures catalog[i].project == asker.project && catalog[i].acquisition.source == runtime.source
    {
      assert Discovery.Proven(asker, catalog[i]);
    }
  }

  /** A name without a slash is one component. */
  lemma NameIsOnePart(name: string)
    requires '/' !in name && name != "" && name != "."
    ensures Parts(name) == [name]
  {
    SlashAtIs(name, |name|);
    assert name[..|name|] == name;
  }

  /** The one layout that a protocol root, an operation and a session allow. */
  function Layout(project: Path, protocol: Path, operation: Operation, session: Identity): RuntimePaths {
    var root := Below(protocol, [OperationDirectory(operation)]);
    RuntimePaths(project, protocol, root, Below(root, ["sessions", session]), Below(protocol, ["data", "raw"]),
                 Below(protocol, ["data", "processed"]),
                 if operation == Acquisition then Some(Below(root, ["state"])) else None)
  }

  function Below(base: Path, names: seq<string>): Path {
    base.(parts := base.parts + names)
  }

  lemma JoinName(base: Path, name: string)
    requires '/' !in name && name != "" && name != "."
    ensures Join(base, name) == Below(base, [name])
  {
    NameIsOnePart(name);
  }

  lemma JoinNames(base: Path, first: string, second: string)
    requires '/' !in first && first != "" && first != "." && '/' !in second && second != "" && second != "."
    ensures Join(Join(base, first), second) == Below(base, [first, second])
    ensures Join(base, first + "/" + second) == Below(base, [first, second])
  {
    JoinTwice(base, first, second);
    JoinName(base, first);
    JoinName(Join(base, first), second);
    assert (base.parts + [first]) + [second] == base.parts + [first, second];
  }

  /**
   * The accepted paths are exactly the layout below a protocol root without `..`, for an absolute
   * project root: the protocol root, the operation and the session determine all the others.
   */
  lemma AcceptedExactly(p: RuntimePaths, operation: Operation, session: Identity)
    ensures Validate(p, operation, session).Ok?
            <==> && p == Layout(p.project, p.protocol, operation, session)
                 && p.project.absolute && !Traverses(p.protocol)
  {
    hide Join, Parts;
    var root := Below(p.protocol, [OperationDirectory(operation)]);
    assert "data/raw" == "data" + "/" + "raw" && "data/processed" == "data" + "/" + "processed";
    JoinName(p.protocol, OperationDirectory(operation));
    JoinNames(p.protocol, "data", "raw");
    JoinNames(p.protocol, "data", "processed");
    JoinNames(root, "sessions", session);
    JoinName(root, "state");
    assert session != ".." && OperationDirectory(operation) != "..";
    assert "data" != ".." && "raw" != ".." && "processed" != ".." && "sessions" != ".." && "state" != "..";
  }

  /** The position after the last slash. */
  function LastSlash(text: string): (n: nat)
    ensures n <= |text| && (n > 0 ==> text[n - 1] == '/')
    ensures forall i :: n <= i < |text| ==> text[i] != '/'
  {
    if text == "" || text[|text| - 1] == '/' then |text| else LastSlash(text[..|text| - 1])
  }

  lemma Associative<T>(a: seq<T>, b: seq<T>, c: seq<T>)
    ensures (a + b) + c == a + (b + c)
  {
  }

  function FirstPart(text: string): seq<string> {
    if text == "" || text == "." then [] else [text]
  }

  lemma PartsStep(first: string, rest: string)
    requires '/' !in first
    ensures Parts(first + "/" + rest) == FirstPart(first) + Parts(rest)
  {
    var text := first + "/" + rest;
    SlashAtIs(text, |first|);
    assert text[..|first|] == first && text[|first| + 1..] == rest;
  }

  lemma {:induction false} PartsSplit(directory: string, name: string)
    requires directory == "" || directory[|directory| - 1] == '/'
    ensures Parts(directory + name) == Parts(directory) + Parts(name)
    decreases |directory|
  {
    hide Parts, FirstPart, SlashAt;
    if directory == "" {
      assert directory + name == name;
      NoParts();
    } else {
      var n := SlashAt(directory);
      SlashAtFirst(directory);
      var first, rest := directory[..n], directory[n + 1..];
      assert directory == first + "/" + rest;
      assert directory + name == first + "/" + (rest + name);
      PartsStep(first, rest);
      PartsStep(first, rest + name);
      PartsSplit(rest, name);
      Associative(FirstPart(first), Parts(rest), Parts(name));
    }
  }

  lemma NoParts()
    ensures Parts("") == []
  {
  }

  lemma {:induction false} SlashAtFirst(text: string)
    ensures forall i :: 0 <= i < SlashAt(text) ==> text[i] != '/'
    ensures '/' in text ==> SlashAt(text) < |text|
    decreases |text|
  {
    if text != "" && text[0] != '/' {
      SlashAtFirst(text[1..]);
    }
  }

  /**
   * A run derives its database exactly when the file system allows it and the source name keeps it in
   * place: nothing but empty and `.` components before the last slash, or the processed-data directory
   * itself if the name is absolute. The database is then the last component of the name.
   */
  lemma DatabaseAccepted(p: RuntimePaths, runtime: Runtime, session: Identity, found: Inspection)
    requires Validate(p, Processing, session).Ok?
    ensures var n := LastSlash(runtime.source);
            var directory := Parts(runtime.source[..n]);
            var derived := DeriveDatabasePath(p.protocol, p.processed, runtime, found);
            && (derived.Ok?
                <==> && found == Inspection(true, true, true, true)
                     && if runtime.source != "" && runtime.source[0] == '/'
                        then p.processed == Path(true, directory)
                        else directory == [])
            && (derived.Ok?
                ==> derived.value == Below(p.protocol, ["data", "processed", runtime.source[n..] + ".sqlite3"]))
  {
    hide Join, Parts, Validate;
    var n := LastSlash(runtime.source);
    var file := runtime.source[n..] + ".sqlite3";
    AcceptedExactly(p, Processing, session);
    JoinNames(p.protocol, "data", "processed");
    DatabaseParts(p.processed, runtime);
    var database := DatabasePath(p.processed, runtime);
    var directory := Parts(runtime.source[..n]);
    assert p.processed.parts + directory == p.processed.parts <==> directory == [] by {
      assert |p.processed.parts + directory| == |p.processed.parts| + |directory|;
    }
    assert p.processed.parts + [file] == p.protocol.parts + ["data", "processed", file];
  }

  /** The directory that the file name of a source is joined into. */
  function DatabaseDirectory(processed: Path, source: string): Path {
    var directory := Parts(source[..LastSlash(source)]);
    if source != "" && source[0] == '/' then Path(true, directory)
    else Path(processed.absolute, processed.parts + directory)
  }

  lemma DatabaseParts(processed: Path, runtime: Runtime)
    ensures var file := runtime.source[LastSlash(runtime.source)..] + ".sqlite3";
            var database := DatabasePath(processed, runtime);
            && database == Below(DatabaseDirectory(processed, runtime.source), [file])
            && Parent(database) == Some(DatabaseDirectory(processed, runtime.source))
  {
    hide Join, Parts, Parent, Below;
    var n := LastSlash(runtime.source);
    var suffix := ".sqlite3";
    SplitName(runtime.source, n, suffix);
    JoinSplit(processed, runtime.source[..n], runtime.source[n..] + suffix);
  }

  lemma SplitName(source: string, n: nat, suffix: string)
    requires n <= |source| && suffix != "" && (n == 0 ==> '/' !in source) && suffix[0] != '/'
    ensures source + suffix == source[..n] + (source[n..] + suffix)
    ensures (source + suffix)[0] == '/' <==> source != "" && source[0] == '/'
  {
  }

  lemma JoinSplit(base: Path, directory: string, name: string)
    requires directory == "" || directory[|directory| - 1] == '/'
    requires '/' !in name && |name| > 1
    ensures var joined := Join(base, directory + name);
            var parent := if (directory + name)[0] == '/' then Path(true, Parts(directory))
                          else Path(base.absolute, base.parts + Parts(directory));
            joined == Below(parent, [name]) && Parent(joined) == Some(parent)
  {
    hide Parts, SlashAt;
    PartsSplit(directory, name);
    NameIsOnePart(name);
    Associative(base.parts, Parts(directory), [name]);
    DropLast(Parts(directory), name);
    DropLast(base.parts + Parts(directory), name);
  }

  lemma DropLast<T>(xs: seq<T>, x: T)
    ensures (xs + [x])[..|xs + [x]| - 1] == xs
  {
  }

  /** The database that a run derives lies directly in its processed-data directory. */
  lemma DatabaseIsInPlace(p: RuntimePaths, runtime: Runtime, session: Identity, found: Inspection)
    requires Validate(p, Processing, session).Ok?
    requires DeriveDatabasePath(p.protocol, p.processed, runtime, found).Ok?
    ensures var database := DeriveDatabasePath(p.protocol, p.processed, runtime, found).value;
            && database.absolute == p.processed.absolute
            && |database.parts| == |p.processed.parts| + 1 && p.processed.parts <= database.parts
            && p.protocol.parts <= p.processed.parts
  {
    hide Join, Parts, Traverses, DatabasePath;
    assert "data/processed"[0] == 'd';
    JoinExtends(p.protocol, "data/processed");
  }

  lemma JoinExtends(base: Path, text: string)
    requires text != "" && text[0] != '/'
    ensures base.parts <= Join(base, text).parts && Join(base, text).absolute == base.absolute
  {
  }
}
