/**
 * Discovery of the raw transactions that a processing run may read. The raw directory is given as the
 * entries that the file system lists, in whatever order it lists them; what admission from disk makes of
 * a candidate, and what the acquisition store holds, are parameters that stay fixed during a discovery.
 */
module Discovery {
  import opened Wrappers
  import opened Ordering
  import opened SessionModel
  import opened SessionStore

  datatype FileKind = Unreadable | Symlink | File | Directory | Other

  datatype NameClass = RecognizedPartial | MalformedPartial | FinalizedCandidate | Unrecognized | InvalidName

  datatype Transaction = Transaction(id: string, session: Identity, created: Timestamp, completed: Timestamp)

  datatype Entry =
    | Unlistable
    | Entry(name: string, kind: FileKind, nameClass: NameClass, admission: Result<Transaction, string>)

  datatype ProvenanceError =
    | ProjectMismatch(session: Identity)
    | RuntimeOperationMismatch(session: Identity)
    | RuntimeSourceMismatch(session: Identity)
    | SessionNotExecutable(session: Identity, state: State)
    | MissingStartedAt(session: Identity)
    | SessionIdentityMismatch(session: Identity)
    | TimestampOutOfBounds(session: Identity, id: string)

  datatype DiscoveryError =
    | WrongOperation
    | ManagedPath
    | RawRootDisagreement
    | RawRootEnumeration
    | RawEntryMetadata
    | RawEntrySymlink(name: string)
    | RawEntryUnexpectedFile(name: string)
    | RawEntryUnsupportedType(name: string)
    | RawEntryNameInvalid(name: string)
    | RawEntryMalformedPartial(name: string)
    | RawEntryUnrecognized(name: string)
    | TransactionAdmission(name: string, source: string)
    | AcquisitionRootInvalid
    | AcquisitionSessionLoad(session: Identity, store: StoreError)
    | Provenance(provenance: ProvenanceError)
    | DuplicateIdentity(id: string)

  /** A catalog entry: a transaction with the provenance that its session record proves. */
  datatype Found = Found(project: Identity, acquisition: Runtime, session: Identity, state: State,
                         transaction: Transaction)

  /** The processing run that asks, and what the acquisition store answers to a load. */
  datatype Asker = Asker(project: Identity, runtime: Runtime, load: Identity -> Result<Record, StoreError>)

  /** What validating the managed paths comes to. */
  datatype Roots = Roots(protocol: bool, rawAgrees: bool, raw: bool, listable: bool, acquisition: bool)

  // ---- Enumeration ----

  /** What one entry contributes: a transaction, nothing, or a reason to stop. */
  function Inspect(entry: Entry): Result<Option<Transaction>, DiscoveryError> {
    if entry.Unlistable? then Err(RawRootEnumeration)
    else
      match (entry.kind, entry.nameClass)
      case (Unreadable, _) => Err(RawEntryMetadata)
      case (Symlink, _) => Err(RawEntrySymlink(entry.name))
      case (File, _) => Err(RawEntryUnexpectedFile(entry.name))
      case (Other, _) => Err(RawEntryUnsupportedType(entry.name))
      case (Directory, RecognizedPartial) => Ok(None)
      case (Directory, MalformedPartial) => Err(RawEntryMalformedPartial(entry.name))
      case (Directory, Unrecognized) => Err(RawEntryUnrecognized(entry.name))
      case (Directory, InvalidName) => Err(RawEntryNameInvalid(entry.name))
      case (Directory, FinalizedCandidate) =>
        match entry.admission
        case Ok(transaction) => Ok(Some(transaction))
        case Err(source) => Err(TransactionAdmission(entry.name, source))
  }

  function Enumerate(entries: seq<Entry>): Result<seq<Transaction>, DiscoveryError> {
    if entries == [] then Ok([])
    else
      var first :- Inspect(entries[0]);
      var rest :- Enumerate(entries[1..]);
      Ok(if first.Some? then [first.value] + rest else rest)
  }

  lemma {:induction false} EnumerateSnoc(entries: seq<Entry>, entry: Entry)
    ensures Enumerate(entries + [entry])
            == match Enumerate(entries)
               case Err(e) => Err(e)
               case Ok(found) =>
                 match Inspect(entry)
                 case Err(e) => Err(e)
                 case Ok(None) => Ok(found)
                 case Ok(Some(t)) => Ok(found + [t])
    decreases |entries|
  {
    hide Inspect;
    if entries == [] {
      assert (entries + [entry])[1..] == [];
      assert entries + [entry] == [entry];
      if Inspect(entry).Ok? && Inspect(entry).value.Some? {
        assert [Inspect(entry).value.value] + [] == [] + [Inspect(entry).value.value];
      }
    } else {
      assert (entries + [entry])[1..] == entries[1..] + [entry];
      EnumerateSnoc(entries[1..], entry);
      var first, last := Inspect(entries[0]), Inspect(entry);
      if first.Ok? && first.value.Some? && Enumerate(entries[1..]).Ok? && last.Ok? && last.value.Some? {
        var a, rest, b := [first.value.value], Enumerate(entries[1..]).value, [last.value.value];
        assert a + (rest + b) == (a + rest) + b;
      }
    }
  }

  lemma {:induction false} EnumerateStops(entries: seq<Entry>, i: nat)
    requires i <= |entries| && Enumerate(entries[..i]).Err?
    ensures Enumerate(entries) == Err(Enumerate(entries[..i]).error)
    decreases |entries| - i
  {
    hide Inspect, Enumerate;
    if i == |entries| {
      assert entries[..i] == entries;
    } else {
      assert entries[..i + 1] == entries[..i] + [entries[i]];
      EnumerateSnoc(entries[..i], entries[i]);
      EnumerateStops(entries, i + 1);
    }
  }

  /** `enumerate_finalized_transactions`, after the directory has been opened. */
  method EnumerateFinalized(entries: seq<Entry>) returns (r: Result<seq<Transaction>, DiscoveryError>)
    ensures r == Enumerate(entries)
  {
    hide Enumerate;
    var admitted: seq<Transaction> := [];
    var i := 0;
    assert Enumerate(entries[..0]) == Ok([]) by { EnumerateNothing(entries[..0]); }
    while i < |entries|
      invariant 0 <= i <= |entries|
      invariant Enumerate(entries[..i]) == Ok(admitted)
    {
      var entry := entries[i];
      assert entries[..i + 1] == entries[..i] + [entry];
      EnumerateSnoc(entries[..i], entry);
      i := i + 1;
      if Enumerate(entries[..i]).Err? {
        EnumerateStops(entries, i);
      }
      if entry.Unlistable? {
        return Err(RawRootEnumeration);
      }
      if entry.kind.Unreadable? {
        return Err(RawEntryMetadata);
      }
      if entry.kind.Symlink? {
        return Err(RawEntrySymlink(entry.name));
      }
      if entry.kind.File? {
        return Err(RawEntryUnexpectedFile(entry.name));
      }
      if !entry.kind.Directory? {
        return Err(RawEntryUnsupportedType(entry.name));
      }
      match entry.nameClass {
        case RecognizedPartial =>
          continue;
        case MalformedPartial =>
          return Err(RawEntryMalformedPartial(entry.name));
        case FinalizedCandidate =>
          if entry.admission.Err? {
            return Err(TransactionAdmission(entry.name, entry.admission.error));
          }
          admitted := admitted + [entry.admission.value];
        case Unrecognized =>
          return Err(RawEntryUnrecognized(entry.name));
        case InvalidName =>
          return Err(RawEntryNameInvalid(entry.name));
      }
    }
    assert entries[..i] == entries;
    return Ok(admitted);
  }

  lemma EnumerateNothing(entries: seq<Entry>)
    requires entries == []
    ensures Enumerate(entries) == Ok([])
  {
  }

  /** The entry is one that enumeration refuses, for this reason. */
  predicate Refused(entry: Entry, error: DiscoveryError) {
    match error
    case RawRootEnumeration => entry.Unlistable?
    case RawEntryMetadata => entry.Entry? && entry.kind == Unreadable
    case RawEntrySymlink(name) => entry.Entry? && entry.name == name && entry.kind == Symlink
    case RawEntryUnexpectedFile(name) => entry.Entry? && entry.name == name && entry.kind == File
    case RawEntryUnsupportedType(name) => entry.Entry? && entry.name == name && entry.kind == Other
    case RawEntryNameInvalid(name) => IsDirectory(entry, name) && entry.nameClass == InvalidName
    case RawEntryMalformedPartial(name) => IsDirectory(entry, name) && entry.nameClass == MalformedPartial
    case RawEntryUnrecognized(name) => IsDirectory(entry, name) && entry.nameClass == Unrecognized
    case TransactionAdmission(name, source) =>
      IsDirectory(entry, name) && entry.nameClass == FinalizedCandidate && entry.admission == Err(source)
    case _ => false
  }

  predicate IsDirectory(entry: Entry, name: string) {
    entry.Entry? && entry.name == name && entry.kind == Directory
  }

  /** Staging directories and candidates that are admitted. */
  predicate Listed(entry: Entry) {
    && entry.Entry? && entry.kind == Directory
    && (entry.nameClass == RecognizedPartial || (entry.nameClass == FinalizedCandidate && entry.admission.Ok?))
  }

  lemma InspectRefuses(entry: Entry, error: DiscoveryError)
    ensures Inspect(entry) == Err(error) <==> Refused(entry, error)
    ensures Inspect(entry).Ok? <==> Listed(entry)
  {
  }

  /** The first entry that is neither a staging directory nor admitted is refused for this reason. */
  ghost predicate FirstRefused(entries: seq<Entry>, error: DiscoveryError) {
    exists i :: && 0 <= i < |entries| && Refused(entries[i], error)
                && forall j :: 0 <= j < i ==> Listed(entries[j])
  }

  /** An enumeration fails for the reason of the first entry that it cannot take. */
  lemma {:induction false} EnumerateRefuses(entries: seq<Entry>, error: DiscoveryError)
    ensures Enumerate(entries) == Err(error) <==> FirstRefused(entries, error)
    ensures Enumerate(entries).Ok? <==> forall i :: 0 <= i < |entries| ==> Listed(entries[i])
    decreases |entries|
  {
    hide Inspect, Refused, Listed;
    if entries != [] {
      var rest := entries[1..];
      InspectRefuses(entries[0], error);
      EnumerateRefuses(rest, error);
      forall i | 1 <= i < |entries| ensures entries[i] == rest[i - 1] {
      }
      if Enumerate(entries) == Err(error) && Listed(entries[0]) {
        var i :| 0 <= i < |rest| && Refused(rest[i], error) && forall j :: 0 <= j < i ==> Listed(rest[j]);
        assert Refused(entries[i + 1], error);
      }
      if i :| && 0 <= i < |entries| && Refused(entries[i], error)
              && forall j :: 0 <= j < i ==> Listed(entries[j]) {
        if i > 0 {
          assert Listed(entries[0]) && Refused(rest[i - 1], error);
          forall j | 0 <= j < i - 1 ensures Listed(rest[j]) {
            assert Listed(entries[j + 1]);
          }
        }
      }
      if forall i :: 0 <= i < |rest| ==> Listed(rest[i]) {
        assert Listed(entries[0]) ==> forall i :: 0 <= i < |entries| ==> Listed(entries[i]);
      }
      if forall i :: 0 <= i < |entries| ==> Listed(entries[i]) {
        forall i | 0 <= i < |rest| ensures Listed(rest[i]) {
          assert Listed(entries[i + 1]);
        }
      }
    }
  }

  // ---- Provenance ----

  function ValidateSessionRecord(asker: Asker, record: Record): Result<(), ProvenanceError> {
    if record.project != asker.project then Err(ProjectMismatch(record.session))
    else if record.runtime.operation != Acquisition then Err(RuntimeOperationMismatch(record.session))
    else if record.runtime.source != asker.runtime.source then Err(RuntimeSourceMismatch(record.session))
    else if record.state.Prepared? then Err(SessionNotExecutable(record.session, record.state))
    else if record.startedAt.None? then Err(MissingStartedAt(record.session))
    else Ok(())
  }

  function ValidateTransaction(record: Record, t: Transaction): Result<(), ProvenanceError> {
    if record.session != t.session then Err(SessionIdentityMismatch(record.session))
    else if record.startedAt.None? then Err(MissingStartedAt(record.session))
    else if t.completed < t.created || t.created < record.createdAt || t.created < record.startedAt.value then
      Err(TimestampOutOfBounds(record.session, t.id))
    else if record.finishedAt.Some? && t.completed > record.finishedAt.value then
      Err(TimestampOutOfBounds(record.session, t.id))
    else Ok(())
  }

  /** What a catalog entry proves: the transaction was made by that session, while it ran. */
  predicate Proven(asker: Asker, found: Found) {
    var t := found.transaction;
    && asker.load(t.session).Ok?
    && var record := asker.load(t.session).value;
    && found == Found(asker.project, record.runtime, t.session, record.state, t)
    && record.session == t.session && record.project == asker.project
    && record.runtime.operation == Acquisition && record.runtime.source == asker.runtime.source
    && !record.state.Prepared? && record.startedAt.Some?
    && record.createdAt <= t.created && record.startedAt.value <= t.created <= t.completed
    && (record.finishedAt.Some? ==> t.completed <= record.finishedAt.value)
  }

  /** One transaction, checked against a record that is loaded and validated for it alone. */
  function Check(asker: Asker, t: Transaction): Result<Found, DiscoveryError> {
    match asker.load(t.session)
    case Err(e) => Err(AcquisitionSessionLoad(t.session, e))
    case Ok(record) =>
      match ValidateSessionRecord(asker, record)
      case Err(e) => Err(Provenance(e))
      case Ok(_) =>
        match ValidateTransaction(record, t)
        case Err(e) => Err(Provenance(e))
        case Ok(_) => Ok(Found(asker.project, record.runtime, t.session, record.state, t))
  }

  lemma CheckProves(asker: Asker, t: Transaction)
    ensures Check(asker, t).Ok? ==> Proven(asker, Check(asker, t).value) && Check(asker, t).value.transaction == t
    ensures Check(asker, t).Ok? <==> exists found: Found :: Proven(asker, found) && found.transaction == t
  {
    if found: Found :| Proven(asker, found) && found.transaction == t {
      assert Check(asker, t) == Ok(found);
    }
  }

  /** The transaction does not prove its provenance, for this reason: the first that there is. */
  predicate Disproved(asker: Asker, t: Transaction, error: DiscoveryError) {
    var loaded := asker.load(t.session);
    match error
    case AcquisitionSessionLoad(session, e) => session == t.session && loaded == Err(e)
    case Provenance(ProjectMismatch(s)) => loaded.Ok? && s == loaded.value.session && Level(asker, t, loaded.value) == 0
    case Provenance(RuntimeOperationMismatch(s)) =>
      loaded.Ok? && s == loaded.value.session && Level(asker, t, loaded.value) == 1
    case Provenance(RuntimeSourceMismatch(s)) =>
      loaded.Ok? && s == loaded.value.session && Level(asker, t, loaded.value) == 2
    case Provenance(SessionNotExecutable(s, state)) =>
      loaded.Ok? && s == loaded.value.session && state == Prepared && Level(asker, t, loaded.value) == 3
    case Provenance(MissingStartedAt(s)) =>
      loaded.Ok? && s == loaded.value.session && Level(asker, t, loaded.value) == 4
    case Provenance(SessionIdentityMismatch(s)) =>
      loaded.Ok? && s == loaded.value.session && Level(asker, t, loaded.value) == 5
    case Provenance(TimestampOutOfBounds(s, id)) =>
      loaded.Ok? && s == loaded.value.session && id == t.id && Level(asker, t, loaded.value) == 6
    case _ => false
  }

  /** How many of the seven demands on a record and its transaction hold, one after the other. */
  function Level(asker: Asker, t: Transaction, record: Record): nat {
    if record.project != asker.project then 0
    else if record.runtime.operation != Acquisition then 1
    else if record.runtime.source != asker.runtime.source then 2
    else if record.state == Prepared then 3
    else if record.startedAt == None then 4
    else if record.session != t.session then 5
    else if !(&& record.createdAt <= t.created && record.startedAt.value <= t.created <= t.completed
              && (record.finishedAt.Some? ==> t.completed <= record.finishedAt.value)) then 6
    else 7
  }

  lemma CheckDisproves(asker: Asker, t: Transaction, error: DiscoveryError)
    ensures Check(asker, t) == Err(error) <==> Disproved(asker, t, error)
  {
  }

  /** The reference for the loop below: no cache, every record loaded and validated each time. */
  function CheckAll(asker: Asker, ts: seq<Transaction>): Result<seq<Found>, DiscoveryError> {
    if ts == [] then Ok([])
    else
      var before :- CheckAll(asker, ts[..|ts| - 1]);
      var last :- Check(asker, ts[|ts| - 1]);
      Ok(before + [last])
  }

  lemma {:induction false} CheckStops(asker: Asker, ts: seq<Transaction>, i: nat)
    requires i <= |ts| && CheckAll(asker, ts[..i]).Err?
    ensures CheckAll(asker, ts) == Err(CheckAll(asker, ts[..i]).error)
    decreases |ts| - i
  {
    hide Check;
    if i == |ts| {
      assert ts[..i] == ts;
    } else {
      assert ts[..i + 1][..i] == ts[..i];
      CheckStops(asker, ts, i + 1);
    }
  }

  /** The first transaction that does not prove its provenance fails to for this reason. */
  ghost predicate FirstDisproved(asker: Asker, ts: seq<Transaction>, error: DiscoveryError) {
    exists i :: && 0 <= i < |ts| && Disproved(asker, ts[i], error)
                && forall j :: 0 <= j < i ==> Check(asker, ts[j]).Ok?
  }

  lemma {:induction false} CheckAllDisproves(asker: Asker, ts: seq<Transaction>, error: DiscoveryError)
    ensures CheckAll(asker, ts) == Err(error) <==> FirstDisproved(asker, ts, error)
    ensures CheckAll(asker, ts).Ok? <==> forall t :: t in ts ==> Check(asker, t).Ok?
    decreases |ts|
  {
    hide Check, Disproved;
    if ts != [] {
      var n := |ts| - 1;
      var before := ts[..n];
      assert ts == before + [ts[n]];
      CheckDisproves(asker, ts[n], error);
      CheckAllDisproves(asker, before, error);
      if i :| && 0 <= i < n && Disproved(asker, before[i], error)
              && forall j :: 0 <= j < i ==> Check(asker, before[j]).Ok? {
        assert Disproved(asker, ts[i], error);
      }
      if i :| 0 <= i < n && Disproved(asker, ts[i], error) && forall j :: 0 <= j < i ==> Check(asker, ts[j]).Ok? {
        assert Disproved(asker, before[i], error) && forall j :: 0 <= j < i ==> before[j] == ts[j];
      }
    }
  }

  /** The loop of `discover_http_transactions_for_processing`. Its cache is transparent. */
  method CheckCached(asker: Asker, ts: seq<Transaction>) returns (r: Result<seq<Found>, DiscoveryError>)
    ensures r == CheckAll(asker, ts)
  {
    var cache: map<Identity, Record> := map[];
    var discovered: seq<Found> := [];
    var i := 0;
    while i < |ts|
      invariant 0 <= i <= |ts|
      invariant CheckAll(asker, ts[..i]) == Ok(discovered)
      invariant forall s :: s in cache ==> asker.load(s) == Ok(cache[s]) && ValidateSessionRecord(asker, cache[s]).Ok?
    {
      var t := ts[i];
      assert ts[..i + 1][..i] == ts[..i];
      i := i + 1;
      if CheckAll(asker, ts[..i]).Err? {
        CheckStops(asker, ts, i);
      }
      if t.session !in cache {
        var loaded := asker.load(t.session);
        if loaded.Err? {
          return Err(AcquisitionSessionLoad(t.session, loaded.error));
        }
        var valid := ValidateSessionRecord(asker, loaded.value);
        if valid.Err? {
          return Err(Provenance(valid.error));
        }
        cache := cache[t.session := loaded.value];
      }
      // The record is there: it was just put there, or it was there before.
      var record := cache[t.session];
      var valid := ValidateTransaction(record, t);
      if valid.Err? {
        return Err(Provenance(valid.error));
      }
      discovered := discovered + [Found(asker.project, record.runtime, t.session, record.state, t)];
    }
    assert ts[..i] == ts;
    return Ok(discovered);
  }

  // ---- The catalog ----

  /** The order of the catalog: by creation time, then by identity. */
  predicate Precedes(a: Found, b: Found) {
    a.transaction.created < b.transaction.created
    || (a.transaction.created == b.transaction.created && !StringLess(b.transaction.id, a.transaction.id))
  }

  lemma PrecedesIsTotal()
    ensures TotalOrder(Precedes)
  {
    forall a: Found, b: Found ensures Precedes(a, b) || Precedes(b, a) {
      StringLessTotal(a.transaction.id, b.transaction.id);
    }
    forall a: Found, b: Found, c: Found | Precedes(a, b) && Precedes(b, c) ensures Precedes(a, c) {
      var x, y, z := a.transaction.id, b.transaction.id, c.transaction.id;
      if StringLess(z, x) {
        StringLessTotal(x, y);
        StringLessTotal(y, z);
        if StringLess(x, y) {
          StringLessTransitive(z, x, y);
        }
      }
    }
  }

  function Id(found: Found): seq<string> {
    [found.transaction.id]
  }

  function Ids(catalog: seq<Found>): seq<string> {
    Collect(Id, catalog)
  }

  lemma {:induction false} IdsAt(catalog: seq<Found>)
    ensures |Ids(catalog)| == |catalog|
    ensures forall i :: 0 <= i < |catalog| ==> Ids(catalog)[i] == catalog[i].transaction.id
    decreases |catalog|
  {
    if catalog != [] {
      IdsAt(catalog[1..]);
    }
  }

  /** The first identity that has been seen before, if any. */
  method FindDuplicate(catalog: seq<Found>) returns (duplicate: Option<string>)
    ensures duplicate.None? <==> NoRepeats(Ids(catalog))
    ensures duplicate.Some?
            ==> exists i, j :: && 0 <= i < j < |catalog|
                               && catalog[i].transaction.id == catalog[j].transaction.id == duplicate.value
  {
    IdsAt(catalog);
    var seen: set<string> := {};
    var i := 0;
    while i < |catalog|
      invariant 0 <= i <= |catalog|
      invariant forall id :: id in seen <==> exists j :: 0 <= j < i && catalog[j].transaction.id == id
      invariant forall j, k :: 0 <= j < k < i ==> catalog[j].transaction.id != catalog[k].transaction.id
    {
      if catalog[i].transaction.id in seen {
        ghost var j :| 0 <= j < i && catalog[j].transaction.id == catalog[i].transaction.id;
        assert Ids(catalog)[j] == Ids(catalog)[i];
        return Some(catalog[i].transaction.id);
      }
      seen := seen + {catalog[i].transaction.id};
      i := i + 1;
    }
    return None;
  }

  // ---- Success, whatever the order ----

  /** Nothing about this entry stops a discovery. */
  predicate Acceptable(asker: Asker, entry: Entry) {
    Inspect(entry).Ok? && (Inspect(entry).value.Some? ==> Check(asker, Inspect(entry).value.value).Ok?)
  }

  /** Only directories are acceptable: staging directories, and candidates that prove their provenance. */
  lemma AcceptableMeans(asker: Asker, entry: Entry)
    ensures Acceptable(asker, entry)
            <==> && entry.Entry? && entry.kind.Directory?
                 && (|| entry.nameClass.RecognizedPartial?
                     || (&& entry.nameClass.FinalizedCandidate? && entry.admission.Ok?
                         && exists found: Found :: Proven(asker, found) && found.transaction == entry.admission.value))
    ensures Acceptable(asker, entry) ==> (Contribution(asker, entry) == [] <==> entry.nameClass.RecognizedPartial?)
  {
    hide Proven, Check;
    if entry.Entry? && entry.admission.Ok? {
      CheckProves(asker, entry.admission.value);
    }
  }

  /** What an acceptable entry contributes to the catalog. */
  function Contribution(asker: Asker, entry: Entry): seq<Found> {
    if Acceptable(asker, entry) && Inspect(entry).value.Some?
    then [Check(asker, Inspect(entry).value.value).value]
    else []
  }

  function Contributions(asker: Asker, entries: seq<Entry>): seq<Found> {
    Collect(entry => Contribution(asker, entry), entries)
  }

  ghost predicate Admissible(asker: Asker, roots: Roots, entries: seq<Entry>) {
    && asker.runtime.operation == Processing
    && roots.protocol && roots.rawAgrees && roots.raw && roots.listable && roots.acquisition
    && (forall entry :: entry in entries ==> Acceptable(asker, entry))
    && NoRepeats(Ids(Contributions(asker, entries)))
  }

  /** Created earlier, or at the same time with a smaller identity. */
  predicate Earlier(a: Transaction, b: Transaction) {
    a.created < b.created || (a.created == b.created && StringLess(a.id, b.id))
  }

  /** Every finalized candidate exactly once, proven, and strictly increasing by creation time and identity. */
  ghost predicate IsCatalog(asker: Asker, entries: seq<Entry>, catalog: seq<Found>) {
    && multiset(catalog) == multiset(Contributions(asker, entries))
    && (forall found :: found in catalog ==> Proven(asker, found))
    && (forall i, j :: 0 <= i < j < |catalog| ==> Earlier(catalog[i].transaction, catalog[j].transaction))
  }

  lemma {:induction false} CheckedContributions(asker: Asker, entries: seq<Entry>)
    ensures (forall entry :: entry in entries ==> Acceptable(asker, entry))
            <==> Enumerate(entries).Ok? && CheckAll(asker, Enumerate(entries).value).Ok?
    ensures Enumerate(entries).Ok? && CheckAll(asker, Enumerate(entries).value).Ok?
            ==> CheckAll(asker, Enumerate(entries).value).value == Contributions(asker, entries)
    decreases |entries|
  {
    hide Inspect, Check;
    var f := entry => Contribution(asker, entry);
    if entries != [] {
      var n := |entries| - 1;
      var before, last := entries[..n], entries[n];
      assert entries == before + [last];
      CheckedContributions(asker, before);
      EnumerateSnoc(before, last);
      CollectAppend(f, before, [last]);
      assert Collect(f, [last]) == f(last) + Collect(f, [last][1..]);
      if Enumerate(entries).Ok? {
        var ts := Enumerate(before).value;
        if Inspect(last).value.Some? {
          assert (ts + [Inspect(last).value.value])[..|ts|] == ts;
        }
      }
    }
  }

  /** Sorting what the entries contribute makes the catalog, if no identity comes twice. */
  lemma SortedIsCatalog(asker: Asker, entries: seq<Entry>, found: seq<Found>)
    requires found == Contributions(asker, entries)
    ensures NoRepeats(Ids(Sort(Precedes, found))) <==> NoRepeats(Ids(found))
    ensures NoRepeats(Ids(found)) ==> IsCatalog(asker, entries, Sort(Precedes, found))
  {
    hide Proven, Contribution, StringLess;
    var catalog := Sort(Precedes, found);
    PrecedesIsTotal();
    SortContents(Precedes, found);
    SortSorts(Precedes, found);
    IdsPermute(found, catalog);
    if NoRepeats(Ids(found)) {
      IdsAt(catalog);
      forall i, j | 0 <= i < j < |catalog|
        ensures Earlier(catalog[i].transaction, catalog[j].transaction)
      {
        assert Precedes(catalog[i], catalog[j]);
        assert Ids(catalog)[i] != Ids(catalog)[j];
        StrictlyPrecedes(catalog[i], catalog[j]);
      }
      forall f | f in catalog ensures Proven(asker, f) {
        assert f in multiset(catalog) && f in multiset(found);
        ContributionsProven(asker, entries, f);
      }
    }
  }

  lemma IdsPermute(a: seq<Found>, b: seq<Found>)
    requires multiset(a) == multiset(b)
    ensures NoRepeats(Ids(a)) <==> NoRepeats(Ids(b))
  {
    CollectPermutes(Id, a, b);
    NoRepeatsCounts(Ids(a));
    NoRepeatsCounts(Ids(b));
  }

  lemma StrictlyPrecedes(a: Found, b: Found)
    requires Precedes(a, b) && a.transaction.id != b.transaction.id
    ensures Earlier(a.transaction, b.transaction)
  {
    StringLessTotal(a.transaction.id, b.transaction.id);
  }

  lemma {:induction false} ContributionsProven(asker: Asker, entries: seq<Entry>, found: Found)
    requires found in Contributions(asker, entries)
    ensures Proven(asker, found)
    decreases |entries|
  {
    hide Proven, Inspect, Check;
    var f := entry => Contribution(asker, entry);
    if found in Contribution(asker, entries[0]) {
      CheckProves(asker, Inspect(entries[0]).value.value);
    } else {
      assert found in Collect(f, entries[1..]);
      ContributionsProven(asker, entries[1..], found);
    }
  }

  /** `discover_http_transactions_for_processing` */
  method DiscoverTransactions(asker: Asker, roots: Roots, entries: seq<Entry>)
    returns (r: Result<seq<Found>, DiscoveryError>)
    ensures r.Ok? <==> Admissible(asker, roots, entries)
    ensures r.Ok? ==> IsCatalog(asker, entries, r.value)
    // The error is that of the first step that fails.
    ensures asker.runtime.operation != Processing ==> r == Err(WrongOperation)
    ensures asker.runtime.operation == Processing && !roots.protocol ==> r == Err(ManagedPath)
    ensures asker.runtime.operation == Processing && roots.protocol && !roots.rawAgrees
            ==> r == Err(RawRootDisagreement)
    ensures asker.runtime.operation == Processing && roots.protocol && roots.rawAgrees && !roots.raw
            ==> r == Err(ManagedPath)
    ensures asker.runtime.operation == Processing && roots.protocol && roots.rawAgrees && roots.raw && !roots.listable
            ==> r == Err(RawRootEnumeration)
    ensures r.Err? && asker.runtime.operation == Processing
            && roots.(acquisition := true) == Roots(true, true, true, true, true)
            ==> if Enumerate(entries).Err? then FirstRefused(entries, r.error)
                else if !roots.acquisition then r.error == AcquisitionRootInvalid
                else if CheckAll(asker, Enumerate(entries).value).Err? then
                  FirstDisproved(asker, Enumerate(entries).value, r.error)
                else r.error.DuplicateIdentity? && r.error.id in Ids(Contributions(asker, entries))
  {
    hide Inspect, Check, Proven, Contributions, Acceptable, Sort, FirstRefused, FirstDisproved;
    CheckedContributions(asker, entries);
    if asker.runtime.operation != Processing {
      return Err(WrongOperation);
    }
    if !roots.protocol {
      return Err(ManagedPath);
    }
    if !roots.rawAgrees {
      return Err(RawRootDisagreement);
    }
    if !roots.raw {
      return Err(ManagedPath);
    }
    if !roots.listable {
      return Err(RawRootEnumeration);
    }
    if Enumerate(entries).Err? {
      EnumerateRefuses(entries, Enumerate(entries).error);
    }
    var ts :- EnumerateFinalized(entries);
    if CheckAll(asker, ts).Err? {
      CheckAllDisproves(asker, ts, CheckAll(asker, ts).error);
    }
    if !roots.acquisition {
      return Err(AcquisitionRootInvalid);
    }
    var found :- CheckCached(asker, ts);
    SortedIsCatalog(asker, entries, found);
    var discovered := Sort(Precedes, found);
    var duplicate := FindDuplicate(discovered);
    if duplicate.Some? {
      DuplicateIsFound(discovered, found, duplicate.value);
      return Err(DuplicateIdentity(duplicate.value));
    }
    return Ok(discovered);
  }

  lemma DuplicateIsFound(catalog: seq<Found>, found: seq<Found>, id: string)
    requires catalog == Sort(Precedes, found)
    requires exists i :: 0 <= i < |catalog| && catalog[i].transaction.id == id
    ensures id in Ids(found)
  {
    SortContents(Precedes, found);
    var i :| 0 <= i < |catalog| && catalog[i].transaction.id == id;
    assert catalog[i] in multiset(found);
    var j :| 0 <= j < |found| && found[j] == catalog[i];
    IdsAt(found);
    assert Ids(found)[j] == id;
  }

  lemma ContributionsPermute(asker: Asker, entries: seq<Entry>, permuted: seq<Entry>)
    requires multiset(entries) == multiset(permuted)
    ensures multiset(Contributions(asker, entries)) == multiset(Contributions(asker, permuted))
  {
    hide Contribution;
    CollectPermutes(entry => Contribution(asker, entry), entries, permuted);
  }

  /** Whether a discovery succeeds does not depend on the order of the entries. */
  lemma SuccessIsOrderFree(asker: Asker, roots: Roots, entries: seq<Entry>, permuted: seq<Entry>)
    requires multiset(entries) == multiset(permuted)
    ensures Admissible(asker, roots, entries) <==> Admissible(asker, roots, permuted)
  {
    hide Acceptable, Contributions, Ids, NoRepeats;
    ContributionsPermute(asker, entries, permuted);
    IdsPermute(Contributions(asker, entries), Contributions(asker, permuted));
    forall entry ensures entry in entries <==> entry in permuted {
      assert (entry in entries <==> entry in multiset(entries)) && (entry in permuted <==> entry in multiset(permuted));
    }
  }

  lemma EarlierPrecedes(a: Found, b: Found)
    requires Earlier(a.transaction, b.transaction)
    ensures Precedes(a, b) && !Precedes(b, a)
  {
    StringLessTotal(a.transaction.id, b.transaction.id);
  }

  /** Nor does what it finds. */
  lemma CatalogIsOrderFree(asker: Asker, entries: seq<Entry>, permuted: seq<Entry>,
                           catalog: seq<Found>, other: seq<Found>)
    requires multiset(entries) == multiset(permuted)
    requires IsCatalog(asker, entries, catalog) && IsCatalog(asker, permuted, other)
    ensures catalog == other
  {
    hide Contributions, Proven, Precedes, Earlier;
    ContributionsPermute(asker, entries, permuted);
    forall a: Found, b: Found | Earlier(a.transaction, b.transaction) ensures Precedes(a, b) && !Precedes(b, a) {
      EarlierPrecedes(a, b);
    }
    SortedUnique(Precedes, catalog, other);
  }
}
