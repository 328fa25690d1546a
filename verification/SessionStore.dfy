/**
 * The session store of one operation: a record file per session, one status file that lags behind,
 * and one lock file per session. Whether a file operation succeeds is a parameter of each method, and
 * so is the clock.
 */
module SessionStore {
  import opened Wrappers
  import opened SessionModel

  datatype StoreError =
    | MissingSession
    | Io
    | CorruptSession(decoding: DecodingError)
    | DirectoryCreation
    | Encoding
    | AtomicPersistence
    | PartialCommit
    | RevisionConflict(expected: nat, actual: nat)
    | Refused(transition: TransitionError)
    | LeaseRequired
    | ReconciliationFailed(inner: StoreError)

  /** `write_atomic` replaces the file or leaves it alone; encoding comes before it. */
  datatype WriteIo = Written | NotEncoded | NotPersisted

  datatype TransitionIo = TransitionIo(readable: bool, now: Timestamp, record: WriteIo,
                                       summaryNow: Timestamp, summary: WriteIo)

  datatype LeaseIo = LockTried | LockFailed

  datatype LeaseState = Available | Owned

  type Records = map<Identity, Document>

  function WriteError(write: WriteIo): StoreError
    requires !write.Written?
  {
    if write.NotEncoded? then Encoding else AtomicPersistence
  }

  /** `load` */
  function Read(records: Records, session: Identity, readable: bool): Result<Record, StoreError> {
    if !readable then Err(Io)
    else if session !in records then Err(MissingSession)
    else
      match Decode(records[session])
      case Ok(record) => Ok(record)
      case Err(e) => Err(CorruptSession(e))
  }

  /** What `transition` is to write, or why it refuses. */
  function Decide(loaded: Result<Record, StoreError>, expected: nat, transition: Transition, now: Timestamp)
    : Result<Record, StoreError>
  {
    var current :- loaded;
    if current.revision != expected then Err(RevisionConflict(expected, current.revision))
    else
      match ValidateTransition(current.state, transition)
      case Err(e) => Err(Refused(e))
      case Ok(_) => Ok(ApplyTransition(current, transition, now))
  }

  /** The step is recorded at its time: as the start of the session, or as its end. */
  predicate StampedBy(before: Record, after: Record, transition: Transition, now: Timestamp) {
    && after.updatedAt == now
    && after.startedAt == (if transition.ToRunning? then Some(now) else before.startedAt)
    && after.finishedAt == (if transition.ToRunning? then before.finishedAt else Some(now))
    && (after.failure.Some? <==> transition.ToFailed?)
    && (transition.ToFailed? ==>
          && after.failure.value.kind == transition.failure.kind && after.failure.value.code == transition.failure.code
          && Cut(transition.failure.diagnostic, after.failure.value.diagnostic))
  }

  /** What is decided is a well-formed step onwards from the record that was read, and from no other. */
  lemma DecisionAdvances(records: Records, session: Identity, readable: bool, expected: nat,
                         transition: Transition, now: Timestamp)
    requires Decide(Read(records, session, readable), expected, transition, now).Ok?
    ensures var r := Decide(Read(records, session, readable), expected, transition, now).value;
            && readable && session in records && Decode(records[session]).Ok?
            && var current := Decode(records[session]).value;
            && current.revision == expected && r.revision == expected + 1
            && Origin(r) == Origin(current)
            && Rank(current.state) < Rank(r.state) && r.state == transition.Target()
            && StampedBy(current, r, transition, now)
            && Decode(ToDocument(r)) == Ok(r)
  {
    var current := Decode(records[session]).value;
    var r := Decide(Read(records, session, readable), expected, transition, now).value;
    TransitionsAscend(current.state, transition);
    DocumentRoundTrip(records[session]);
    RecordRoundTrip(r);
    if transition.ToFailed? {
      TruncatedOnce(transition.failure.kind, transition.failure.code, transition.failure.diagnostic);
    }
  }

  /** The step that reconciliation decides on. */
  lemma StaleDecision(records: Records, session: Identity, record: Record, readable: bool, now: Timestamp)
    requires Read(records, session, true) == Ok(record) && !record.state.Terminal()
    ensures var decided := Decide(Read(records, session, readable), record.revision,
                                  ToFailed(StaleOwnershipFailure()), now);
            && (readable <==> decided.Ok?)
            && (readable ==> && decided.value.state == Failed
                             && decided.value.failure == Some(StaleOwnershipFailure())
                             && Origin(decided.value) == Origin(record)
                             && decided.value.revision == record.revision + 1
                             && Decode(ToDocument(decided.value)) == Ok(decided.value))
  {
    hide StampedBy, ToDocument, NewFailure, ValidateTimes;
    TransitionsAscend(record.state, ToFailed(StaleOwnershipFailure()));
    if readable {
      DecisionAdvances(records, session, readable, record.revision, ToFailed(StaleOwnershipFailure()), now);
    }
    TruncatedOnce(StaleOwnership, OwnershipStale,
                  Some("stale session ownership: prior process terminated without completing"));
  }

  class SessionStore {
    var records: Records
    var status: Option<Status>
    /** The sessions whose lock some process holds. */
    var leases: set<Identity>

    /** `create_prepared`, for a session identity that the generator has produced. */
    method CreatePrepared(input: NewRecord, session: Identity, directory: bool, io: TransitionIo)
      returns (r: Result<Record, StoreError>)
      modifies this`records, this`status
      ensures !directory || !io.record.Written?
              ==> r.Err? && !r.error.PartialCommit? && records == old(records) && status == old(status)
      ensures directory && io.record.Written?
              ==> && records == old(records)[session := ToDocument(NewPrepared(input, session, io.now))]
                  && if io.summary.Written?
                     then && r == Ok(NewPrepared(input, session, io.now))
                          && status == Some(StatusFromRecord(r.value, io.summaryNow))
                     else r == Err(PartialCommit) && status == old(status)
    {
      var record := NewPrepared(input, session, io.now);
      if !directory {
        return Err(DirectoryCreation);
      }
      if !io.record.Written? {
        return Err(WriteError(io.record));
      }
      records := records[session := ToDocument(record)];
      if !io.summary.Written? {
        return Err(PartialCommit);
      }
      status := Some(StatusFromRecord(record, io.summaryNow));
      return Ok(record);
    }

    method Load(session: Identity, readable: bool) returns (r: Result<Record, StoreError>)
      ensures r == Read(records, session, readable)
      ensures readable ==> (r == Err(MissingSession) <==> session !in records)
      ensures r.Ok? ==> session in records && ToDocument(r.value) == records[session] && Storable(r.value)
    {
      if !readable {
        return Err(Io);
      }
      if session !in records {
        return Err(MissingSession);
      }
      var decoded := Decode(records[session]);
      if decoded.Err? {
        return Err(CorruptSession(decoded.error));
      }
      DocumentRoundTrip(records[session]);
      return Ok(decoded.value);
    }

    /** `transition`: either nothing changes, or this session advances by the decided step. */
    method Transition(session: Identity, expected: nat, transition: Transition, io: TransitionIo)
      returns (r: Result<Record, StoreError>)
      modifies this`records, this`status
      ensures var decided := Decide(Read(old(records), session, io.readable), expected, transition, io.now);
              if decided.Ok? && io.record.Written?
              then && records == old(records)[session := ToDocument(decided.value)]
                   && (if io.summary.Written?
                       then r == decided && status == Some(StatusFromRecord(decided.value, io.summaryNow))
                       else r == Err(PartialCommit) && status == old(status))
              else && records == old(records) && status == old(status)
                   && r == Err(if decided.Err? then decided.error else WriteError(io.record))
      ensures r.Ok? ==> && Read(records, session, true) == r
                        && r.value.state == transition.Target() && r.value.revision == expected + 1
                        && StampedBy(Decode(old(records)[session]).value, r.value, transition, io.now)
    {
      var loaded := Load(session, io.readable);
      if loaded.Err? {
        return loaded;
      }
      var current := loaded.value;
      if current.revision != expected {
        return Err(RevisionConflict(expected, current.revision));
      }
      var valid := ValidateTransition(current.state, transition);
      if valid.Err? {
        return Err(Refused(valid.error));
      }
      var updated := ApplyTransition(current, transition, io.now);
      if !io.record.Written? {
        return Err(WriteError(io.record));
      }
      DecisionAdvances(records, session, io.readable, expected, transition, io.now);
      records := records[session := ToDocument(updated)];
      if !io.summary.Written? {
        return Err(PartialCommit);
      }
      status := Some(StatusFromRecord(updated, io.summaryNow));
      return Ok(updated);
    }

    /** `rebuild_status_from_record`: on success the summary agrees with the record again. */
    method RebuildStatus(session: Identity, readable: bool, now: Timestamp, summary: WriteIo)
      returns (r: Result<Status, StoreError>)
      modifies this`status
      ensures r.Ok? ==> && status == Some(r.value)
                        && session in records && Decode(records[session]).Ok?
                        && Projects(r.value, Decode(records[session]).value)
      ensures r.Err? ==> status == old(status)
      ensures r.Ok? <==> summary.Written? && Read(records, session, readable).Ok?
    {
      var record :- Load(session, readable);
      if !summary.Written? {
        return Err(WriteError(summary));
      }
      status := Some(StatusFromRecord(record, now));
      return Ok(status.value);
    }

    method AcquireLease(session: Identity, lock: LeaseIo) returns (r: Result<bool, StoreError>)
      modifies this`leases
      ensures lock.LockFailed? ==> r.Err? && leases == old(leases)
      ensures lock.LockTried? ==> r == Ok(session !in old(leases)) && leases == old(leases) + {session}
    {
      if lock.LockFailed? {
        return Err(Io);
      }
      r := Ok(session !in leases);
      leases := leases + {session};
    }

    method ReleaseLease(session: Identity)
      modifies this`leases
      ensures leases == old(leases) - {session}
    {
      leases := leases - {session};
    }

    /** `inspect_session_lease`: takes the lock if it can, and gives it straight back. */
    method InspectLease(session: Identity, lock: LeaseIo) returns (r: Result<LeaseState, StoreError>)
      modifies this`leases
      ensures leases == old(leases)
      ensures lock.LockFailed? <==> r.Err?
      ensures lock.LockTried? ==> (r == Ok(Owned) <==> session in leases)
    {
      var acquired := AcquireLease(session, lock);
      if acquired.Err? {
        return Err(acquired.error);
      }
      if acquired.value {
        ReleaseLease(session);
        return Ok(Available);
      }
      return Ok(Owned);
    }

    /**
     * `reconcile_stale_current_session`: fails a session that nobody owns any more. It gives its lease
     * back whatever happens, and touches neither finished sessions nor sessions that are owned.
     */
    method ReconcileStale(session: Identity, readable: bool, lock: LeaseIo, io: TransitionIo)
      returns (r: Result<Option<Record>, StoreError>)
      modifies this
      ensures leases == old(leases)
      ensures records != old(records)
              ==> && session !in leases && session in old(records) && Decode(old(records)[session]).Ok?
                  && !Decode(old(records)[session]).value.state.Terminal()
                  && records.Keys == old(records).Keys
                  && (forall other :: other in records && other != session ==> records[other] == old(records)[other])
                  && Decode(records[session]).Ok?
                  && Decode(records[session]).value.state == Failed
      ensures r.Ok? && r.value.Some?
              ==> && var before := Read(old(records), session, true);
                  && before.Ok? && !before.value.state.Terminal() && session !in leases
                  && var after := r.value.value;
                  && after.state == Failed && after.failure == Some(StaleOwnershipFailure())
                  && Origin(after) == Origin(before.value) && after.revision == before.value.revision + 1
                  && Read(records, session, true) == Ok(after)
                  && status.Some? && Projects(status.value, after)
      ensures r == Ok(None)
              <==> var before := Read(old(records), session, readable);
                   || before == Err(MissingSession)
                   || (before.Ok? && before.value.state.Terminal())
                   || (before.Ok? && lock.LockTried? && session in old(leases))
      ensures r.Err? && readable && session in old(records) && Decode(old(records)[session]).Ok?
              ==> r.error.ReconciliationFailed? || (r.error.LeaseRequired? && lock.LockFailed?)
    {
      hide Decide, Decode, ToDocument, ApplyTransition, StaleOwnershipFailure;
      var loaded := Load(session, readable);
      if loaded.Err? {
        return if loaded.error.MissingSession? then Ok(None) else Err(loaded.error);
      }
      var record := loaded.value;
      if record.state.Succeeded? || record.state.Abandoned? {
        return Ok(None);
      }
      if record.state.Failed? {
        return Ok(None);
      }
      var acquired := AcquireLease(session, lock);
      if acquired.Err? {
        return Err(LeaseRequired);
      }
      if !acquired.value {
        return Ok(None);
      }
      StaleDecision(records, session, record, io.readable, io.now);
      var moved := Transition(session, record.revision, ToFailed(StaleOwnershipFailure()), io);
      ReleaseLease(session);
      if moved.Err? {
        return Err(ReconciliationFailed(moved.error));
      }
      return Ok(Some(moved.value));
    }
  }

  // ---- Binding a runtime to its session ----

  datatype Envelope = Envelope(project: Identity, runtime: Runtime, session: Identity,
                               mode: ExecutionMode, supervision: Supervision)

  datatype BindingError =
    | StoreLoad(store: StoreError)
    | SessionNotPrepared(actual: State)
    | IdentityMismatch(field: string)
    | ExecutionModeMismatch
    | SupervisionModeMismatch
    | SupervisorLeaseUnavailable
    | LeaseInspectionFailed

  /** The record is the prepared session that the envelope asks for. */
  predicate Agrees(record: Record, envelope: Envelope) {
    && record.state == Prepared
    && record.project == envelope.project && record.runtime == envelope.runtime
    && record.session == envelope.session
    && record.mode == envelope.mode && record.supervision == envelope.supervision
  }

  /** The error for a prepared record that does not agree: the first field that differs. */
  function Mismatch(record: Record, envelope: Envelope): BindingError {
    if record.project != envelope.project then IdentityMismatch("project")
    else if record.runtime.source != envelope.runtime.source then IdentityMismatch("runtime.source")
    else if record.runtime.operation != envelope.runtime.operation then IdentityMismatch("runtime.operation")
    else if record.runtime != envelope.runtime then IdentityMismatch("runtime.source_contract_version")
    else if record.session != envelope.session then IdentityMismatch("session")
    else if record.mode != envelope.mode then ExecutionModeMismatch
    else SupervisionModeMismatch
  }

  /** The error names a field that differs; whatever is compared before it agrees. */
  lemma MismatchNames(record: Record, envelope: Envelope)
    requires record.state == Prepared && !Agrees(record, envelope)
    ensures var error := Mismatch(record, envelope);
            && (error == IdentityMismatch("project") <==> record.project != envelope.project)
            && (error == IdentityMismatch("session")
                <==> && record.project == envelope.project && record.runtime == envelope.runtime
                     && record.session != envelope.session)
            && (error.IdentityMismatch? && error.field[..2] == "ru"
                <==> record.project == envelope.project && record.runtime != envelope.runtime)
            && (error == IdentityMismatch("runtime.source") ==> record.runtime.source != envelope.runtime.source)
            && (error == IdentityMismatch("runtime.operation")
                ==> record.runtime.operation != envelope.runtime.operation)
            && (error == IdentityMismatch("runtime.source_contract_version")
                ==> record.runtime.contractVersion != envelope.runtime.contractVersion)
            && (!error.IdentityMismatch?
                <==> && record.project == envelope.project && record.runtime == envelope.runtime
                     && record.session == envelope.session)
            && (error == ExecutionModeMismatch ==> record.mode != envelope.mode)
            && (error == SupervisionModeMismatch
                ==> record.mode == envelope.mode && record.supervision != envelope.supervision)
  {
    assert "project"[0] != "session"[0] && "project"[0] != "runtime"[0];
  }

  /** `bind_runtime_session` */
  method BindRuntimeSession(store: SessionStore, envelope: Envelope, readable: bool, lock: LeaseIo)
    returns (r: Result<Record, BindingError>)
    modifies store`leases
    ensures store.leases == old(store.leases)
    ensures var loaded := Read(store.records, envelope.session, readable);
            && (r.Ok? <==> && loaded.Ok? && Agrees(loaded.value, envelope)
                           && lock.LockTried? && envelope.session in store.leases)
            && (r.Ok? ==> r.value == loaded.value)
            && (loaded.Err? ==> r == Err(StoreLoad(loaded.error)))
            && (loaded.Ok? && loaded.value.state != Prepared ==> r == Err(SessionNotPrepared(loaded.value.state)))
            && (loaded.Ok? && loaded.value.state == Prepared && !Agrees(loaded.value, envelope)
                ==> r == Err(Mismatch(loaded.value, envelope)))
            && (loaded.Ok? && Agrees(loaded.value, envelope) && r.Err?
                ==> r.error == if lock.LockTried? then SupervisorLeaseUnavailable else LeaseInspectionFailed)
  {
    var loaded := store.Load(envelope.session, readable);
    if loaded.Err? {
      return Err(StoreLoad(loaded.error));
    }
    var record := loaded.value;
    if record.state != Prepared {
      return Err(SessionNotPrepared(record.state));
    }
    if record.project != envelope.project {
      return Err(IdentityMismatch("project"));
    }
    if record.runtime.source != envelope.runtime.source {
      return Err(IdentityMismatch("runtime.source"));
    }
    if record.runtime.operation != envelope.runtime.operation {
      return Err(IdentityMismatch("runtime.operation"));
    }
    if record.runtime.contractVersion != envelope.runtime.contractVersion {
      return Err(IdentityMismatch("runtime.source_contract_version"));
    }
    if record.session != envelope.session {
      return Err(IdentityMismatch("session"));
    }
    if record.mode != envelope.mode {
      return Err(ExecutionModeMismatch);
    }
    if record.supervision != envelope.supervision {
      return Err(SupervisionModeMismatch);
    }
    var lease := store.InspectLease(envelope.session, lock);
    match lease
    case Err(_) =>
      return Err(LeaseInspectionFailed);
    case Ok(Available) =>
      return Err(SupervisorLeaseUnavailable);
    case Ok(Owned) =>
      return Ok(record);
  }
}
