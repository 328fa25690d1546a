/**
 * One run of a processing runtime: a database transaction that Core opens, lends to the source's
 * handler and closes again, and the session record that must not claim more than the database holds.
 *
 * The outcome of every step that can fail is a field of a `Script`. What SQLite does with a statement
 * is written out in `Execute`.
 */
module ProcessingRun {
  import opened Wrappers
  import opened SessionModel
  import opened SessionStore

  // ---- SQLite, as far as transactions go ----

  type Contents = seq<string>

  /** What is on disk, what the connection sees, and whether it is inside a transaction. */
  datatype Database = Database(durable: Contents, working: Contents, active: bool)

  /** A COMMIT that fails may leave the transaction open, or end it with or without its changes. */
  datatype CommitIo = CommitDone | CommitRefused | CommitLost(kept: bool)

  datatype RollbackIo = RollbackDone | RollbackRefused | RollbackLost

  datatype Statement = Write(row: string) | Begin | Commit(commit: CommitIo) | Rollback(rollback: RollbackIo)

  function Execute(db: Database, statement: Statement): Database {
    match statement
    case Write(row) =>
      if db.active then db.(working := db.working + [row])
      else Database(db.durable + [row], db.durable + [row], false)
    case Begin =>
      if db.active then db else Database(db.durable, db.durable, true)
    case Commit(io) =>
      if !db.active || io.CommitRefused? then db
      else if io == CommitLost(false) then Database(db.durable, db.durable, false)
      else Database(db.working, db.working, false)
    case Rollback(io) =>
      if !db.active || io.RollbackRefused? then db else Database(db.durable, db.durable, false)
  }

  function ExecuteAll(db: Database, statements: seq<Statement>): Database
    decreases |statements|
  {
    if statements == [] then db else ExecuteAll(Execute(db, statements[0]), statements[1..])
  }

  /** Closing a connection discards an open transaction. */
  function Close(db: Database): Database {
    Database(db.durable, db.durable, false)
  }

  /** Some statement opens a new transaction after the one that was open has ended. */
  predicate Reopens(db: Database, statements: seq<Statement>)
    decreases |statements|
  {
    statements != []
    && ((statements[0].Begin? && !db.active) || Reopens(Execute(db, statements[0]), statements[1..]))
  }

  lemma {:induction false} StaysEnded(db: Database, statements: seq<Statement>)
    requires !db.active && !Reopens(db, statements)
    ensures !ExecuteAll(db, statements).active
    decreases |statements|
  {
    if statements != [] {
      StaysEnded(Execute(db, statements[0]), statements[1..]);
    }
  }

  /** A transaction that is still the one Core opened has made nothing durable. */
  lemma {:induction false} UndisturbedTransaction(db: Database, statements: seq<Statement>)
    requires db.active && !Reopens(db, statements)
    requires ExecuteAll(db, statements).active
    ensures ExecuteAll(db, statements).durable == db.durable
    decreases |statements|
  {
    if statements != [] {
      var next := Execute(db, statements[0]);
      if next.active {
        UndisturbedTransaction(next, statements[1..]);
      } else {
        StaysEnded(next, statements[1..]);
      }
    }
  }

  predicate Keeps(io: CommitIo) {
    io == CommitDone || io == CommitLost(true)
  }

  /**
   * Some statement makes something durable: a write outside a transaction, or a COMMIT that takes effect
   * on a working copy that differs from what is on disk.
   */
  predicate MakesDurable(db: Database, statements: seq<Statement>)
    decreases |statements|
  {
    statements != []
    && var first := statements[0];
       || (first.Write? && !db.active)
       || (first.Commit? && db.active && Keeps(first.commit) && db.working != db.durable)
       || MakesDurable(Execute(db, first), statements[1..])
  }

  /** What is on disk only ever grows, and grows exactly by such a statement. */
  lemma {:induction false} DurableExactly(db: Database, statements: seq<Statement>)
    requires db.durable <= db.working
    ensures db.durable <= ExecuteAll(db, statements).durable
    ensures ExecuteAll(db, statements).durable == db.durable <==> !MakesDurable(db, statements)
    decreases |statements|
  {
    if statements != [] {
      var next := Execute(db, statements[0]);
      assert next.durable <= next.working && db.durable <= next.durable;
      DurableExactly(next, statements[1..]);
    }
  }

  // ---- The processing context ----

  datatype DatabaseState = OpenTransaction | Committed | RolledBack | EndedOutsideCore

  datatype BoundaryPhase = BeforeHandler | AfterHandler

  datatype Violation = Violation(phase: BoundaryPhase, possiblePartialCommit: bool)

  datatype TransactionError =
    | CommitFailed | RollbackFailed | TransactionNotActive | AlreadyCommitted | AlreadyRolledBack

  class ProcessingContext {
    var database: Database
    var state: DatabaseState
    /** How often the handler has been called with this context. */
    var handlerCalls: nat

    constructor (db: Database)
      ensures database == db && state == OpenTransaction && handlerCalls == 0
    {
      database, state, handlerCalls := db, OpenTransaction, 0;
    }

    method RequireTransactionActive(phase: BoundaryPhase) returns (r: Result<(), Violation>)
      ensures r.Ok? <==> database.active
      ensures r.Err? ==> r.error == Violation(phase, phase == AfterHandler)
    {
      if !database.active {
        return Err(Violation(phase, phase.AfterHandler?));
      }
      return Ok(());
    }

    method RequireOpenTransaction() returns (r: Result<(), TransactionError>)
      ensures r.Ok? <==> state == OpenTransaction
      ensures r.Err? ==> !r.error.CommitFailed? && !r.error.RollbackFailed?
    {
      match state
      case OpenTransaction => return Ok(());
      case Committed => return Err(AlreadyCommitted);
      case RolledBack => return Err(AlreadyRolledBack);
      case EndedOutsideCore => return Err(TransactionNotActive);
    }

    /** Commits the open transaction or leaves the database as a failed COMMIT leaves it; never twice. */
    method CommitDatabase(io: CommitIo) returns (r: Result<(), TransactionError>)
      modifies this`database, this`state
      ensures r.Ok? <==> old(state) == OpenTransaction && old(database).active && io == CommitDone
      ensures r.Ok? ==> state == Committed && database.durable == old(database).working && !database.active
      ensures r == Err(CommitFailed) <==> old(state) == OpenTransaction && old(database).active && io != CommitDone
      ensures r == Err(CommitFailed) ==> state == OpenTransaction && database == Execute(old(database), Commit(io))
      ensures r.Err? && r.error != CommitFailed ==> database == old(database) && state != OpenTransaction
    {
      var _ :- RequireOpenTransaction();
      if !database.active {
        state := EndedOutsideCore;
        return Err(TransactionNotActive);
      }
      database := Execute(database, Commit(io));
      if io != CommitDone {
        return Err(CommitFailed);
      }
      state := Committed;
      return Ok(());
    }

    /** Whatever its result, a rollback leaves the durable contents alone. */
    method RollbackDatabase(io: RollbackIo) returns (r: Result<(), TransactionError>)
      modifies this`database, this`state
      ensures database.durable == old(database).durable
      ensures r.Ok? <==> old(state) == OpenTransaction && old(database).active && io == RollbackDone
      ensures r.Ok? ==> state == RolledBack && !database.active && database.working == database.durable
      ensures r == Err(RollbackFailed) <==> old(state) == OpenTransaction && old(database).active && io != RollbackDone
      ensures r.Err? && r.error != RollbackFailed ==> database == old(database) && state != OpenTransaction
    {
      var _ :- RequireOpenTransaction();
      if !database.active {
        state := EndedOutsideCore;
        return Err(TransactionNotActive);
      }
      database := Execute(database, Rollback(io));
      if io != RollbackDone {
        return Err(RollbackFailed);
      }
      state := RolledBack;
      return Ok(());
    }

    method MarkTransactionEndedOutsideCore()
      modifies this`state
      ensures state == EndedOutsideCore
    {
      state := EndedOutsideCore;
    }

    /** `Drop`, followed by the drop of the connection itself. */
    method Drop(io: RollbackIo)
      modifies this`database, this`state
      ensures database == Close(old(database))
      ensures state == if old(state) == OpenTransaction then RolledBack else old(state)
    {
      if state == OpenTransaction {
        database := Execute(database, Rollback(io));
        state := RolledBack;
      }
      database := Close(database);
    }

    /** The source's handler: it may send the connection any statements it likes. */
    method Handle(statements: seq<Statement>)
      modifies this`database, this`handlerCalls
      ensures database == ExecuteAll(old(database), statements) && handlerCalls == old(handlerCalls) + 1
    {
      handlerCalls := handlerCalls + 1;
      var i := 0;
      while i < |statements|
        invariant 0 <= i <= |statements|
        invariant ExecuteAll(database, statements[i..]) == ExecuteAll(old(database), statements)
        invariant handlerCalls == old(handlerCalls) + 1
      {
        database := Execute(database, statements[i]);
        i := i + 1;
      }
    }
  }

  // ---- Sidecar files ----

  datatype SidecarKind = RollbackJournal | WriteAheadLog | SharedMemory

  datatype Entry = Absent | Unreadable | Symlink | RegularFile | OtherFile

  datatype SidecarPhase = BeforeOpen | AfterTransaction

  datatype SidecarError =
    | Inspection(kind: SidecarKind)
    | SidecarIsSymlink(kind: SidecarKind)
    | WrongFileType(kind: SidecarKind)
    | ForbiddenSidecarPresent(kind: SidecarKind)
    | RollbackJournalNotCleanedUp

  const SIDECARS := [RollbackJournal, WriteAheadLog, SharedMemory]

  type Beside = SidecarKind -> Entry

  /** Before opening, a regular rollback journal is legitimate: SQLite recovers from it. */
  predicate Permitted(kind: SidecarKind, entry: Entry, phase: SidecarPhase) {
    entry == Absent || (entry == RegularFile && kind == RollbackJournal && phase == BeforeOpen)
  }

  /** `validate_database_sidecars`: the first of the three that is not permitted, if any. */
  method ValidateDatabaseSidecars(beside: Beside, phase: SidecarPhase) returns (r: Result<(), SidecarError>)
    ensures r.Ok? <==> forall kind :: Permitted(kind, beside(kind), phase)
    ensures r.Err? ==> var kind := if r.error.RollbackJournalNotCleanedUp? then RollbackJournal else r.error.kind;
                       && !Permitted(kind, beside(kind), phase)
                       && (kind != RollbackJournal ==> Permitted(RollbackJournal, beside(RollbackJournal), phase))
                       && (kind == SharedMemory ==> Permitted(WriteAheadLog, beside(WriteAheadLog), phase))
                       && (r.error.Inspection? <==> beside(kind) == Unreadable)
                       && (r.error.SidecarIsSymlink? <==> beside(kind) == Symlink)
                       && (r.error.WrongFileType? <==> beside(kind) == OtherFile)
  {
    var i := 0;
    while i < |SIDECARS|
      invariant 0 <= i <= |SIDECARS| == 3
      invariant i > 0 ==> Permitted(RollbackJournal, beside(RollbackJournal), phase)
      invariant i > 1 ==> Permitted(WriteAheadLog, beside(WriteAheadLog), phase)
      invariant i > 2 ==> Permitted(SharedMemory, beside(SharedMemory), phase)
    {
      var kind := SIDECARS[i];
      match beside(kind) {
        case Absent =>
          i := i + 1;
          continue;
        case Unreadable =>
          return Err(Inspection(kind));
        case Symlink =>
          return Err(SidecarIsSymlink(kind));
        case OtherFile =>
          return Err(WrongFileType(kind));
        case RegularFile =>
      }
      match kind {
        case WriteAheadLog =>
          return Err(ForbiddenSidecarPresent(kind));
        case SharedMemory =>
          return Err(ForbiddenSidecarPresent(kind));
        case RollbackJournal =>
          if phase.AfterTransaction? {
            return Err(RollbackJournalNotCleanedUp);
          }
      }
      i := i + 1;
    }
    forall kind ensures Permitted(kind, beside(kind), phase) {
      match kind
      case RollbackJournal =>
      case WriteAheadLog =>
      case SharedMemory =>
    }
    return Ok(());
  }

  // ---- The running session ----

  /** A terminal transition that was tried, and what the store said. */
  datatype Attempt = Attempt(transition: Transition, outcome: Result<Record, StoreError>)

  /** `RunningProcessingExecution`, with a note of what it was used for. */
  class RunningExecution {
    const store: SessionStore
    const record: Record
    var attempts: seq<Attempt>

    constructor (store: SessionStore, record: Record)
      ensures this.store == store && this.record == record && attempts == []
    {
      this.store, this.record, attempts := store, record, [];
    }

    /** The record is stored as `state` and this many moves further on than when Running was entered. */
    ghost predicate Stands(moved: nat, state: State)
      reads this, store`records
    {
      var current := Read(store.records, record.session, true);
      && record.state == Running && current.Ok?
      && current.value.revision == record.revision + moved && current.value.state == state
      && (moved == 0 ==> current.value == record)
    }

    /** No terminal transition has been tried, and others have moved the session as the script says. */
    ghost predicate Ready(script: Script)
      reads this, store`records
    {
      attempts == [] && Stands(Moved(script.others), StateAfter(script.others))
    }

    /** One terminal transition has been tried, and it and the record have come to what the script says. */
    ghost predicate Ended(script: Script)
      reads this, store`records
    {
      && |attempts| == 1 && FailureOf(attempts[0]) == script.TerminalError(record.revision)
      && StateOf(store.records, record.session)
         == Some(if script.Finishes() then attempts[0].transition.Target() else StateAfter(script.others))
      && (script.Finishes() ==>
            var stored := Read(store.records, record.session, true);
            stored.Ok? && StampedBy(record, stored.value, attempts[0].transition, script.terminal.now))
    }

    /** `complete`, `fail_source` and `fail_runtime`, which use the execution up. */
    method Finish(transition: Transition, script: Script) returns (r: Option<StoreError>)
      requires !transition.ToRunning? && Ready(script)
      modifies this, store`records, store`status
      ensures |attempts| == 1 && Ended(script) && attempts[0].transition == transition && r == FailureOf(attempts[0])
    {
      hide ToDocument, ApplyTransition, StampedBy, Moved, StateAfter;
      var io := script.terminal;
      if Moved(script.others) == 0 {
        TransitionsAscend(Running, transition);
      }
      if Decide(Read(store.records, record.session, io.readable), record.revision, transition, io.now).Ok? {
        DecisionAdvances(store.records, record.session, io.readable, record.revision, transition, io.now);
      }
      var outcome := store.Transition(record.session, record.revision, transition, io);
      attempts := attempts + [Attempt(transition, outcome)];
      return if outcome.Ok? then None else Some(outcome.error);
    }

  }

  function FailureOf(attempt: Attempt): Option<StoreError> {
    if attempt.outcome.Ok? then None else Some(attempt.outcome.error)
  }

  /** The state that the stored record of a session is in, if it can be read. */
  function StateOf(records: Records, session: Identity): Option<State> {
    var record := Read(records, session, true);
    if record.Ok? then Some(record.value.state) else None
  }

  // ---- The run ----

  datatype SetupError =
    | TransactionDiscovery(provenance: bool)
    | DatabasePath
    | DatabaseOpen
    | ContextConstruction
    | TransactionBoundary(violation: Violation)
  {
    function Code(): FailureCode {
      match this
      case TransactionDiscovery(provenance) =>
        if provenance then TransactionProvenanceFailed else TransactionDiscoveryFailed
      case DatabasePath => DatabasePathInvalid
      case DatabaseOpen => DatabaseOpenFailed
      case ContextConstruction => ContextConstructionFailed
      case TransactionBoundary(_) => DatabaseTransactionFailed
    }

    function Diagnostic(): string {
      match this
      case TransactionDiscovery(_) => "processing raw transaction discovery failed"
      case DatabasePath => "processing database path admission failed"
      case DatabaseOpen => "processing database open or configuration failed"
      case ContextConstruction => "processing context construction failed"
      case TransactionBoundary(_) => "processing database transaction was not active"
    }
  }

  datatype SessionError =
    | ContextDecode | StoreOpen | SessionBinding(binding: BindingError) | TransitionToRunning(store: StoreError)

  datatype PartialPhase =
    | SourceTransactionBoundaryLoss
    | PostCommitDurability
    | PostCommitSidecarValidation
    | SessionCompletionPersistence

  datatype PartialCause =
    | BoundaryViolation(violation: Violation)
    | Durability
    | Sidecar(sidecar: SidecarError)
    | SessionPersistence(store: StoreError)

  datatype Provenance = Provenance(project: Identity, runtime: Runtime, session: Identity)

  datatype RunError =
    | Transport
    | Admission
    | Session(session: SessionError)
    | Setup(setup: SetupError)
    | SetupAndPersistence(setup: SetupError, persistence: StoreError)
    | Handler(handler: string)
    | HandlerAndRollbackFailure(handler: string, rollback: TransactionError, terminal: Option<StoreError>)
    | HandlerAndPersistenceFailure(handler: string, persistence: StoreError)
    | DatabaseTransaction(commit: TransactionError)
    | DatabaseCommitAndPersistenceFailure(commit: TransactionError, persistence: StoreError)
    | DatabaseCommitOutcomeUncertain(provenance: Provenance, retained: Option<StoreError>)
    | DatabasePartialCommit(provenance: Provenance, phase: PartialPhase, cause: PartialCause,
                            retained: Option<StoreError>)
    | DatabaseSidecar(handler: string, sidecar: SidecarError, terminal: Option<StoreError>)
  {
    /** The error that the handler returned, where the outcome retains it. */
    function HandlerError(): Option<string> {
      match this
      case Handler(e) => Some(e)
      case HandlerAndRollbackFailure(e, _, _) => Some(e)
      case HandlerAndPersistenceFailure(e, _) => Some(e)
      case DatabaseSidecar(e, _, _) => Some(e)
      case _ => None
    }

    function SetupFailure(): Option<SetupError> {
      match this
      case Setup(e) => Some(e)
      case SetupAndPersistence(e, _) => Some(e)
      case _ => None
    }

    function SessionPersistenceError(): Option<StoreError> {
      match this
      case SetupAndPersistence(_, e) => Some(e)
      case HandlerAndRollbackFailure(_, _, e) => e
      case DatabaseSidecar(_, _, e) => e
      case HandlerAndPersistenceFailure(_, e) => Some(e)
      case DatabaseCommitAndPersistenceFailure(_, e) => Some(e)
      case DatabasePartialCommit(_, _, cause, retained) =>
        if cause.SessionPersistence? then Some(cause.store) else retained
      case DatabaseCommitOutcomeUncertain(_, retained) => retained
      case _ => None
    }
  }

  /** How every step that can fail turns out, in the order of the steps. */
  datatype Script = Script(
    transport: bool, admission: bool, contextDecode: bool, operationRoot: bool,
    bindReadable: bool, lock: LeaseIo, running: TransitionIo,
    discovery: Result<(), bool>, databasePath: bool,
    databaseOpen: Option<Contents>, construction: bool, begun: bool,
    statements: seq<Statement>, handler: Result<(), string>,
    commit: CommitIo, rollback: RollbackIo, drop: RollbackIo,
    fileSync: bool, directorySync: bool, beside: Beside,
    others: seq<Move>, terminal: TransitionIo)
  {
    function SetupFailure(): Option<SetupError> {
      if discovery.Err? then Some(TransactionDiscovery(discovery.error))
      else if !databasePath then Some(DatabasePath)
      else if databaseOpen.None? then Some(DatabaseOpen)
      else if !construction then Some(ContextConstruction)
      else if !begun then Some(TransactionBoundary(Violation(BeforeHandler, false)))
      else None
    }

    predicate Admitted() {
      transport && admission && contextDecode && operationRoot
    }

    /** The record of the transition to Running is written, whatever becomes of the summary. */
    predicate StartsRunning() {
      running.readable && running.record.Written?
    }

    /** The database when the handler starts, and when it is done. */
    function Before(): Database
      requires databaseOpen.Some?
    {
      Database(databaseOpen.value, databaseOpen.value, begun)
    }

    function After(): Database
      requires databaseOpen.Some?
    {
      ExecuteAll(Before(), statements)
    }

    /** The handler returned Ok and left a transaction open. */
    predicate ReachesCommit() {
      SetupFailure().None? && After().active && handler.Ok?
    }

    predicate ReachesRollback() {
      SetupFailure().None? && After().active && handler.Err?
    }

    predicate CoreCommits() {
      ReachesCommit() && commit == CommitDone
    }

    predicate Clean() {
      forall kind :: beside(kind) == Absent
    }

    predicate CommitsCleanly() {
      CoreCommits() && fileSync && directorySync && Clean()
    }

    /** The terminal transition reaches the record. */
    predicate Finishes() {
      Moved(others) == 0 && terminal.readable && terminal.record.Written?
    }

    /** What keeps the terminal transition from succeeding, for a session that entered Running with `revision`. */
    function TerminalError(revision: nat): Option<StoreError> {
      if !terminal.readable then Some(Io)
      else if Moved(others) > 0 then Some(RevisionConflict(revision, revision + Moved(others)))
      else if !terminal.record.Written? then Some(WriteError(terminal.record))
      else if !terminal.summary.Written? then Some(PartialCommit)
      else None
    }
  }

  /** The run finds the prepared session that its envelope names, and somebody who owns it. */
  predicate Binds(records: Records, leases: set<Identity>, envelope: Envelope, script: Script) {
    var loaded := Read(records, envelope.session, script.bindReadable);
    && loaded.Ok? && Agrees(loaded.value, envelope)
    && script.lock.LockTried? && envelope.session in leases
  }

  /** What a run did, beside its result. */
  datatype Log = Log(entered: bool, handlerCalls: nat, attempts: seq<Attempt>, database: Option<Database>)

  const NOTHING := Log(false, 0, [], None)

  function FailRuntime(code: FailureCode, diagnostic: string): (t: Transition)
    ensures t.ToFailed?
  {
    ToFailed(NewFailure(RuntimeFailure, code, Some(diagnostic)))
  }

  /** Trouble with the transaction that Core reports in its own words. */
  datatype Trouble = SourceEndedTransaction | CommitNotDone | CommitUncertain | NotDurable | NotClean

  function Text(trouble: Trouble): string {
    match trouble
    case SourceEndedTransaction => "processing source ended the Core-owned database transaction"
    case CommitNotDone => "processing database commit failed"
    case CommitUncertain => "processing database commit outcome is uncertain"
    case NotDurable => "processing database durability failed after commit"
    case NotClean => "processing database sidecar validation failed after commit"
  }

  /** The transition that the record deserves after a run that entered Running. */
  function Deserved(script: Script): Transition {
    match script.SetupFailure()
    case Some(e) => FailRuntime(e.Code(), e.Diagnostic())
    case None =>
      if script.CommitsCleanly() then ToSucceeded
      else if script.ReachesRollback() then ToFailed(SourceFailure())
      else FailRuntime(DatabaseTransactionFailed,
                       Text(if !script.After().active then SourceEndedTransaction
                            else if script.commit.CommitRefused? then CommitNotDone
                            else if script.commit.CommitLost? then CommitUncertain
                            else if !script.fileSync || !script.directorySync then NotDurable
                            else NotClean))
  }

  /** What is on disk after a run that opened the database. */
  function Remains(script: Script): Contents
    requires script.databaseOpen.Some?
  {
    if script.SetupFailure().Some? then script.databaseOpen.value
    else if script.CoreCommits() || (script.ReachesCommit() && script.commit == CommitLost(true)) then
      script.After().working
    else script.After().durable
  }

  /**
   * How many of the moves that others make move a session that is running, if none of them completes it
   * and they stop at the first that is refused: it can be failed and then abandoned, or abandoned at once.
   */
  function Moved(moves: seq<Move>): nat {
    if moves == [] || moves[0].transition.ToRunning? then 0
    else if moves[0].transition.ToFailed? && |moves| > 1 && moves[1].transition.ToAbandoned? then 2
    else 1
  }

  function StateAfter(moves: seq<Move>): State {
    if Moved(moves) == 0 then Running else moves[Moved(moves) - 1].transition.Target()
  }

  /** Other processes move the session along while the handler runs; only the run itself completes it. */
  method Meanwhile(execution: RunningExecution, moves: seq<Move>)
    requires forall m :: m in moves ==> m.transition != ToSucceeded
    requires execution.Stands(0, Running)
    modifies execution.store`records
    ensures execution.Stands(Moved(moves), StateAfter(moves))
  {
    hide Decode, ToDocument, ApplyTransition, ValidateTransition, StampedBy;
    var store, session := execution.store, execution.record.session;
    var record := store.Load(session, true);
    var i := 0;
    while i < |moves| && record.Ok?
      invariant 0 <= i <= |moves|
      invariant record.Ok? ==> && Read(store.records, session, true) == record
                               && i <= Moved(moves) && execution.Stands(i, StateAfter(moves[..i]))
                               && Moved(moves[..i]) == i
      invariant record.Err? ==> execution.Stands(Moved(moves), StateAfter(moves))
    {
      var current := record.value;
      TransitionsAscend(current.state, moves[i].transition);
      MovesOn(moves, i);
      assert moves[i] in moves;
      record := Decide(record, current.revision, moves[i].transition, moves[i].now);
      if record.Ok? {
        DecisionAdvances(store.records, session, true, current.revision, moves[i].transition, moves[i].now);
        store.records := store.records[session := ToDocument(record.value)];
      }
      i := i + 1;
    }
    assert moves[..|moves|] == moves;
  }

  /** The next move is accepted exactly when it is one of those that count. */
  lemma MovesOn(moves: seq<Move>, i: nat)
    requires i < |moves| && Moved(moves[..i]) == i && forall m :: m in moves ==> m.transition != ToSucceeded
    ensures var target := moves[i].transition.Target();
            && (i < Moved(moves) <==> Rank(StateAfter(moves[..i])) < Rank(target))
            && (i < Moved(moves) ==> Moved(moves[..i + 1]) == i + 1 && StateAfter(moves[..i + 1]) == target)
            && StateAfter(moves[..i]) != Succeeded && StateAfter(moves[..i]) != Prepared
            && (i == Moved(moves) ==> StateAfter(moves) == StateAfter(moves[..i]))
            && i <= Moved(moves)
  {
    assert moves[0] in moves && moves[i] in moves;
    assert i > 0 ==> moves[..i][0] == moves[0] && moves[..i + 1][0] == moves[0];
    assert i > 1 ==> moves[..i][1] == moves[1];
  }

  /** `finalize_database_durability` */
  method FinalizeDurability(fileSync: bool, directorySync: bool) returns (ok: bool)
    ensures ok == (fileSync && directorySync)
  {
    if !fileSync {
      return false;
    }
    return directorySync;
  }

  /** `enter_running`, for a session that has just been bound. */
  method EnterRunning(store: SessionStore, bound: Record, io: TransitionIo) returns (r: Result<Record, StoreError>)
    requires Read(store.records, bound.session, true) == Ok(bound) && bound.state == Prepared
    modifies store`records, store`status
    ensures r.Ok? <==> io.readable && io.record.Written? && io.summary.Written?
    ensures r == Err(PartialCommit) <==> io.readable && io.record.Written? && !io.summary.Written?
    // The record returned is the one that is now stored, one revision on.
    ensures r.Ok? ==> && Read(store.records, bound.session, true) == r && Origin(r.value) == Origin(bound)
                      && r.value.state == Running && r.value.revision == bound.revision + 1
                      && r.value.startedAt == Some(io.now)
    ensures r.Ok? || r == Err(PartialCommit) ==> StateOf(store.records, bound.session) == Some(Running)
    ensures store.records != old(store.records) ==> StateOf(store.records, bound.session) == Some(Running)
  {
    if Decide(Read(store.records, bound.session, io.readable), bound.revision, ToRunning, io.now).Ok? {
      DecisionAdvances(store.records, bound.session, io.readable, bound.revision, ToRunning, io.now);
    }
    r := store.Transition(bound.session, bound.revision, ToRunning, io);
  }

  /** What the result and the log of a run that entered Running say. */
  ghost predicate Reported(script: Script, provenance: Provenance, result: Result<(), RunError>, log: Log) {
    && log.entered
    && |log.attempts| == 1 && log.attempts[0].transition == Deserved(script)
    && log.handlerCalls == (if script.SetupFailure().None? then 1 else 0)
    && (result.Ok? <==> script.CommitsCleanly() && log.attempts[0].outcome.Ok?)
    && (log.database.Some? <==> script.discovery.Ok? && script.databasePath && script.databaseOpen.Some?)
    && (log.database.Some? ==> log.database.value == Close(log.database.value)
                               && log.database.value.durable == Remains(script))
    && (result.Err? ==> Tells(script, provenance, result.error, FailureOf(log.attempts[0])))
  }

  /** What the error of such a run says, given what became of its terminal transition. */
  ghost predicate Tells(script: Script, provenance: Provenance, error: RunError, persistence: Option<StoreError>) {
    && error.SessionPersistenceError() == persistence
    && !error.Transport? && !error.Admission? && !error.Session?
    && error.SetupFailure() == script.SetupFailure()
    && error.HandlerError() == (if script.ReachesRollback() then Some(script.handler.error) else None)
    && (error.DatabaseCommitOutcomeUncertain? <==> script.ReachesCommit() && script.commit.CommitLost?)
    && (error.DatabaseTransaction? || error.DatabaseCommitAndPersistenceFailure?
        <==> script.ReachesCommit() && script.commit == CommitRefused)
    && (error.DatabasePartialCommit?
        <==> script.SetupFailure().None? && (!script.After().active || script.CoreCommits()))
    && (error.DatabasePartialCommit? ==> error.phase == PhaseOf(script) && Fits(script, error.phase, error.cause))
    && (error.HandlerAndRollbackFailure? <==> script.ReachesRollback() && script.rollback != RollbackDone)
    && (error.DatabaseSidecar? <==> script.ReachesRollback() && script.rollback == RollbackDone && !script.Clean())
    && (error.HandlerAndRollbackFailure? ==> error.rollback == RollbackFailed)
    && (error.DatabaseTransaction? || error.DatabaseCommitAndPersistenceFailure? ==> error.commit == CommitFailed)
    && (error.DatabaseSidecar? ==> Offends(script.beside, error.sidecar))
    && (error.DatabasePartialCommit? || error.DatabaseCommitOutcomeUncertain? ==> error.provenance == provenance)
  }

  /** How far a run came whose database may hold changes although it failed. */
  function PhaseOf(script: Script): PartialPhase
    requires script.databaseOpen.Some?
  {
    if !script.After().active then SourceTransactionBoundaryLoss
    else if !script.fileSync || !script.directorySync then PostCommitDurability
    else if !script.Clean() then PostCommitSidecarValidation
    else SessionCompletionPersistence
  }

  /** The error is about a sidecar file that is left behind. */
  predicate Offends(beside: Beside, error: SidecarError) {
    beside(if error.RollbackJournalNotCleanedUp? then RollbackJournal else error.kind) != Absent
  }

  predicate Fits(script: Script, phase: PartialPhase, cause: PartialCause) {
    match phase
    case SourceTransactionBoundaryLoss => cause == BoundaryViolation(Violation(AfterHandler, true))
    case PostCommitDurability => cause.Durability?
    case PostCommitSidecarValidation => cause.Sidecar? && Offends(script.beside, cause.sidecar)
    case SessionCompletionPersistence => cause.SessionPersistence?
  }

  /** `fail_setup` */
  method FailSetup(execution: RunningExecution, setup: SetupError, script: Script) returns (error: RunError)
    requires execution.Ready(script)
    modifies execution, execution.store`records, execution.store`status
    ensures |execution.attempts| == 1
    ensures execution.attempts[0].transition == FailRuntime(setup.Code(), setup.Diagnostic())
    ensures error == match FailureOf(execution.attempts[0])
                     case None => Setup(setup)
                     case Some(e) => SetupAndPersistence(setup, e)
    ensures execution.Ended(script)
  {
    hide RunningExecution.Ready, RunningExecution.Ended, FailRuntime, SetupError.Code, SetupError.Diagnostic;
    var persistence := execution.Finish(FailRuntime(setup.Code(), setup.Diagnostic()), script);
    match persistence
    case None => return Setup(setup);
    case Some(e) => return SetupAndPersistence(setup, e);
  }

  /** The run after the handler returned Ok inside an open transaction. */
  method FinishCommit(execution: RunningExecution, context: ProcessingContext, provenance: Provenance, script: Script)
    returns (result: Result<(), RunError>, log: Log)
    requires execution.Ready(script) && script.ReachesCommit()
    requires context.database == script.After() && context.state == OpenTransaction && context.handlerCalls == 1
    modifies execution, execution.store`records, execution.store`status, context
    ensures Reported(script, provenance, result, log)
    ensures execution.Ended(script) && log.attempts == execution.attempts
  {
    hide RunningExecution.Ready, RunningExecution.Ended, ExecuteAll, SourceFailure, FailRuntime, Text;
    hide SetupError.Code, SetupError.Diagnostic;
    var committed := context.CommitDatabase(script.commit);
    if committed.Err? {
      // Inside an open transaction the only error is SQLite's; the source's other branch is dead.
      assert committed.error == CommitFailed;
      result, log := FinishFailedCommit(execution, context, provenance, script);
      return;
    }
    context.Drop(script.drop);
    result, log := FinishCommitted(execution, context, provenance, script);
  }

  /** The run after a COMMIT that failed: whether the transaction is still open decides what is known. */
  method FinishFailedCommit(execution: RunningExecution, context: ProcessingContext, provenance: Provenance,
                            script: Script)
    returns (result: Result<(), RunError>, log: Log)
    requires execution.Ready(script) && script.ReachesCommit() && script.commit != CommitDone
    requires context.database == Execute(script.After(), Commit(script.commit)) && context.handlerCalls == 1
    modifies execution, execution.store`records, execution.store`status, context
    ensures result.Err? && Reported(script, provenance, result, log)
    ensures execution.Ended(script) && log.attempts == execution.attempts
  {
    hide RunningExecution.Ready, RunningExecution.Ended, ExecuteAll, SourceFailure, FailRuntime, Text;
    hide SetupError.Code, SetupError.Diagnostic;
    var stillActive := context.database.active;
    if !stillActive {
      context.MarkTransactionEndedOutsideCore();
    }
    context.Drop(script.drop);
    var trouble := if stillActive then CommitNotDone else CommitUncertain;
    var persistence := execution.Finish(FailRuntime(DatabaseTransactionFailed, Text(trouble)), script);
    log := Log(true, context.handlerCalls, execution.attempts, Some(context.database));
    if !stillActive {
      return Err(DatabaseCommitOutcomeUncertain(provenance, persistence)), log;
    }
    match persistence
    case Some(e) => return Err(DatabaseCommitAndPersistenceFailure(CommitFailed, e)), log;
    case None => return Err(DatabaseTransaction(CommitFailed)), log;
  }

  /** The run after Core's COMMIT, with the connection closed: from here on no rollback is claimed. */
  method FinishCommitted(execution: RunningExecution, context: ProcessingContext, provenance: Provenance,
                         script: Script)
    returns (result: Result<(), RunError>, log: Log)
    requires execution.Ready(script) && script.CoreCommits()
    requires context.database == Database(script.After().working, script.After().working, false)
    requires context.handlerCalls == 1
    modifies execution, execution.store`records, execution.store`status
    ensures Reported(script, provenance, result, log)
    ensures execution.Ended(script) && log.attempts == execution.attempts
  {
    hide RunningExecution.Ready, RunningExecution.Ended, ExecuteAll, SourceFailure, FailRuntime, Text;
    hide SetupError.Code, SetupError.Diagnostic;
    var durable := FinalizeDurability(script.fileSync, script.directorySync);
    if !durable {
      var persistence := execution.Finish(FailRuntime(DatabaseTransactionFailed, Text(NotDurable)), script);
      log := Log(true, context.handlerCalls, execution.attempts, Some(context.database));
      return Err(DatabasePartialCommit(provenance, PostCommitDurability, Durability, persistence)), log;
    }
    var clean := ValidateDatabaseSidecars(script.beside, AfterTransaction);
    if clean.Err? {
      var persistence := execution.Finish(FailRuntime(DatabaseTransactionFailed, Text(NotClean)), script);
      log := Log(true, context.handlerCalls, execution.attempts, Some(context.database));
      return Err(DatabasePartialCommit(provenance, PostCommitSidecarValidation,
                                       Sidecar(clean.error), persistence)), log;
    }
    assert script.Clean() by {
      assert forall kind :: Permitted(kind, script.beside(kind), AfterTransaction);
    }
    var completion := execution.Finish(ToSucceeded, script);
    log := Log(true, context.handlerCalls, execution.attempts, Some(context.database));
    match completion
    case None => return Ok(()), log;
    case Some(e) =>
      return Err(DatabasePartialCommit(provenance, SessionCompletionPersistence, SessionPersistence(e), None)), log;
  }

  /** The run after the handler returned an error inside an open transaction. */
  method FinishRollback(execution: RunningExecution, context: ProcessingContext, provenance: Provenance, script: Script)
    returns (result: Result<(), RunError>, log: Log)
    requires execution.Ready(script) && script.ReachesRollback()
    requires context.database == script.After() && context.state == OpenTransaction && context.handlerCalls == 1
    modifies execution, execution.store`records, execution.store`status, context
    ensures result.Err? && Reported(script, provenance, result, log)
    ensures execution.Ended(script) && log.attempts == execution.attempts
  {
    hide RunningExecution.Ready, RunningExecution.Ended, ExecuteAll, SourceFailure, FailRuntime, Text;
    hide SetupError.Code, SetupError.Diagnostic;
    var rolledBack := context.RollbackDatabase(script.rollback);
    context.Drop(script.drop);
    if rolledBack.Err? {
      var persistence := execution.Finish(ToFailed(SourceFailure()), script);
      log := Log(true, context.handlerCalls, execution.attempts, Some(context.database));
      return Err(HandlerAndRollbackFailure(script.handler.error, rolledBack.error, persistence)), log;
    }
    result, log := FinishRolledBack(execution, context, provenance, script);
  }

  /** The run after Core's ROLLBACK, with the connection closed. */
  method FinishRolledBack(execution: RunningExecution, context: ProcessingContext, provenance: Provenance,
                          script: Script)
    returns (result: Result<(), RunError>, log: Log)
    requires execution.Ready(script) && script.ReachesRollback() && script.rollback == RollbackDone
    requires context.database == Close(script.After()) && context.handlerCalls == 1
    modifies execution, execution.store`records, execution.store`status
    ensures result.Err? && Reported(script, provenance, result, log)
    ensures execution.Ended(script) && log.attempts == execution.attempts
  {
    hide RunningExecution.Ready, RunningExecution.Ended, ExecuteAll, SourceFailure, FailRuntime, Text;
    hide SetupError.Code, SetupError.Diagnostic;
    var clean := ValidateDatabaseSidecars(script.beside, AfterTransaction);
    assert clean.Ok? <==> script.Clean() by {
      assert forall kind :: Permitted(kind, script.beside(kind), AfterTransaction) <==> script.beside(kind) == Absent;
    }
    var persistence := execution.Finish(ToFailed(SourceFailure()), script);
    log := Log(true, context.handlerCalls, execution.attempts, Some(context.database));
    if clean.Err? {
      return Err(DatabaseSidecar(script.handler.error, clean.error, persistence)), log;
    }
    match persistence
    case Some(e) => return Err(HandlerAndPersistenceFailure(script.handler.error, e)), log;
    case None => return Err(Handler(script.handler.error)), log;
  }

  /** From Running to a context inside the transaction that Core has begun. */
  method SetUp(execution: RunningExecution, provenance: Provenance, script: Script)
    returns (r: Result<ProcessingContext, RunError>, log: Log)
    requires execution.Ready(script)
    modifies execution, execution.store`records, execution.store`status
    ensures r.Ok? <==> script.SetupFailure().None?
    ensures r.Ok? ==> && fresh(r.value) && r.value.database == script.Before()
                      && r.value.state == OpenTransaction && r.value.handlerCalls == 0
                      && execution.Ready(script)
    ensures r.Err? ==> Reported(script, provenance, Err(r.error), log)
    ensures r.Err? ==> execution.Ended(script) && log.attempts == execution.attempts
  {
    hide RunningExecution.Ready, RunningExecution.Ended, ExecuteAll, SourceFailure, FailRuntime, Text;
    hide SetupError.Code, SetupError.Diagnostic;
    log := NOTHING;
    if script.discovery.Err? {
      var error := FailSetup(execution, TransactionDiscovery(script.discovery.error), script);
      return Err(error), Log(true, 0, execution.attempts, None);
    }
    if !script.databasePath {
      var error := FailSetup(execution, DatabasePath, script);
      return Err(error), Log(true, 0, execution.attempts, None);
    }
    if script.databaseOpen.None? {
      var error := FailSetup(execution, DatabaseOpen, script);
      return Err(error), Log(true, 0, execution.attempts, None);
    }
    if !script.construction {
      var error := FailSetup(execution, ContextConstruction, script);
      return Err(error), Log(true, 0, execution.attempts, Some(Close(script.Before())));
    }
    var context := new ProcessingContext(script.Before());
    var begun := context.RequireTransactionActive(BeforeHandler);
    if begun.Err? {
      context.MarkTransactionEndedOutsideCore();
      context.Drop(script.drop);
      var error := FailSetup(execution, TransactionBoundary(begun.error), script);
      return Err(error), Log(true, 0, execution.attempts, Some(context.database));
    }
    return Ok(context), log;
  }

  /** The run from the moment that the session is Running. */
  method RunEntered(execution: RunningExecution, provenance: Provenance, script: Script)
    returns (result: Result<(), RunError>, log: Log)
    requires execution.Ready(script)
    modifies execution, execution.store`records, execution.store`status
    ensures Reported(script, provenance, result, log)
    ensures execution.Ended(script) && log.attempts == execution.attempts
  {
    hide RunningExecution.Ready, RunningExecution.Ended, ExecuteAll, SourceFailure, FailRuntime, Text;
    hide SetupError.Code, SetupError.Diagnostic;
    var prepared, early := SetUp(execution, provenance, script);
    if prepared.Err? {
      return Err(prepared.error), early;
    }
    var context := prepared.value;
    context.Handle(script.statements);

    var bounded := context.RequireTransactionActive(AfterHandler);
    if bounded.Err? {
      context.MarkTransactionEndedOutsideCore();
      context.Drop(script.drop);
      // After the handler every violation is a possible partial commit; the source's other branch is dead.
      assert bounded.error.possiblePartialCommit;
      var persistence := execution.Finish(
        FailRuntime(DatabaseTransactionFailed, Text(SourceEndedTransaction)), script);
      log := Log(true, context.handlerCalls, execution.attempts, Some(context.database));
      return Err(DatabasePartialCommit(provenance, SourceTransactionBoundaryLoss,
                                       BoundaryViolation(bounded.error), persistence)), log;
    }
    if script.handler.Ok? {
      result, log := FinishCommit(execution, context, provenance, script);
    } else {
      result, log := FinishRollback(execution, context, provenance, script);
    }
  }

  /** Kind and code of the failure that is recorded tell which step failed. */
  lemma RecordedFailure(script: Script)
    requires Deserved(script).ToFailed?
    ensures var f := Deserved(script).failure;
            && (f.kind == Source <==> script.ReachesRollback()) && (f.kind == RuntimeFailure <==> f.kind != Source)
            && (f.code == SourceReturnedError <==> script.ReachesRollback())
            && (f.code == TransactionDiscoveryFailed <==> script.discovery == Err(false))
            && (f.code == TransactionProvenanceFailed <==> script.discovery == Err(true))
            && (f.code == DatabasePathInvalid <==> script.discovery.Ok? && !script.databasePath)
            && (f.code == DatabaseOpenFailed
                <==> script.discovery.Ok? && script.databasePath && script.databaseOpen.None?)
            && (f.code == ContextConstructionFailed
                <==> && script.discovery.Ok? && script.databasePath && script.databaseOpen.Some?
                     && !script.construction)
            && (f.code == DatabaseTransactionFailed
                <==> && script.discovery.Ok? && script.databasePath && script.databaseOpen.Some?
                     && script.construction && !script.ReachesRollback())
  {
    hide ExecuteAll, Text, Truncate, SetupError.Diagnostic;
  }

  lemma DeservedTarget(script: Script)
    ensures Deserved(script).Target() == if script.CommitsCleanly() then Succeeded else Failed
  {
    hide ExecuteAll, FailRuntime, Text, SetupError.Code, SetupError.Diagnostic;
  }

  /** The record tells the times of the run, and the failure that it deserves. */
  predicate Concludes(script: Script, record: Record) {
    && record.startedAt == Some(script.running.now) && record.finishedAt == Some(script.terminal.now)
    && (record.failure.None? <==> script.CommitsCleanly())
    && match Deserved(script)
       case ToFailed(f) =>
         && record.failure.Some? && record.failure.value.kind == f.kind && record.failure.value.code == f.code
         && Cut(f.diagnostic, record.failure.value.diagnostic)
       case _ => true
  }

  lemma StampConcludes(script: Script, running: Record, record: Record)
    requires running.startedAt == Some(script.running.now)
    requires StampedBy(running, record, Deserved(script), script.terminal.now)
    ensures Concludes(script, record)
  {
    hide Deserved, Cut;
    DeservedTarget(script);
  }

  lemma NobodyCompletes(moves: seq<Move>)
    requires forall m :: m in moves ==> m.transition != ToSucceeded
    ensures StateAfter(moves) != Succeeded
  {
    assert moves != [] ==> moves[0] in moves;
  }

  lemma ReportedKind(script: Script, provenance: Provenance, result: Result<(), RunError>, log: Log)
    requires Reported(script, provenance, result, log)
    ensures log.entered && |log.attempts| == 1 && log.attempts[0].transition == Deserved(script)
    ensures result.Ok? <==> script.CommitsCleanly() && FailureOf(log.attempts[0]).None?
    ensures result.Err? ==> !result.error.Transport? && !result.error.Admission? && !result.error.Session?
  {
    hide Deserved, Remains;
  }

  /** `run_processing_runtime_invocation` */
  method RunProcessing(store: SessionStore, envelope: Envelope, script: Script)
    returns (result: Result<(), RunError>, log: Log)
    requires forall m :: m in script.others ==> m.transition != ToSucceeded
    modifies store
    // Until Running is entered nothing happens; from then on the result and the log say what did.
    ensures log.entered
            <==> result.Ok? || !(result.error.Transport? || result.error.Admission? || result.error.Session?)
    ensures !log.entered ==> log == NOTHING && result.error.SessionPersistenceError() == None
    ensures log.entered
            ==> Reported(script, Provenance(envelope.project, envelope.runtime, envelope.session), result, log)
    ensures result == Err(Transport) <==> !script.transport
    ensures result == Err(Admission) <==> script.transport && !script.admission
    ensures result == Err(Session(ContextDecode)) <==> script.transport && script.admission && !script.contextDecode
    ensures result == Err(Session(StoreOpen))
            <==> script.transport && script.admission && script.contextDecode && !script.operationRoot
    // Running is entered exactly when the session binds and both its record and the summary are written.
    ensures log.entered
            <==> && script.Admitted() && Binds(old(store.records), old(store.leases), envelope, script)
                 && script.StartsRunning() && script.running.summary.Written?
    // It succeeds exactly when Core commits, syncs and finds the database clean, nobody else has moved the
    // session, and the terminal transition can read and write what it has to.
    ensures result.Ok?
            <==> && log.entered && script.CommitsCleanly() && Moved(script.others) == 0
                 && script.terminal.readable && script.terminal.record.Written? && script.terminal.summary.Written?
    // What keeps the terminal transition from succeeding, exactly: the session was at this revision when
    // it entered Running, and has been moved on by others.
    ensures log.entered
            ==> && Read(old(store.records), envelope.session, true).Ok?
                && FailureOf(log.attempts[0])
                   == script.TerminalError(Read(old(store.records), envelope.session, true).value.revision + 1)
    // The record is left in the deserved state exactly when the terminal transition reaches it, and
    // otherwise as others have left it.
    ensures log.entered
            ==> StateOf(store.records, envelope.session)
                == Some(if !script.Finishes() then StateAfter(script.others)
                        else if script.CommitsCleanly() then Succeeded else Failed)
    // A record that it reaches says when the session started and ended, and why it failed.
    ensures log.entered && script.Finishes()
            ==> && Read(store.records, envelope.session, true).Ok?
                && Concludes(script, Read(store.records, envelope.session, true).value)
    // It never says Succeeded for a database that Core did not commit, sync and find clean.
    ensures StateOf(store.records, envelope.session) == Some(Succeeded)
            ==> StateOf(old(store.records), envelope.session) == Some(Succeeded)
                || (log.entered && script.CommitsCleanly())
    // Exactly when only the summary cannot be written, the record says Running and nobody finishes the session.
    ensures result == Err(Session(TransitionToRunning(PartialCommit)))
            <==> && script.Admitted() && Binds(old(store.records), old(store.leases), envelope, script)
                 && script.StartsRunning() && !script.running.summary.Written?
    ensures result == Err(Session(TransitionToRunning(PartialCommit)))
            ==> log == NOTHING && StateOf(store.records, envelope.session) == Some(Running)
  {
    hide Decode, ExecuteAll, FailRuntime, Text, SetupError.Code, SetupError.Diagnostic, Deserved, Moved;
    hide StateAfter, Reported, StateOf, Concludes, StampedBy;
    log := NOTHING;
    if !script.transport {
      return Err(Transport), log;
    }
    if !script.admission {
      return Err(Admission), log;
    }
    if !script.contextDecode {
      return Err(Session(ContextDecode)), log;
    }
    if !script.operationRoot {
      return Err(Session(StoreOpen)), log;
    }
    var bound := BindRuntimeSession(store, envelope, script.bindReadable, script.lock);
    if bound.Err? {
      return Err(Session(SessionBinding(bound.error))), log;
    }
    var running := EnterRunning(store, bound.value, script.running);
    if running.Err? {
      return Err(Session(TransitionToRunning(running.error))), log;
    }
    var execution := new RunningExecution(store, running.value);
    Meanwhile(execution, script.others);
    DeservedTarget(script);
    NobodyCompletes(script.others);
    var provenance := Provenance(envelope.project, envelope.runtime, envelope.session);
    result, log := RunEntered(execution, provenance, script);
    ReportedKind(script, provenance, result, log);
    if script.Finishes() {
      StampConcludes(script, running.value, Read(store.records, envelope.session, true).value);
    }
  }

  /**
   * What a run leaves in the database. A success leaves what the handler wrote. A failure that is
   * neither a partial commit nor an uncertain one leaves what was there at BEGIN, exactly when the
   * handler was not called or none of its statements made anything durable; it has none that does
   * unless it opens a transaction of its own.
   */
  lemma DatabaseAfterRun(script: Script, provenance: Provenance, result: Result<(), RunError>, log: Log)
    requires Reported(script, provenance, result, log) && log.database.Some?
    ensures var durable := log.database.value.durable;
            var begin := script.databaseOpen.value;
            && (result.Ok? ==> durable == script.After().working && script.Clean())
            && (result.Err? && result.error.DatabasePartialCommit? && script.After().active
                ==> durable == script.After().working)
            && (result.Err? && !result.error.DatabasePartialCommit? && !result.error.DatabaseCommitOutcomeUncertain?
                ==> && (durable == begin
                        <==> log.handlerCalls == 0 || !MakesDurable(script.Before(), script.statements))
                    && (!Reopens(script.Before(), script.statements) ==> durable == begin))
  {
    DurableExactly(script.Before(), script.statements);
    if script.SetupFailure().None? && script.After().active && !Reopens(script.Before(), script.statements) {
      UndisturbedTransaction(script.Before(), script.statements);
    }
  }

  /** A script in which everything works except the handler, which commits, begins again and fails. */
  function ReopeningScript(io: TransitionIo, row: string): Script {
    Script(true, true, true, true, true, LockTried, io, Ok(()), true, Some([]), true, true,
           [Write(row), Commit(CommitDone), Begin], Err("handler failed"),
           CommitDone, RollbackDone, RollbackDone, true, true, kind => Absent, [], io)
  }

  /**
   * A run in which that fails: whatever its terminal transition comes to, it reports the handler's error
   * like any run that was rolled back, and leaves the handler's row on disk.
   */
  lemma ReopenedRun(provenance: Provenance, io: TransitionIo, row: string, outcome: Result<Record, StoreError>)
    ensures var script := ReopeningScript(io, row);
            var error := match FailureOf(Attempt(ToFailed(SourceFailure()), outcome))
                         case None => Handler("handler failed")
                         case Some(e) => HandlerAndPersistenceFailure("handler failed", e);
            var log := Log(true, 1, [Attempt(ToFailed(SourceFailure()), outcome)], Some(Database([row], [row], false)));
            && Reported(script, provenance, Err(error), log)
            && script.databaseOpen == Some([]) && log.database.value.durable == [row]
            && forall result, other :: Reported(script, provenance, result, other)
                                       ==> && result.Err? && result.error.HandlerError() == Some("handler failed")
                                           && other.database.Some? && other.database.value.durable == [row]
  {
    hide SourceFailure;
    var script := ReopeningScript(io, row);
    ReopenedTransaction(row);
    assert script.SetupFailure().None? && script.After() == Database([row], [row], true);
  }

  /** Core cannot see a transaction that the handler reopened: here rows stay although it is rolled back. */
  lemma ReopenedTransaction(row: string)
    ensures var steps, start := [Write(row), Commit(CommitDone), Begin], Database([], [], true);
            && Reopens(start, steps) && ExecuteAll(start, steps) == Database([row], [row], true)
            && Execute(ExecuteAll(start, steps), Rollback(RollbackDone)).durable == [row]
  {
    var steps := [Write(row), Commit(CommitDone), Begin];
    var db1 := Execute(Database([], [], true), steps[0]);
    var db2 := Execute(db1, steps[1]);
    assert db1.working == [] + [row] == [row];
    assert steps[1..][0] == steps[1] && steps[1..][1..] == [Begin];
    assert ExecuteAll(db2, [Begin]) == ExecuteAll(Execute(db2, Begin), []);
    assert Reopens(db2, [Begin]);
  }

  /** A script in which only the summary of the transition to Running cannot be written. */
  function StrandingScript(t: Timestamp): Script {
    ReopeningScript(TransitionIo(true, t, Written, t, NotPersisted), "")
  }

  /** Every session can be left Running that way. */
  lemma StrandedRun(envelope: Envelope, t: Timestamp)
    ensures var input := NewRecord(envelope.project, envelope.runtime, envelope.runtime.operation,
                                   envelope.mode, envelope.supervision);
            var records := map[envelope.session := ToDocument(NewPrepared(input, envelope.session, t))];
            var script := StrandingScript(t);
            && script.Admitted() && Binds(records, {envelope.session}, envelope, script)
            && script.StartsRunning() && !script.running.summary.Written?
  {
    var input := NewRecord(envelope.project, envelope.runtime, envelope.runtime.operation,
                           envelope.mode, envelope.supervision);
    RecordRoundTrip(NewPrepared(input, envelope.session, t));
  }
}
