/**
 * Session records: their state machine, and the documents they are stored as.
 * The JSON text of a document is not modelled; a document is what serde reads and writes.
 */
module SessionModel {
  import opened Wrappers
  import Utf8

  type Timestamp = n: int | 0 <= n < 0x1_0000_0000_0000_0000
  type U32 = n: int | 0 <= n < 0x1_0000_0000

  const SCHEMA_VERSION: U32 := 1
  const MAX_FAILURE_SUMMARY_BYTES: nat := 4096

  // ---- Identities ----

  predicate SafeComponent(value: string) {
    && value != "" && value != "." && value != ".."
    && forall c :: c in value ==> c != '/' && c != '\\' && !AsciiControl(c)
  }

  predicate AsciiControl(c: char) {
    c as int < 0x20 || c as int == 0x7F
  }

  type Identity = s: string | SafeComponent(s) witness "s"

  datatype Operation = Acquisition | Processing {
    function Identifier(): string {
      match this
      case Acquisition => "acquisition"
      case Processing => "processing"
    }
  }

  datatype ExecutionMode = Run | Resume {
    function Identifier(): string {
      match this
      case Run => "run"
      case Resume => "resume"
    }
  }

  datatype Supervision = Foreground | Background {
    function Identifier(): string {
      match this
      case Foreground => "foreground"
      case Background => "background"
    }
  }

  /** Every runtime speaks HTTP, the only protocol there is. */
  datatype Runtime = Runtime(source: string, operation: Operation, contractVersion: U32)

  function ParseOperation(text: string): Option<Operation> {
    if text == "acquisition" then Some(Acquisition)
    else if text == "processing" then Some(Processing)
    else None
  }

  function ParseExecutionMode(text: string): Option<ExecutionMode> {
    if text == "run" then Some(Run)
    else if text == "resume" then Some(Resume)
    else None
  }

  function ParseSupervision(text: string): Option<Supervision> {
    if text == "foreground" then Some(Foreground)
    else if text == "background" then Some(Background)
    else None
  }

  // ---- Failures ----

  datatype FailureKind = Source | RuntimeFailure | AbnormalTermination | StaleOwnership

  datatype FailureCode =
    | SourceReturnedError
    | RuntimeInitializationFailed
    | RuntimeContextInvalid
    | HandlerStateUnavailable
    | LaunchFailed
    | TerminatedAbnormally
    | OwnershipStale
    | InvocationConstructionFailed
    | InvocationEncodingFailed
    | ExecutableIntegrityFailed
    | ZeroExitWithoutCompletion
    | NonzeroExitWithoutFailureRecord
    | TransactionDiscoveryFailed
    | TransactionProvenanceFailed
    | DatabasePathInvalid
    | DatabaseOpenFailed
    | DatabaseTransactionFailed
    | ContextConstructionFailed
    | HandlerPanicked

  datatype Failure = Failure(kind: FailureKind, code: FailureCode, diagnostic: Option<string>)

  function Truncate(diagnostic: Option<string>): Option<string> {
    match diagnostic
    case None => None
    case Some(text) => Some(text[..Utf8.Fitting(text, MAX_FAILURE_SUMMARY_BYTES)])
  }

  /** `SafeSessionFailure::new`, and again `SessionFailureV1::new`: both truncate. */
  function NewFailure(kind: FailureKind, code: FailureCode, diagnostic: Option<string>): Failure {
    Failure(kind, code, Truncate(diagnostic))
  }

  function SourceFailure(): Failure {
    NewFailure(Source, SourceReturnedError, Some("source handler returned an error"))
  }

  function StaleOwnershipFailure(): Failure {
    NewFailure(StaleOwnership, OwnershipStale,
               Some("stale session ownership: prior process terminated without completing"))
  }

  predicate Bounded(failure: Failure) {
    failure.diagnostic.Some? ==> |Utf8.Encode(failure.diagnostic.value)| <= MAX_FAILURE_SUMMARY_BYTES
  }

  /** What fits is kept whole: the second truncation, on the way to the record, changes nothing. */
  lemma {:induction false} FittingText(text: string, max: nat)
    requires |Utf8.Encode(text)| <= max
    ensures Utf8.Fitting(text, max) == |text|
    decreases |text|
  {
    if text != "" {
      FittingText(text[1..], max - |Utf8.EncodeChar(text[0])|);
    }
  }

  /** The longest beginning of a diagnostic, in whole characters, that fits in the bytes allowed. */
  predicate Cut(diagnostic: Option<string>, kept: Option<string>) {
    match diagnostic
    case None => kept.None?
    case Some(text) =>
      && kept.Some? && kept.value <= text
      && |Utf8.Encode(kept.value)| <= MAX_FAILURE_SUMMARY_BYTES
      && (kept.value != text ==> |Utf8.Encode(text[..|kept.value| + 1])| > MAX_FAILURE_SUMMARY_BYTES)
  }

  /** A failure has the kind and the code it is made with, and its diagnostic is cut, once. */
  lemma TruncatedOnce(kind: FailureKind, code: FailureCode, diagnostic: Option<string>)
    ensures var failure := NewFailure(kind, code, diagnostic);
            && failure.kind == kind && failure.code == code && Cut(diagnostic, failure.diagnostic)
            && Bounded(failure) && NewFailure(kind, code, failure.diagnostic) == failure
  {
    if diagnostic.Some? {
      var text := diagnostic.value;
      Utf8.FittingIsLongest(text, MAX_FAILURE_SUMMARY_BYTES);
      var kept := text[..Utf8.Fitting(text, MAX_FAILURE_SUMMARY_BYTES)];
      FittingText(kept, MAX_FAILURE_SUMMARY_BYTES);
      assert kept[..|kept|] == kept;
    }
  }

  // ---- The state machine ----

  datatype State = Prepared | Running | Succeeded | Failed | Abandoned {
    predicate Terminal() {
      Succeeded? || Failed? || Abandoned?
    }
  }

  datatype Transition = ToRunning | ToSucceeded | ToFailed(failure: Failure) | ToAbandoned {
    function Target(): State {
      match this
      case ToRunning => Running
      case ToSucceeded => Succeeded
      case ToFailed(_) => Failed
      case ToAbandoned => Abandoned
    }
  }

  datatype TransitionError = InvalidTransition(from: State, to: State) | TerminalStateReached(state: State)

  function ValidateTransition(current: State, transition: Transition): Result<(), TransitionError> {
    var target := transition.Target();
    if current.Terminal() && target != Abandoned && (current == Succeeded || current == Abandoned) then
      Err(TerminalStateReached(current))
    else
      var allowed := match (current, target)
        case (Prepared, Running) => true
        case (Prepared, Failed) => true
        case (Prepared, Abandoned) => true
        case (Running, Succeeded) => true
        case (Running, Failed) => true
        case (Running, Abandoned) => true
        case (Failed, Abandoned) => true
        case _ => false;
      if allowed then Ok(()) else Err(InvalidTransition(current, target))
  }

  /** How far along a session is. */
  function Rank(state: State): nat {
    match state
    case Prepared => 0
    case Running => 1
    case Succeeded => 2
    case Failed => 2
    case Abandoned => 3
  }

  /** Transitions only ever move forward; Succeeded is final, and is reached only by running. */
  lemma TransitionsAscend(current: State, transition: Transition)
    ensures ValidateTransition(current, transition).Ok?
            <==> Rank(current) < Rank(transition.Target())
                 && current != Succeeded
                 && !(current == Prepared && transition.Target() == Succeeded)
  {
    match transition
    case ToRunning =>
    case ToSucceeded =>
    case ToFailed(_) =>
    case ToAbandoned =>
  }

  /** A refusal says from where to where, unless the session has succeeded or been abandoned for good. */
  lemma RefusalsAreNamed(current: State, transition: Transition)
    requires ValidateTransition(current, transition).Err?
    ensures var target, error := transition.Target(), ValidateTransition(current, transition).error;
            && (current in {Succeeded, Abandoned} && target != Abandoned ==> error == TerminalStateReached(current))
            && (current !in {Succeeded, Abandoned} || target == Abandoned
                ==> error == InvalidTransition(current, target))
  {
    match transition
    case ToRunning =>
    case ToSucceeded =>
    case ToFailed(_) =>
    case ToAbandoned =>
  }

  // ---- Records ----

  datatype Record = Record(
    schemaVersion: U32, project: Identity, runtime: Runtime, session: Identity, operation: Operation,
    mode: ExecutionMode, supervision: Supervision, state: State, revision: nat,
    createdAt: Timestamp, updatedAt: Timestamp,
    startedAt: Option<Timestamp>, finishedAt: Option<Timestamp>, failure: Option<Failure>)

  datatype NewRecord = NewRecord(
    project: Identity, runtime: Runtime, operation: Operation, mode: ExecutionMode, supervision: Supervision)

  function NewPrepared(input: NewRecord, session: Identity, now: Timestamp): Record {
    Record(SCHEMA_VERSION, input.project, input.runtime, session, input.operation,
           input.mode, input.supervision, Prepared, 0, now, now, None, None, None)
  }

  function ApplyTransition(record: Record, transition: Transition, now: Timestamp): Record {
    var applied := match transition
      case ToRunning => record.(startedAt := Some(now))
      case ToSucceeded => record.(finishedAt := Some(now))
      case ToFailed(f) =>
        record.(finishedAt := Some(now), failure := Some(NewFailure(f.kind, f.code, f.diagnostic)))
      case ToAbandoned => record.(finishedAt := Some(now), failure := None);
    applied.(state := transition.Target(), revision := record.revision + 1, updatedAt := now)
  }

  /** The fields that no transition may touch. */
  function Origin(record: Record): (NewRecord, Identity, Timestamp, U32) {
    (NewRecord(record.project, record.runtime, record.operation, record.mode, record.supervision),
     record.session, record.createdAt, record.schemaVersion)
  }

  datatype Move = Move(transition: Transition, now: Timestamp)

  /** The record after a run of transitions, if every one of them is accepted. */
  function After(record: Record, moves: seq<Move>): Option<Record> {
    if moves == [] then Some(record)
    else
      var before := After(record, moves[..|moves| - 1]);
      var last := moves[|moves| - 1];
      if before.Some? && ValidateTransition(before.value.state, last.transition).Ok?
      then Some(ApplyTransition(before.value, last.transition, last.now))
      else None
  }

  predicate Accepted(input: NewRecord, session: Identity, created: Timestamp, moves: seq<Move>) {
    After(NewPrepared(input, session, created), moves).Some?
  }

  /**
   * Every record that accepted transitions lead to, whatever the clock says: it is well formed, keeps
   * its origin, and counts its transitions, of which there are at most three.
   */
  lemma {:induction false} ReachableRecord(input: NewRecord, session: Identity, created: Timestamp, moves: seq<Move>)
    requires Accepted(input, session, created, moves)
    ensures var r := After(NewPrepared(input, session, created), moves).value;
            && InvariantOf(r).Ok?
            && Origin(r) == (input, session, created, SCHEMA_VERSION)
            && r.revision == |moves| <= Rank(r.state) <= 3
            && r.updatedAt == (if moves == [] then created else moves[|moves| - 1].now)
            && (r.failure.Some? ==> Bounded(r.failure.value))
    decreases |moves|
  {
    if moves != [] {
      var last := moves[|moves| - 1];
      ReachableRecord(input, session, created, moves[..|moves| - 1]);
      var before := After(NewPrepared(input, session, created), moves[..|moves| - 1]).value;
      TransitionsAscend(before.state, last.transition);
      if last.transition.ToFailed? {
        var f := last.transition.failure;
        TruncatedOnce(f.kind, f.code, f.diagnostic);
      }
    }
  }

  /** What the moves alone say about a record's state, its times and its failure. */
  ghost predicate ToldBy(record: Record, moves: seq<Move>) {
    // The session has started at the time of its move to Running, if it was moved there.
    && (forall t: Timestamp :: record.startedAt == Some(t) <==> Move(ToRunning, t) in moves)
    && (moves == [] ==> record.state == Prepared && record.finishedAt.None? && record.failure.None?)
    && (moves != [] ==>
          var last := moves[|moves| - 1];
          && record.state == last.transition.Target()
          // It has finished at the time of its last move, if that was a move to its end.
          && record.finishedAt == (if last.transition.Target().Terminal() then Some(last.now) else None)
          // Its failure is the one that it was last moved with.
          && (match last.transition
              case ToFailed(f) =>
                && record.failure.Some? && record.failure.value.kind == f.kind
                && record.failure.value.code == f.code && Cut(f.diagnostic, record.failure.value.diagnostic)
              case _ => record.failure.None?))
  }

  lemma LastMove(record: Record, moves: seq<Move>)
    requires moves != [] && After(record, moves).Some?
    ensures var init, last := moves[..|moves| - 1], moves[|moves| - 1];
            && moves == init + [last] && After(record, init).Some?
            && ValidateTransition(After(record, init).value.state, last.transition).Ok?
            && After(record, moves) == Some(ApplyTransition(After(record, init).value, last.transition, last.now))
  {
  }

  /** One more move is told about like the ones before it. */
  lemma TellsOn(record: Record, moves: seq<Move>, last: Move)
    requires ToldBy(record, moves) && InvariantOf(record).Ok?
    requires ValidateTransition(record.state, last.transition).Ok?
    ensures ToldBy(ApplyTransition(record, last.transition, last.now), moves + [last])
  {
    hide ValidateTransition, Cut, NewFailure;
    var next, all := ApplyTransition(record, last.transition, last.now), moves + [last];
    TransitionsAscend(record.state, last.transition);
    assert all[|all| - 1] == last;
    match last.transition {
      case ToFailed(f) =>
        TruncatedOnce(f.kind, f.code, f.diagnostic);
      case _ =>
    }
    forall t: Timestamp ensures next.startedAt == Some(t) <==> Move(ToRunning, t) in all {
      assert Move(ToRunning, t) in all <==> Move(ToRunning, t) in moves || Move(ToRunning, t) == last;
    }
  }

  /** State, times and failure of every record that accepted transitions lead to are what its moves say. */
  lemma {:induction false} ReachableTimes(input: NewRecord, session: Identity, created: Timestamp, moves: seq<Move>)
    requires Accepted(input, session, created, moves)
    ensures ToldBy(After(NewPrepared(input, session, created), moves).value, moves)
    decreases |moves|
  {
    hide After, InvariantOf, ToldBy, ApplyTransition, ValidateTransition;
    var start := NewPrepared(input, session, created);
    if moves == [] {
      Untold(start);
    } else {
      var init := moves[..|moves| - 1];
      LastMove(start, moves);
      ReachableTimes(input, session, created, init);
      ReachableRecord(input, session, created, init);
      TellsOn(After(start, init).value, init, moves[|moves| - 1]);
    }
  }

  lemma Untold(record: Record)
    requires record.state == Prepared && record.startedAt.None? && record.finishedAt.None? && record.failure.None?
    ensures After(record, []) == Some(record) && ToldBy(record, [])
  {
  }

  /** The bound of three transitions is met. */
  lemma ThreeTransitions(input: NewRecord, session: Identity, t: Timestamp)
    ensures Accepted(input, session, t, [Move(ToRunning, t), Move(ToFailed(SourceFailure()), t), Move(ToAbandoned, t)])
  {
    var start := NewPrepared(input, session, t);
    var m := [Move(ToRunning, t), Move(ToFailed(SourceFailure()), t), Move(ToAbandoned, t)];
    assert m[..2][..1][..0] == [] && m[..2][..1] == m[..1];
    assert After(start, m[..1]) == Some(ApplyTransition(start, ToRunning, t));
    assert After(start, m[..2]).Some? && After(start, m[..2]).value.state == Failed;
  }

  // ---- Stored documents ----

  datatype RuntimeDocument = RuntimeDocument(source: string, protocol: string, operation: string, contractVersion: U32)

  datatype Document = Document(
    schemaVersion: U32, projectName: string, runtime: RuntimeDocument, sessionId: string, operation: Operation,
    mode: string, supervision: string, state: State, revision: nat,
    createdAt: Timestamp, updatedAt: Timestamp,
    startedAt: Option<Timestamp>, finishedAt: Option<Timestamp>, failure: Option<Failure>)

  datatype DecodingError =
    | UnknownSchemaVersion(version: U32)
    | UnknownField(field: string, value: string)
    | InvalidInvariant(message: string)

  function ToDocument(record: Record): Document {
    Document(record.schemaVersion, record.project,
             RuntimeDocument(record.runtime.source, "http", record.runtime.operation.Identifier(),
                             record.runtime.contractVersion),
             record.session, record.operation, record.mode.Identifier(), record.supervision.Identifier(),
             record.state, record.revision, record.createdAt, record.updatedAt,
             record.startedAt, record.finishedAt, record.failure)
  }

  /** `validate_record_invariants` */
  function ValidateTimes(state: State, startedAt: Option<Timestamp>, finishedAt: Option<Timestamp>,
                         failure: Option<Failure>): Result<(), DecodingError>
  {
    match state
    case Prepared =>
      if startedAt.Some? then Err(InvalidInvariant("started_at must not be set in Prepared state"))
      else if finishedAt.Some? then Err(InvalidInvariant("finished_at must not be set in Prepared state"))
      else if failure.Some? then Err(InvalidInvariant("failure must not be set in Prepared state"))
      else Ok(())
    case Running =>
      if startedAt.None? then Err(InvalidInvariant("started_at must be set in Running state"))
      else if finishedAt.Some? then Err(InvalidInvariant("finished_at must not be set in Running state"))
      else if failure.Some? then Err(InvalidInvariant("failure must not be set in Running state"))
      else Ok(())
    case Succeeded =>
      if startedAt.None? then Err(InvalidInvariant("started_at must be set in Succeeded state"))
      else if finishedAt.None? then Err(InvalidInvariant("finished_at must be set in Succeeded state"))
      else if failure.Some? then Err(InvalidInvariant("failure must not be set in Succeeded state"))
      else Ok(())
    case Failed =>
      if finishedAt.None? then Err(InvalidInvariant("finished_at must be set in Failed state"))
      else if failure.None? then Err(InvalidInvariant("failure must be set in Failed state"))
      else Ok(())
    case Abandoned =>
      if finishedAt.None? then Err(InvalidInvariant("finished_at must be set in Abandoned state"))
      else if failure.Some? then Err(InvalidInvariant("failure must not be set in Abandoned state"))
      else Ok(())
  }

  function InvariantOf(record: Record): Result<(), DecodingError> {
    ValidateTimes(record.state, record.startedAt, record.finishedAt, record.failure)
  }

  /** `SessionRecordV1::from_json`, from the document that serde delivers. */
  function Decode(doc: Document): Result<Record, DecodingError> {
    if doc.schemaVersion != SCHEMA_VERSION then Err(UnknownSchemaVersion(doc.schemaVersion))
    else
      var _ :- ValidateTimes(doc.state, doc.startedAt, doc.finishedAt, doc.failure);
      if !SafeComponent(doc.projectName) then Err(InvalidInvariant("invalid project name"))
      else if doc.runtime.protocol != "http" then Err(UnknownField("protocol", doc.runtime.protocol))
      else
        var operation := ParseOperation(doc.runtime.operation);
        if operation.None? then Err(UnknownField("operation", doc.runtime.operation))
        else if !SafeComponent(doc.sessionId) then Err(InvalidInvariant("invalid session id"))
        else
          var mode := ParseExecutionMode(doc.mode);
          if mode.None? then Err(UnknownField("execution_mode", doc.mode))
          else
            var supervision := ParseSupervision(doc.supervision);
            if supervision.None? then Err(UnknownField("supervision_mode", doc.supervision))
            else if operation.value != doc.operation then
              Err(InvalidInvariant("session operation does not agree with runtime operation"))
            else
              Ok(Record(doc.schemaVersion, doc.projectName,
                        Runtime(doc.runtime.source, operation.value, doc.runtime.contractVersion),
                        doc.sessionId, doc.operation, mode.value, supervision.value, doc.state, doc.revision,
                        doc.createdAt, doc.updatedAt, doc.startedAt, doc.finishedAt, doc.failure))
  }

  /** The records that the store may hold. */
  predicate Storable(record: Record) {
    && record.schemaVersion == SCHEMA_VERSION
    && InvariantOf(record).Ok?
    && record.operation == record.runtime.operation
  }

  lemma Identifiers(operation: Operation, mode: ExecutionMode, supervision: Supervision)
    ensures ParseOperation(operation.Identifier()) == Some(operation)
    ensures ParseExecutionMode(mode.Identifier()) == Some(mode)
    ensures ParseSupervision(supervision.Identifier()) == Some(supervision)
  {
    assert "acquisition"[0] != "processing"[0] && |"run"| != |"resume"| && "foreground"[0] != "background"[0];
  }

  /** Decoding undoes encoding on exactly the storable records. */
  lemma RecordRoundTrip(record: Record)
    ensures Decode(ToDocument(record)) == Ok(record) <==> Storable(record)
  {
    Identifiers(record.runtime.operation, record.mode, record.supervision);
  }

  /** Whatever a record's document decodes to is that record. */
  lemma DecodesToItself(record: Record)
    requires Decode(ToDocument(record)).Ok?
    ensures Decode(ToDocument(record)) == Ok(record)
  {
    Identifiers(record.runtime.operation, record.mode, record.supervision);
  }

  /** Encoding undoes decoding: a document that decodes is the encoding of what it decodes to. */
  lemma DocumentRoundTrip(doc: Document)
    requires Decode(doc).Ok?
    ensures Storable(Decode(doc).value) && ToDocument(Decode(doc).value) == doc
  {
  }

  /**
   * A record created for a runtime of the same operation never reads back as corrupt, at any point of
   * its life; a record created with disagreeing operations always does.
   */
  lemma ReachableRoundTrip(input: NewRecord, session: Identity, created: Timestamp, moves: seq<Move>)
    requires Accepted(input, session, created, moves)
    ensures var r := After(NewPrepared(input, session, created), moves).value;
            Decode(ToDocument(r)) == Ok(r) <==> input.operation == input.runtime.operation
  {
    ReachableRecord(input, session, created, moves);
    RecordRoundTrip(After(NewPrepared(input, session, created), moves).value);
  }

  // ---- The status summary ----

  datatype Status = Status(
    schemaVersion: U32, project: Identity, runtime: Runtime, operation: Operation,
    currentSession: Option<Identity>, currentState: Option<State>, revision: nat, updatedAt: Timestamp)

  function StatusFromRecord(record: Record, now: Timestamp): Status {
    Status(SCHEMA_VERSION, record.project, record.runtime, record.operation,
           Some(record.session), Some(record.state), record.revision, now)
  }

  /** The summary says what the record says, at whatever time it was written. */
  predicate Projects(status: Status, record: Record) {
    && status.schemaVersion == SCHEMA_VERSION && status.project == record.project
    && status.runtime == record.runtime && status.operation == record.operation
    && status.currentSession == Some(record.session) && status.currentState == Some(record.state)
    && status.revision == record.revision
  }
}
