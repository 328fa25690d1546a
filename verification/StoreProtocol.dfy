/**
 * Any number of processes using one session store at once, and crashing whenever they like.
 *
 * A step reads, checks and writes one record file, or writes the status file, or takes or drops a lock.
 * Reading, checking and writing a record is one step here although it is several file operations; see
 * README.md. Between steps anything may happen.
 */
module StoreProtocol {
  import opened Wrappers
  import opened SessionModel
  import opened SessionStore

  /** The life of one record file: how it was created and what has been applied to it since. */
  datatype Life = Life(input: NewRecord, created: Timestamp, moves: seq<Move>)

  type Pid = nat

  /** What a process is in the middle of. */
  datatype Local =
    | Idle
    | Summarising(record: Record)
    | Rebuilding(record: Record)
    | Reconciling(record: Record)
    | Holding(record: Record)
    | ReconcileSummarising(record: Record)
    | Dead

  datatype Purpose = Supervising | Reconciliation

  datatype Holder = Holder(pid: Pid, purpose: Purpose)

  datatype World = World(lives: map<Identity, Life>, status: Option<Status>,
                         leases: map<Identity, Holder>, locals: map<Pid, Local>)

  datatype Action =
    | Create(input: NewRecord, session: Identity, now: Timestamp)
    | Transit(session: Identity, expected: nat, transition: Transition, io: TransitionIo)
    | WriteSummary(now: Timestamp, written: bool)
    | RebuildLoad(session: Identity, readable: bool)
    | RebuildWrite(now: Timestamp, written: bool)
    | Acquire(session: Identity)
    | Release(session: Identity)
    | ReconcileLoad(session: Identity, readable: bool)
    | ReconcileAcquire(lock: LeaseIo)
    | ReconcileTransit(io: TransitionIo)
    | ReconcileSummary(now: Timestamp, written: bool)
    | Crash

  datatype Step = Step(pid: Pid, action: Action)

  const START := World(map[], None, map[], map[])

  function Doing(w: World, pid: Pid): Local {
    if pid in w.locals then w.locals[pid] else Idle
  }

  function Become(w: World, pid: Pid, local: Local): World {
    w.(locals := w.locals[pid := local])
  }

  /** A life is a run of accepted transitions. */
  predicate Lives(session: Identity, life: Life) {
    Accepted(life.input, session, life.created, life.moves)
  }

  /** The record of a session at a revision. */
  function RecordAt(session: Identity, life: Life, revision: nat): Option<Record>
    requires revision <= |life.moves|
  {
    SessionModel.After(NewPrepared(life.input, session, life.created), life.moves[..revision])
  }

  function Current(session: Identity, life: Life): Option<Record> {
    RecordAt(session, life, |life.moves|)
  }

  /** What the record files hold. */
  function Files(w: World): Records {
    map session | session in w.lives && Current(session, w.lives[session]).Some?
      :: ToDocument(Current(session, w.lives[session]).value)
  }

  function TakeCreate(w: World, pid: Pid, input: NewRecord, session: Identity, now: Timestamp): World {
    if session in w.lives then w
    else Become(w.(lives := w.lives[session := Life(input, now, [])]), pid,
                Summarising(NewPrepared(input, session, now)))
  }

  function TakeTransit(w: World, pid: Pid, session: Identity, expected: nat, transition: Transition, io: TransitionIo)
    : World
  {
    var decided := Decide(Read(Files(w), session, io.readable), expected, transition, io.now);
    if decided.Ok? && io.record.Written?
    then Become(Append(w, session, Move(transition, io.now)), pid, Summarising(decided.value))
    else w
  }

  function TakeLoad(w: World, pid: Pid, session: Identity, readable: bool, reconcile: bool): World {
    var loaded := Read(Files(w), session, readable);
    if loaded.Err? || (reconcile && loaded.value.state.Terminal()) then w
    else Become(w, pid, if reconcile then Reconciling(loaded.value) else Rebuilding(loaded.value))
  }

  function TakeAcquire(w: World, pid: Pid, session: Identity): World {
    if session in w.leases then w else w.(leases := w.leases[session := Holder(pid, Supervising)])
  }

  function TakeRelease(w: World, pid: Pid, session: Identity): World {
    if session in w.leases && w.leases[session].pid == pid then Unlock(w, session) else w
  }

  function TakeReconcileAcquire(w: World, pid: Pid, record: Record, lock: LeaseIo): World {
    if lock.LockFailed? || record.session in w.leases then Become(w, pid, Idle)
    else Become(w.(leases := w.leases[record.session := Holder(pid, Reconciliation)]), pid, Holding(record))
  }

  function TakeReconcileTransit(w: World, pid: Pid, record: Record, io: TransitionIo): World {
    var stale := ToFailed(StaleOwnershipFailure());
    var decided := Decide(Read(Files(w), record.session, io.readable), record.revision, stale, io.now);
    if decided.Ok? && io.record.Written?
    then Become(Append(w, record.session, Move(stale, io.now)), pid, ReconcileSummarising(decided.value))
    else Become(Unlock(w, record.session), pid, Idle)
  }

  function TakeCrash(w: World, pid: Pid): World {
    Become(w.(leases := map s | s in w.leases && w.leases[s].pid != pid :: w.leases[s]), pid, Dead)
  }

  /** One step of one process. A step that the process is in no position to take changes nothing. */
  function Take(w: World, step: Step): World {
    var pid := step.pid;
    match (Doing(w, pid), step.action)
    case (Idle, Create(input, session, now)) => TakeCreate(w, pid, input, session, now)
    case (Idle, Transit(session, expected, transition, io)) => TakeTransit(w, pid, session, expected, transition, io)
    case (Summarising(record), WriteSummary(now, written)) => Become(Summarise(w, record, now, written), pid, Idle)
    case (Idle, RebuildLoad(session, readable)) => TakeLoad(w, pid, session, readable, false)
    case (Rebuilding(record), RebuildWrite(now, written)) => Become(Summarise(w, record, now, written), pid, Idle)
    case (Idle, Acquire(session)) => TakeAcquire(w, pid, session)
    case (Idle, Release(session)) => TakeRelease(w, pid, session)
    case (Idle, ReconcileLoad(session, readable)) => TakeLoad(w, pid, session, readable, true)
    case (Reconciling(record), ReconcileAcquire(lock)) => TakeReconcileAcquire(w, pid, record, lock)
    case (Holding(record), ReconcileTransit(io)) => TakeReconcileTransit(w, pid, record, io)
    case (ReconcileSummarising(record), ReconcileSummary(now, written)) =>
      Become(Unlock(Summarise(w, record, now, written), record.session), pid, Idle)
    case (_, Crash) => TakeCrash(w, pid)
    case _ => w
  }

  function Append(w: World, session: Identity, move: Move): World {
    if session in w.lives
    then w.(lives := w.lives[session := w.lives[session].(moves := w.lives[session].moves + [move])])
    else w
  }

  function Summarise(w: World, record: Record, now: Timestamp, written: bool): World {
    if written then w.(status := Some(StatusFromRecord(record, now))) else w
  }

  function Unlock(w: World, session: Identity): World {
    w.(leases := w.leases - {session})
  }

  function Run(w: World, steps: seq<Step>): World {
    if steps == [] then w else Take(Run(w, steps[..|steps| - 1]), steps[|steps| - 1])
  }

  // ---- What every world that can arise looks like ----

  /** A record that was once the contents of its session's file. */
  predicate Durable(w: World, record: Record) {
    && record.session in w.lives
    && record.revision <= |w.lives[record.session].moves|
    && RecordAt(record.session, w.lives[record.session], record.revision) == Some(record)
  }

  /** The summary describes a record that was already durable when it was written. */
  predicate StatusDurable(w: World) {
    w.status.Some?
    ==> var status := w.status.value;
        && status.currentSession.Some? && status.currentSession.value in w.lives
        && var session := status.currentSession.value;
        && status.revision <= |w.lives[session].moves|
        && RecordAt(session, w.lives[session], status.revision).Some?
        && Projects(status, RecordAt(session, w.lives[session], status.revision).value)
  }

  predicate LocalSound(w: World, pid: Pid) {
    match Doing(w, pid)
    case Idle => true
    case Dead => true
    case Summarising(record) => Durable(w, record)
    case Rebuilding(record) => Durable(w, record)
    case Reconciling(record) => Durable(w, record) && !record.state.Terminal()
    case Holding(record) =>
      && Durable(w, record) && !record.state.Terminal()
      && record.session in w.leases && w.leases[record.session] == Holder(pid, Reconciliation)
    case ReconcileSummarising(record) =>
      && Durable(w, record) && Reconciled(w, record)
      && record.session in w.leases && w.leases[record.session] == Holder(pid, Reconciliation)
  }

  /** The record of a session that reconciliation has just failed: the one before it was unfinished. */
  predicate Reconciled(w: World, record: Record)
    requires Durable(w, record)
  {
    && record.state == Failed && record.failure == Some(StaleOwnershipFailure())
    && record.revision > 0
    && var before := RecordAt(record.session, w.lives[record.session], record.revision - 1);
    && before.Some? && !before.value.state.Terminal()
  }

  /**
   * A lease belongs to a live process; one taken for reconciliation, to a process that is still
   * reconciling that session.
   */
  predicate LeaseSound(w: World, session: Identity)
    requires session in w.leases
  {
    var holder := w.leases[session];
    var local := Doing(w, holder.pid);
    && !local.Dead?
    && (holder.purpose.Reconciliation?
        ==> (local.Holding? || local.ReconcileSummarising?) && local.record.session == session)
  }

  ghost predicate Sound(w: World) {
    && (forall session :: session in w.lives ==> Lives(session, w.lives[session]))
    && StatusDurable(w)
    && (forall pid :: LocalSound(w, pid))
    && (forall session :: session in w.leases ==> LeaseSound(w, session))
  }

  /** Lives only ever grow. */
  ghost predicate Extends(w: World, later: World) {
    forall session :: session in w.lives ==> session in later.lives && Continues(w.lives[session], later.lives[session])
  }

  predicate Continues(life: Life, later: Life) {
    life.input == later.input && life.created == later.created && life.moves <= later.moves
  }

  // ---- Steps keep worlds sound ----

  lemma RecordStays(session: Identity, life: Life, later: Life, revision: nat)
    requires Continues(life, later) && revision <= |life.moves|
    ensures RecordAt(session, life, revision) == RecordAt(session, later, revision)
  {
    assert later.moves[..|life.moves|] == life.moves;
    assert later.moves[..revision] == life.moves[..revision];
  }

  lemma DurableStays(w: World, later: World, record: Record)
    requires Extends(w, later) && Durable(w, record)
    ensures Durable(later, record)
    ensures Reconciled(w, record) ==> Reconciled(later, record)
  {
    RecordStays(record.session, w.lives[record.session], later.lives[record.session], record.revision);
    if record.revision > 0 {
      RecordStays(record.session, w.lives[record.session], later.lives[record.session], record.revision - 1);
    }
  }

  lemma StatusStays(w: World, later: World)
    requires Extends(w, later) && StatusDurable(w) && later.status == w.status
    ensures StatusDurable(later)
  {
    if w.status.Some? {
      var session := w.status.value.currentSession.value;
      RecordStays(session, w.lives[session], later.lives[session], w.status.value.revision);
    }
  }

  /** Summarising a durable record makes the status its projection. */
  lemma SummaryDurable(w: World, record: Record, now: Timestamp, written: bool)
    requires Durable(w, record) && StatusDurable(w)
    ensures StatusDurable(Summarise(w, record, now, written))
  {
  }

  /** The leases of one process are left alone. */
  ghost predicate KeepsLeases(w: World, later: World, pid: Pid) {
    forall session :: session in w.leases && w.leases[session].pid == pid
                      ==> session in later.leases && later.leases[session] == w.leases[session]
  }

  lemma LocalStays(w: World, later: World, pid: Pid)
    requires LocalSound(w, pid) && Doing(later, pid) == Doing(w, pid)
    requires Extends(w, later) && KeepsLeases(w, later, pid)
    ensures LocalSound(later, pid)
  {
    hide Durable, Reconciled, Extends;
    match Doing(w, pid)
    case Idle =>
    case Dead =>
    case Summarising(record) => DurableStays(w, later, record);
    case Rebuilding(record) => DurableStays(w, later, record);
    case Reconciling(record) => DurableStays(w, later, record);
    case Holding(record) => DurableStays(w, later, record);
    case ReconcileSummarising(record) => DurableStays(w, later, record);
  }

  lemma FileOf(w: World, session: Identity)
    requires session in w.lives && Lives(session, w.lives[session])
    ensures var life := w.lives[session];
            && Current(session, life).Some?
            && Current(session, life).value.revision == |life.moves|
            && Current(session, life).value.session == session
            && session in Files(w) && Files(w)[session] == ToDocument(Current(session, life).value)
  {
    var life := w.lives[session];
    assert life.moves[..|life.moves|] == life.moves;
    ReachableRecord(life.input, session, life.created, life.moves);
  }

  /** What is read is the current record. */
  lemma ReadIsCurrent(w: World, session: Identity, readable: bool)
    requires forall s :: s in w.lives ==> Lives(s, w.lives[s])
    requires Read(Files(w), session, readable).Ok?
    ensures var record := Read(Files(w), session, readable).value;
            && session in w.lives && Current(session, w.lives[session]) == Some(record)
            && record.session == session && record.revision == |w.lives[session].moves| && Durable(w, record)
  {
    FileOf(w, session);
    DecodesToItself(Current(session, w.lives[session]).value);
  }

  /** An accepted move makes a longer life. */
  lemma LifeGrows(session: Identity, life: Life, move: Move)
    requires Lives(session, life) && Current(session, life).Some?
    requires ValidateTransition(Current(session, life).value.state, move.transition).Ok?
    ensures var later := life.(moves := life.moves + [move]);
            && Lives(session, later) && Continues(life, later)
            && Current(session, later)
               == Some(ApplyTransition(Current(session, life).value, move.transition, move.now))
            && RecordAt(session, later, |life.moves|) == Current(session, life)
  {
    hide ApplyTransition, ValidateTransition, NewPrepared;
    var moves := life.moves + [move];
    assert moves[..|moves| - 1] == life.moves && moves[..|moves|] == moves && life.moves[..|life.moves|] == life.moves;
  }

  /** A decided transition extends the life by one accepted move. */
  lemma DecidedAppends(w: World, session: Identity, readable: bool, expected: nat, move: Move)
    requires forall s :: s in w.lives ==> Lives(s, w.lives[s])
    requires Decide(Read(Files(w), session, readable), expected, move.transition, move.now).Ok?
    ensures var next := Decide(Read(Files(w), session, readable), expected, move.transition, move.now).value;
            var later := Append(w, session, move);
            && session in w.lives && |w.lives[session].moves| == expected
            && Current(session, w.lives[session]).Some?
            && next == ApplyTransition(Current(session, w.lives[session]).value, move.transition, move.now)
            && Lives(session, later.lives[session]) && Extends(w, later)
            && next.session == session && next.revision == expected + 1 && Durable(later, next)
            && RecordAt(session, later.lives[session], expected) == Current(session, w.lives[session])
  {
    hide Read, Files, Lives, RecordAt, ValidateTransition;
    ReadIsCurrent(w, session, readable);
    LifeGrows(session, w.lives[session], move);
  }

  /** A step of one process keeps a world sound if it takes care of that process and of what it touches. */
  lemma StaysSound(w: World, later: World, pid: Pid)
    requires Sound(w) && Extends(w, later)
    requires forall session :: session in later.lives ==> Lives(session, later.lives[session])
    requires StatusDurable(later) && LocalSound(later, pid)
    requires forall other :: other != pid ==> Doing(later, other) == Doing(w, other)
    requires forall other :: other != pid ==> KeepsLeases(w, later, other)
    requires forall session :: session in later.leases && later.leases[session].pid == pid
                               ==> LeaseSound(later, session)
    requires forall session :: session in later.leases && later.leases[session].pid != pid
                               ==> session in w.leases && later.leases[session] == w.leases[session]
    ensures Sound(later)
  {
    hide Lives, StatusDurable, LocalSound, Extends, Doing, KeepsLeases;
    forall other ensures LocalSound(later, other) {
      if other != pid {
        LocalStays(w, later, other);
      }
    }
    forall session | session in later.leases ensures LeaseSound(later, session) {
      if later.leases[session].pid != pid {
        assert LeaseSound(w, session);
      }
    }
  }

  predicate Reconciles(local: Local) {
    local.Holding? || local.ReconcileSummarising?
  }

  /** In particular if it touches no lease and is not reconciling. */
  lemma StaysSoundWithoutLeases(w: World, later: World, pid: Pid)
    requires Sound(w) && Extends(w, later) && later.leases == w.leases
    requires forall session :: session in later.lives ==> Lives(session, later.lives[session])
    requires StatusDurable(later) && LocalSound(later, pid)
    requires later.locals == w.locals[pid := Doing(later, pid)]
    requires !Reconciles(Doing(w, pid)) && !Doing(later, pid).Dead?
    ensures Sound(later)
  {
    hide Lives, StatusDurable, LocalSound, Extends;
    forall session | session in later.leases && later.leases[session].pid == pid ensures LeaseSound(later, session) {
      assert LeaseSound(w, session);
    }
    StaysSound(w, later, pid);
  }

  lemma SameLives(w: World, later: World)
    requires later.lives == w.lives
    ensures Extends(w, later)
  {
  }

  lemma CreateSound(w: World, pid: Pid, input: NewRecord, session: Identity, now: Timestamp)
    requires Sound(w) && Doing(w, pid).Idle?
    ensures var later := TakeCreate(w, pid, input, session, now); Sound(later) && Extends(w, later)
  {
    hide LeaseSound, StatusDurable, Reconciled;
    if session !in w.lives {
      var later := TakeCreate(w, pid, input, session, now);
      StatusStays(w, later);
      assert Lives(session, later.lives[session]);
      StaysSoundWithoutLeases(w, later, pid);
    }
  }

  lemma TransitSound(w: World, pid: Pid, session: Identity, expected: nat, transition: Transition, io: TransitionIo)
    requires Sound(w) && Doing(w, pid).Idle?
    ensures var later := TakeTransit(w, pid, session, expected, transition, io); Sound(later) && Extends(w, later)
  {
    hide LeaseSound, Decide, Read, Files, RecordAt, Lives, StatusDurable, Durable, Reconciled;
    SameLives(w, w);
    var later := TakeTransit(w, pid, session, expected, transition, io);
    var decided := Decide(Read(Files(w), session, io.readable), expected, transition, io.now);
    if decided.Ok? && io.record.Written? {
      var appended := Append(w, session, Move(transition, io.now));
      DecidedAppends(w, session, io.readable, expected, Move(transition, io.now));
      SameLives(appended, later);
      DurableStays(appended, later, decided.value);
      StatusStays(w, later);
      StaysSoundWithoutLeases(w, later, pid);
    }
  }

  lemma SummarySound(w: World, pid: Pid, record: Record, now: Timestamp, written: bool)
    requires Sound(w) && Doing(w, pid) in {Summarising(record), Rebuilding(record)}
    ensures var later := Become(Summarise(w, record, now, written), pid, Idle); Sound(later) && Extends(w, later)
  {
    hide LeaseSound, RecordAt, Lives, StatusDurable, Reconciled, Extends;
    assert LocalSound(w, pid);
    var later := Become(Summarise(w, record, now, written), pid, Idle);
    SameLives(w, later);
    SummaryDurable(w, record, now, written);
    StatusStays(Summarise(w, record, now, written), later);
    StaysSoundWithoutLeases(w, later, pid);
  }

  lemma LoadSound(w: World, pid: Pid, session: Identity, readable: bool, reconcile: bool)
    requires Sound(w) && Doing(w, pid).Idle?
    ensures var later := TakeLoad(w, pid, session, readable, reconcile); Sound(later) && Extends(w, later)
  {
    hide LeaseSound, Read, Files, RecordAt, Lives, StatusDurable, Reconciled, Extends;
    var later := TakeLoad(w, pid, session, readable, reconcile);
    SameLives(w, later);
    if later != w {
      ReadIsCurrent(w, session, readable);
      StatusStays(w, later);
      StaysSoundWithoutLeases(w, later, pid);
    }
  }

  lemma AcquireSound(w: World, pid: Pid, session: Identity)
    requires Sound(w) && Doing(w, pid).Idle?
    ensures Sound(TakeAcquire(w, pid, session)) && Extends(w, TakeAcquire(w, pid, session))
  {
    hide Lives, StatusDurable, Durable, Reconciled, Extends;
    var later := TakeAcquire(w, pid, session);
    SameLives(w, later);
    StatusStays(w, later);
    StaysSound(w, later, pid);
  }

  lemma ReleaseSound(w: World, pid: Pid, session: Identity)
    requires Sound(w) && Doing(w, pid).Idle?
    ensures Sound(TakeRelease(w, pid, session)) && Extends(w, TakeRelease(w, pid, session))
  {
    hide Lives, StatusDurable, Durable, Reconciled, Extends;
    var later := TakeRelease(w, pid, session);
    SameLives(w, later);
    StatusStays(w, later);
    StaysSound(w, later, pid);
  }

  lemma ReconcileAcquireSound(w: World, pid: Pid, record: Record, lock: LeaseIo)
    requires Sound(w) && Doing(w, pid) == Reconciling(record)
    ensures var later := TakeReconcileAcquire(w, pid, record, lock); Sound(later) && Extends(w, later)
  {
    hide Lives, StatusDurable, RecordAt, Reconciled;
    var later := TakeReconcileAcquire(w, pid, record, lock);
    SameLives(w, later);
    StatusStays(w, later);
    assert LocalSound(w, pid);
    forall s | s in later.leases && later.leases[s].pid == pid ensures LeaseSound(later, s) {
      if s in w.leases {
        assert LeaseSound(w, s);
      }
    }
    StaysSound(w, later, pid);
  }

  lemma ReconcileTransitSound(w: World, pid: Pid, record: Record, io: TransitionIo)
    requires Sound(w) && Doing(w, pid) == Holding(record)
    ensures var later := TakeReconcileTransit(w, pid, record, io); Sound(later) && Extends(w, later)
  {
    hide Lives, StatusDurable, RecordAt, Decide, Read, Files, StaleOwnershipFailure, Durable, Reconciled;
    assert LocalSound(w, pid);
    var later := TakeReconcileTransit(w, pid, record, io);
    var stale := ToFailed(StaleOwnershipFailure());
    var decided := Decide(Read(Files(w), record.session, io.readable), record.revision, stale, io.now);
    forall s | s in later.leases && later.leases[s].pid == pid ensures s in w.leases && LeaseSound(w, s) {
    }
    if decided.Ok? && io.record.Written? {
      ReconcileAppends(w, record, io);
      var appended := Append(w, record.session, Move(stale, io.now));
      SameLives(appended, later);
      DurableStays(appended, later, decided.value);
    } else {
      SameLives(w, later);
    }
    StatusStays(w, later);
    StaysSound(w, later, pid);
  }

  /** Reconciliation applies its transition to the very record that it loaded. */
  lemma ReconcileAppends(w: World, record: Record, io: TransitionIo)
    requires forall s :: s in w.lives ==> Lives(s, w.lives[s])
    requires Durable(w, record) && !record.state.Terminal()
    requires Decide(Read(Files(w), record.session, io.readable), record.revision,
                    ToFailed(StaleOwnershipFailure()), io.now).Ok?
    ensures var stale := ToFailed(StaleOwnershipFailure());
            var later := Append(w, record.session, Move(stale, io.now));
            var next := Decide(Read(Files(w), record.session, io.readable), record.revision, stale, io.now).value;
            && |w.lives[record.session].moves| == record.revision
            && Current(record.session, w.lives[record.session]) == Some(record)
            && next.session == record.session && Durable(later, next) && Reconciled(later, next)
            && Current(record.session, later.lives[record.session]) == Some(next)
            && AdvancesFrom(w, later, record.session, record.revision)
            && Lives(record.session, later.lives[record.session]) && Extends(w, later)
  {
    hide Lives, RecordAt, Decide, Read, Files, ApplyTransition, StaleOwnershipFailure, Extends;
    DecidedAppends(w, record.session, io.readable, record.revision, Move(ToFailed(StaleOwnershipFailure()), io.now));
    assert Current(record.session, w.lives[record.session]) == Some(record);
    StaleApplied(record, io.now);
  }

  lemma StaleApplied(record: Record, now: Timestamp)
    ensures var r := ApplyTransition(record, ToFailed(StaleOwnershipFailure()), now);
            r.state == Failed && r.failure == Some(StaleOwnershipFailure())
  {
    TruncatedOnce(StaleOwnership, OwnershipStale,
                  Some("stale session ownership: prior process terminated without completing"));
  }

  lemma ReconcileSummarySound(w: World, pid: Pid, record: Record, now: Timestamp, written: bool)
    requires Sound(w) && Doing(w, pid) == ReconcileSummarising(record)
    ensures var later := Become(Unlock(Summarise(w, record, now, written), record.session), pid, Idle);
            Sound(later) && Extends(w, later)
  {
    hide Lives, RecordAt, StatusDurable, Durable, Reconciled;
    assert LocalSound(w, pid);
    var later := Become(Unlock(Summarise(w, record, now, written), record.session), pid, Idle);
    SummaryDurable(w, record, now, written);
    StatusStays(Summarise(w, record, now, written), later);
    SameLives(w, later);
    forall s | s in later.leases && later.leases[s].pid == pid ensures LeaseSound(later, s) {
      assert LeaseSound(w, s);
    }
    StaysSound(w, later, pid);
  }

  lemma CrashSound(w: World, pid: Pid)
    requires Sound(w)
    ensures Sound(TakeCrash(w, pid)) && Extends(w, TakeCrash(w, pid))
  {
    hide Lives, RecordAt, StatusDurable, Durable, Reconciled, Extends;
    SameLives(w, TakeCrash(w, pid));
    StatusStays(w, TakeCrash(w, pid));
    StaysSound(w, TakeCrash(w, pid), pid);
  }

  lemma TakeSound(w: World, step: Step)
    requires Sound(w)
    ensures Sound(Take(w, step)) && Extends(w, Take(w, step))
  {
    hide Sound, Extends, TakeCreate, TakeTransit, TakeLoad, TakeAcquire, TakeRelease, TakeReconcileAcquire,
      TakeReconcileTransit, TakeCrash, Summarise, Become, Unlock, Lives, StatusDurable, LocalSound, LeaseSound,
      Durable, Reconciled, Doing;
    var pid := step.pid;
    SameLives(w, w);
    match (Doing(w, pid), step.action)
    case (Idle, Create(input, session, now)) => CreateSound(w, pid, input, session, now);
    case (Idle, Transit(session, expected, transition, io)) => TransitSound(w, pid, session, expected, transition, io);
    case (Summarising(record), WriteSummary(now, written)) => SummarySound(w, pid, record, now, written);
    case (Idle, RebuildLoad(session, readable)) => LoadSound(w, pid, session, readable, false);
    case (Rebuilding(record), RebuildWrite(now, written)) => SummarySound(w, pid, record, now, written);
    case (Idle, Acquire(session)) => AcquireSound(w, pid, session);
    case (Idle, Release(session)) => ReleaseSound(w, pid, session);
    case (Idle, ReconcileLoad(session, readable)) => LoadSound(w, pid, session, readable, true);
    case (Reconciling(record), ReconcileAcquire(lock)) => ReconcileAcquireSound(w, pid, record, lock);
    case (Holding(record), ReconcileTransit(io)) => ReconcileTransitSound(w, pid, record, io);
    case (ReconcileSummarising(record), ReconcileSummary(now, written)) =>
      ReconcileSummarySound(w, pid, record, now, written);
    case (_, Crash) => CrashSound(w, pid);
    case _ =>
  }

  // ---- What holds over whole runs ----

  function At(steps: seq<Step>, i: nat): World
    requires i <= |steps|
  {
    Run(START, steps[..i])
  }

  lemma NextAt(steps: seq<Step>, i: nat)
    requires i < |steps|
    ensures At(steps, i + 1) == Take(At(steps, i), steps[i])
  {
    assert steps[..i + 1][..i] == steps[..i];
  }

  /** Every reachable world is sound: whatever is crashed, interleaved or fails. */
  lemma {:induction false} RunSound(steps: seq<Step>)
    ensures Sound(Run(START, steps))
    decreases |steps|
  {
    if steps != [] {
      RunSound(steps[..|steps| - 1]);
      TakeSound(Run(START, steps[..|steps| - 1]), steps[|steps| - 1]);
    }
  }

  lemma {:induction false} RunExtends(steps: seq<Step>, i: nat, j: nat)
    requires i <= j <= |steps|
    ensures Extends(At(steps, i), At(steps, j))
    decreases j - i
  {
    if i == j {
      SameLives(At(steps, i), At(steps, i));
    } else {
      hide At;
      RunExtends(steps, i, j - 1);
      NextAt(steps, j - 1);
      AtSound(steps, j - 1);
      TakeSound(At(steps, j - 1), steps[j - 1]);
      ExtendsTransitive(At(steps, i), At(steps, j - 1), At(steps, j));
    }
  }

  lemma AtSound(steps: seq<Step>, i: nat)
    requires i <= |steps|
    ensures Sound(At(steps, i))
  {
    RunSound(steps[..i]);
  }

  lemma ExtendsTransitive(a: World, b: World, c: World)
    requires Extends(a, b) && Extends(b, c)
    ensures Extends(a, c)
  {
    forall s | s in a.lives ensures s in c.lives && Continues(a.lives[s], c.lives[s]) {
      assert Continues(a.lives[s], b.lives[s]) && Continues(b.lives[s], c.lives[s]);
    }
  }

  /** The call that a step makes on a record: which session, and which revision it expects. */
  function Expects(w: World, step: Step): Option<(Identity, nat)> {
    match (Doing(w, step.pid), step.action)
    case (Idle, Transit(session, expected, _, _)) => Some((session, expected))
    case (Holding(record), ReconcileTransit(_)) => Some((record.session, record.revision))
    case _ => None
  }

  /** The session has gone from the revision to the next, and no other record file has changed. */
  ghost predicate AdvancesFrom(w: World, later: World, session: Identity, revision: nat) {
    && session in w.lives && |w.lives[session].moves| == revision
    && session in later.lives && |later.lives[session].moves| == revision + 1
    && later.lives == w.lives[session := later.lives[session]]
  }

  /** A call advances its own session by one, from the revision it expects, or changes no record at all. */
  lemma AdvanceMeans(w: World, step: Step)
    requires Sound(w)
    ensures var later := Take(w, step);
            || later.lives == w.lives
            || (step.action.Create? && step.action.session !in w.lives
                && later.lives == w.lives[step.action.session := Life(step.action.input, step.action.now, [])])
            || (Expects(w, step).Some? && AdvancesFrom(w, later, Expects(w, step).value.0, Expects(w, step).value.1))
  {
    hide Decide, Read, Files, RecordAt, Lives, StatusDurable, LocalSound, LeaseSound, ApplyTransition, Extends, Durable,
      StatusFromRecord, StaleOwnershipFailure;
    match (Doing(w, step.pid), step.action)
    case (Idle, Transit(session, expected, transition, io)) =>
      if Decide(Read(Files(w), session, io.readable), expected, transition, io.now).Ok? {
        DecidedAppends(w, session, io.readable, expected, Move(transition, io.now));
      }
    case (Holding(record), ReconcileTransit(io)) =>
      var stale := ToFailed(StaleOwnershipFailure());
      if Decide(Read(Files(w), record.session, io.readable), record.revision, stale, io.now).Ok? {
        DecidedAppends(w, record.session, io.readable, record.revision, Move(stale, io.now));
      }
    case _ =>
  }

  lemma AdvancesOnce(a: World, b: World, c: World, d: World, session: Identity, revision: nat)
    requires AdvancesFrom(a, b, session, revision) && Extends(b, c)
    ensures !AdvancesFrom(c, d, session, revision)
  {
    assert Continues(b.lives[session], c.lives[session]);
  }

  /** Of all the calls that expect the same revision of the same session, at most one ever takes effect. */
  lemma OneAdvance(steps: seq<Step>, i: nat, j: nat)
    requires i < j < |steps|
    requires Expects(At(steps, i), steps[i]).Some? && At(steps, i + 1).lives != At(steps, i).lives
    requires Expects(At(steps, j), steps[j]) == Expects(At(steps, i), steps[i])
    ensures At(steps, j + 1).lives == At(steps, j).lives
  {
    hide Take, At, Sound, Doing, AdvancesFrom, Extends;
    AtSound(steps, i);
    AtSound(steps, j);
    AdvanceMeans(At(steps, i), steps[i]);
    AdvanceMeans(At(steps, j), steps[j]);
    NextAt(steps, i);
    NextAt(steps, j);
    RunExtends(steps, i + 1, j);
    var (session, expected) := Expects(At(steps, i), steps[i]).value;
    if AdvancesFrom(At(steps, i), At(steps, i + 1), session, expected) {
      AdvancesOnce(At(steps, i), At(steps, i + 1), At(steps, j), At(steps, j + 1), session, expected);
    }
  }

  /** The versions of a record are numbered from zero without gaps, share their origin, and are at most four. */
  lemma VersionsAreAChain(w: World, session: Identity, revision: nat)
    requires Sound(w) && session in w.lives && revision <= |w.lives[session].moves|
    ensures var life := w.lives[session];
            && |life.moves| <= 3
            && RecordAt(session, life, revision).Some?
            && var r := RecordAt(session, life, revision).value;
            && r.revision == revision && InvariantOf(r).Ok?
            && Origin(r) == (life.input, session, life.created, SCHEMA_VERSION)
            && (revision < |life.moves| ==> FollowedBy(session, life, r))
  {
    hide InvariantOf, NewPrepared, Sound, Lives, Origin, RecordAt, FollowedBy;
    var life := w.lives[session];
    LivesIn(w, session);
    VersionAccepted(session, life, revision);
    VersionAccepted(session, life, |life.moves|);
    if revision < |life.moves| {
      VersionFollows(session, life, revision);
    }
  }

  /** The next version is what an accepted transition makes of this one. */
  predicate FollowedBy(session: Identity, life: Life, r: Record) {
    && r.revision < |life.moves|
    && var move := life.moves[r.revision];
    && ValidateTransition(r.state, move.transition).Ok?
    && RecordAt(session, life, r.revision + 1) == Some(ApplyTransition(r, move.transition, move.now))
  }

  lemma VersionFollows(session: Identity, life: Life, revision: nat)
    requires Lives(session, life) && revision < |life.moves|
    requires RecordAt(session, life, revision).Some? && RecordAt(session, life, revision).value.revision == revision
    ensures FollowedBy(session, life, RecordAt(session, life, revision).value)
  {
    hide ApplyTransition, ValidateTransition, NewPrepared, Lives;
    VersionAccepted(session, life, revision + 1);
    assert life.moves[..revision + 1][..revision] == life.moves[..revision];
  }

  lemma LivesIn(w: World, session: Identity)
    requires Sound(w) && session in w.lives
    ensures Lives(session, w.lives[session])
  {
  }

  /** Every beginning of a life is a life. */
  lemma {:induction false} VersionAccepted(session: Identity, life: Life, revision: nat)
    requires Lives(session, life) && revision <= |life.moves|
    ensures RecordAt(session, life, revision).Some?
    ensures var r := RecordAt(session, life, revision).value;
            && r.revision == revision <= 3 && InvariantOf(r).Ok?
            && Origin(r) == (life.input, session, life.created, SCHEMA_VERSION)
    decreases |life.moves| - revision
  {
    hide ApplyTransition, ValidateTransition, NewPrepared, InvariantOf, Origin;
    assert life.moves[..|life.moves|] == life.moves;
    if revision < |life.moves| {
      VersionAccepted(session, life, revision + 1);
      assert life.moves[..revision + 1][..revision] == life.moves[..revision];
    }
    ReachableRecord(life.input, session, life.created, life.moves[..revision]);
  }

  /** A summary that is written agrees with the record exactly when the record has not moved on meanwhile. */
  lemma SummaryAgrees(w: World, pid: Pid, record: Record, step: Step)
    requires Sound(w) && step.pid == pid
    requires (Doing(w, pid) == Summarising(record) && step.action.WriteSummary?)
             || (Doing(w, pid) == Rebuilding(record) && step.action.RebuildWrite?)
    requires step.action.written
    ensures record.session in w.lives && Current(record.session, w.lives[record.session]).Some?
    ensures var later := Take(w, step);
            && later.lives == w.lives && later.status.Some?
            && (Projects(later.status.value, Current(record.session, w.lives[record.session]).value)
                <==> |w.lives[record.session].moves| == record.revision)
  {
    hide Lives, RecordAt, StatusDurable, Reconciled, LeaseSound;
    assert LocalSound(w, pid);
    FileOf(w, record.session);
  }

  /** One process creates a session, another starts it and writes the summary, and the first is late. */
  function LateSummary(input: NewRecord, session: Identity, t: Timestamp): seq<Step> {
    [Step(0, Create(input, session, t)),
     Step(1, Transit(session, 0, ToRunning, TransitionIo(true, t, Written, t, Written))),
     Step(1, WriteSummary(t, true)),
     Step(0, WriteSummary(t, true))]
  }

  /** The summary then says Prepared although the record says Running, and nobody is about to correct it. */
  lemma LateSummaryIsStale(input: NewRecord, session: Identity, t: Timestamp)
    requires input.operation == input.runtime.operation
    ensures var w := Run(START, LateSummary(input, session, t));
            && session in w.lives && Current(session, w.lives[session]).Some? && w.status.Some?
            && !Projects(w.status.value, Current(session, w.lives[session]).value)
            && w.status.value.currentState == Some(Prepared)
            && Current(session, w.lives[session]).value.state == Running
            && forall pid :: Doing(w, pid).Idle?
  {
    hide Take, Run, Sound, Current, StatusFromRecord, Projects, NewPrepared, ApplyTransition;
    var steps := LateSummary(input, session, t);
    var first := NewPrepared(input, session, t);
    var second := ApplyTransition(first, ToRunning, t);
    Creates(input, session, t);
    StartsCreated(Take(START, steps[0]), input, session, t);
    var started := Take(Take(START, steps[0]), steps[1]);
    Summarises(started, 1, second, t);
    Summarises(Take(started, steps[2]), 0, first, t);
    FourSteps(START, steps[0], steps[1], steps[2], steps[3]);
    assert steps == [steps[0], steps[1], steps[2], steps[3]];
    SummaryOf(first, second, t);
  }

  lemma Summarises(w: World, pid: Pid, record: Record, t: Timestamp)
    requires Doing(w, pid) == Summarising(record)
    ensures Take(w, Step(pid, WriteSummary(t, true)))
            == w.(status := Some(StatusFromRecord(record, t)), locals := w.locals[pid := Idle])
  {
    hide StatusFromRecord, Decide, Read, Files;
  }

  lemma SummaryOf(first: Record, second: Record, t: Timestamp)
    requires first.state == Prepared && second.state == Running
    ensures !Projects(StatusFromRecord(first, t), second)
    ensures StatusFromRecord(first, t).currentState == Some(Prepared)
  {
  }

  lemma Creates(input: NewRecord, session: Identity, t: Timestamp)
    ensures var w := Take(START, Step(0, Create(input, session, t)));
            && w == World(map[session := Life(input, t, [])], None, map[],
                          map[0 := Summarising(NewPrepared(input, session, t))])
            && Sound(w)
            && Current(session, w.lives[session]) == Some(NewPrepared(input, session, t))
  {
    assert Sound(START);
    TakeSound(START, Step(0, Create(input, session, t)));
  }

  lemma StartsCreated(w: World, input: NewRecord, session: Identity, t: Timestamp)
    requires Sound(w) && w.lives == map[session := Life(input, t, [])] && input.operation == input.runtime.operation
    requires Doing(w, 1).Idle?
    ensures var first := NewPrepared(input, session, t);
            var second := ApplyTransition(first, ToRunning, t);
            var next := Take(w, Step(1, Transit(session, 0, ToRunning, TransitionIo(true, t, Written, t, Written))));
            && first.state == Prepared && second.state == Running
            && session in next.lives && Current(session, next.lives[session]) == Some(second)
            && next.status == w.status && next.locals == w.locals[1 := Summarising(second)]
  {
    hide Sound, Lives, Decode, Files, StatusFromRecord;
    LivesOf(w);
    FileOf(w, session);
    var life, first := w.lives[session], NewPrepared(input, session, t);
    assert life.moves[..0] == [];
    RecordRoundTrip(first);
    LifeGrows(session, life, Move(ToRunning, t));
  }

  lemma FourSteps(w: World, a: Step, b: Step, c: Step, d: Step)
    ensures Run(w, [a, b, c, d]) == Take(Take(Take(Take(w, a), b), c), d)
  {
    hide Take;
    assert [a, b, c, d][..3] == [a, b, c] && [a, b, c][..2] == [a, b] && [a, b][..1] == [a] && [a][..0] == [];
    assert Run(w, [a]) == Take(Run(w, []), a);
    assert Run(w, [a, b]) == Take(Run(w, [a]), b);
    assert Run(w, [a, b, c]) == Take(Run(w, [a, b]), c);
  }

  /** A rebuild that nothing overlaps restores agreement, from whatever the status said before. */
  lemma RebuildRestores(w: World, pid: Pid, session: Identity, now: Timestamp)
    requires Sound(w) && Doing(w, pid).Idle?
    ensures var later := Take(Take(w, Step(pid, RebuildLoad(session, true))), Step(pid, RebuildWrite(now, true)));
            && later.lives == w.lives
            && (Read(Files(w), session, true).Ok?
                ==> && session in w.lives && later.status.Some? && Current(session, w.lives[session]).Some?
                    && Projects(later.status.value, Current(session, w.lives[session]).value))
            && (Read(Files(w), session, true).Err? ==> later.status == w.status)
  {
    hide Read, Files, Current, Projects, Sound;
    RebuildSteps(w, pid, session, now);
    if Read(Files(w), session, true).Ok? {
      LivesOf(w);
      ReadIsCurrent(w, session, true);
    }
  }

  lemma LivesOf(w: World)
    requires Sound(w)
    ensures forall session :: session in w.lives ==> Lives(session, w.lives[session])
  {
  }

  lemma RebuildSteps(w: World, pid: Pid, session: Identity, now: Timestamp)
    requires Doing(w, pid).Idle?
    ensures var later := Take(Take(w, Step(pid, RebuildLoad(session, true))), Step(pid, RebuildWrite(now, true)));
            var loaded := Read(Files(w), session, true);
            && later.lives == w.lives
            && (loaded.Ok? ==> later.status.Some? && Projects(later.status.value, loaded.value))
            && (loaded.Err? ==> later.status == w.status)
  {
    hide Decide, Files, Read, TakeCreate, TakeTransit, TakeAcquire, TakeRelease, TakeReconcileAcquire,
      TakeReconcileTransit, TakeCrash, StaleOwnershipFailure;
    var loading := Take(w, Step(pid, RebuildLoad(session, true)));
    var loaded := Read(Files(w), session, true);
    if loaded.Ok? {
      assert Doing(loading, pid) == Rebuilding(loaded.value);
    } else {
      assert loading == w;
    }
  }

  /**
   * Reconciliation changes only the record that it loaded, and only while that is still the current one,
   * unfinished, and leased to nobody else; if the record has moved on, nothing changes. Unless it has a
   * summary left to write it no longer holds the lease.
   */
  lemma ReconcileIsCareful(w: World, pid: Pid, record: Record, io: TransitionIo)
    requires Sound(w) && Doing(w, pid) == Holding(record)
    ensures record.session in w.leases && w.leases[record.session] == Holder(pid, Reconciliation)
    ensures !record.state.Terminal() && record.session in w.lives
    ensures var later := Take(w, Step(pid, ReconcileTransit(io)));
            && (later.lives != w.lives ==> ReconcileAdvances(w, later, pid, record))
            && (later.lives == w.lives ==> Doing(later, pid).Idle? && record.session !in later.leases)
            && (|w.lives[record.session].moves| != record.revision ==> later.lives == w.lives)
  {
    hide Lives, StatusDurable, RecordAt, Decide, Read, Files, ApplyTransition, StaleOwnershipFailure;
    assert LocalSound(w, pid);
    var stale := ToFailed(StaleOwnershipFailure());
    if Decide(Read(Files(w), record.session, io.readable), record.revision, stale, io.now).Ok? {
      ReconcileAppends(w, record, io);
    }
  }

  /** The loaded record was the current one, and its successor is what the process now summarises. */
  ghost predicate ReconcileAdvances(w: World, later: World, pid: Pid, record: Record)
    requires record.session in w.lives
  {
    && Current(record.session, w.lives[record.session]) == Some(record)
    && AdvancesFrom(w, later, record.session, record.revision)
    && Doing(later, pid).ReconcileSummarising?
    && Current(record.session, later.lives[record.session]) == Some(Doing(later, pid).record)
    && Doing(later, pid).record.state == Failed
    && Doing(later, pid).record.failure == Some(StaleOwnershipFailure())
  }

  /** What reconciliation returns is what it made of an unfinished record; the lease is free again. */
  lemma ReconcileReturns(w: World, pid: Pid, record: Record, now: Timestamp, written: bool)
    requires Sound(w) && Doing(w, pid) == ReconcileSummarising(record)
    ensures Durable(w, record) && Reconciled(w, record)
    ensures record.session !in Take(w, Step(pid, ReconcileSummary(now, written))).leases
  {
    hide Lives, RecordAt, StatusDurable, Durable, Reconciled, TakeCreate, TakeTransit, TakeLoad, TakeAcquire,
      TakeRelease, TakeReconcileAcquire, TakeReconcileTransit, TakeCrash;
    assert LocalSound(w, pid);
  }

  /** A crashed process holds no lease; an idle one keeps none from a reconciliation, however that ended. */
  lemma NoLeaseLeaks(steps: seq<Step>, pid: Pid, session: Identity)
    requires var local := Doing(Run(START, steps), pid); local.Idle? || local.Dead?
    requires session in Run(START, steps).leases
    ensures Run(START, steps).leases[session] != Holder(pid, Reconciliation)
    ensures Doing(Run(START, steps), pid).Dead? ==> Run(START, steps).leases[session].pid != pid
  {
    hide Run, Lives, StatusDurable, LocalSound;
    RunSound(steps);
    assert LeaseSound(Run(START, steps), session);
  }
}
