/**
 * What the calls of `StoreProtocol` achieve: when exactly a call takes effect, what a lease is good for,
 * and that a reconciliation that nothing overlaps does its work.
 */
module StoreProgress {
  import opened Wrappers
  import opened SessionModel
  import opened SessionStore
  import opened StoreProtocol

  /** The state of a session, by the last of its moves. */
  function StateOf(life: Life): State {
    if life.moves == [] then Prepared else life.moves[|life.moves| - 1].transition.Target()
  }

  function Grown(life: Life, transition: Transition, now: Timestamp): Life {
    life.(moves := life.moves + [Move(transition, now)])
  }

  /**
   * A call that expects this revision is to take effect: the files can be read and written, the record is
   * one that can be read back, nobody has been faster, and the transition goes forward from where it is.
   */
  predicate TakesEffect(w: World, session: Identity, expected: nat, transition: Transition, io: TransitionIo) {
    && io.readable && io.record.Written? && session in w.lives
    && var life := w.lives[session];
    && life.input.operation == life.input.runtime.operation && |life.moves| == expected
    && Rank(StateOf(life)) < Rank(transition.Target())
    && StateOf(life) != Succeeded && !(StateOf(life) == Prepared && transition.Target() == Succeeded)
  }

  /** The record files after one step, in every position that a process can be in. */
  function Effect(w: World, step: Step): map<Identity, Life> {
    match (Doing(w, step.pid), step.action)
    case (Idle, Create(input, session, now)) =>
      if session in w.lives then w.lives else w.lives[session := Life(input, now, [])]
    case (Idle, Transit(session, expected, transition, io)) =>
      if TakesEffect(w, session, expected, transition, io)
      then w.lives[session := Grown(w.lives[session], transition, io.now)]
      else w.lives
    case (Holding(record), ReconcileTransit(io)) =>
      if TakesEffect(w, record.session, record.revision, ToFailed(StaleOwnershipFailure()), io)
      then w.lives[record.session := Grown(w.lives[record.session], ToFailed(StaleOwnershipFailure()), io.now)]
      else w.lives
    case _ => w.lives
  }

  lemma ReadsBack(w: World, session: Identity)
    requires Sound(w)
    ensures Read(Files(w), session, true).Ok?
            <==> session in w.lives && w.lives[session].input.operation == w.lives[session].input.runtime.operation
    ensures Read(Files(w), session, true).Ok?
            ==> var record := Read(Files(w), session, true).value;
                && record.revision == |w.lives[session].moves| && record.state == StateOf(w.lives[session])
                && record.session == session && Durable(w, record)
                && Current(session, w.lives[session]) == Some(record)
  {
    hide Files, Durable, Decode, ToDocument, InvariantOf, ToldBy;
    LivesOf(w);
    if session in w.lives {
      var life := w.lives[session];
      FileOf(w, session);
      assert life.moves[..|life.moves|] == life.moves;
      ReachableRoundTrip(life.input, session, life.created, life.moves);
      StateByMoves(session, life);
      var record := Current(session, life).value;
      if Read(Files(w), session, true).Ok? {
        DecodesToItself(record);
        ReadIsCurrent(w, session, true);
      }
    } else {
      NoFile(w, session);
    }
  }

  lemma NoFile(w: World, session: Identity)
    requires session !in w.lives
    ensures session !in Files(w)
  {
  }

  lemma StateByMoves(session: Identity, life: Life)
    requires Lives(session, life)
    ensures Current(session, life).Some? && Current(session, life).value.state == StateOf(life)
  {
    assert life.moves[..|life.moves|] == life.moves;
    ReachableTimes(life.input, session, life.created, life.moves);
  }

  lemma DecidesExactly(w: World, session: Identity, expected: nat, transition: Transition, io: TransitionIo)
    requires Sound(w)
    ensures Decide(Read(Files(w), session, io.readable), expected, transition, io.now).Ok? && io.record.Written?
            <==> TakesEffect(w, session, expected, transition, io)
  {
    hide Files, Decode, ToDocument, Lives, StatusDurable, LocalSound, LeaseSound, StateOf, Durable, ApplyTransition,
      Current;
    ReadsBack(w, session);
    if io.readable && Read(Files(w), session, true).Ok? {
      TransitionsAscend(Read(Files(w), session, true).value.state, transition);
    }
  }

  /** A step changes the record files exactly as its call is to, and no other way. */
  lemma EffectExactly(w: World, step: Step)
    requires Sound(w)
    ensures Take(w, step).lives == Effect(w, step)
  {
    hide Decide, Read, Files, Sound, TakesEffect, StaleOwnershipFailure, ApplyTransition, StatusFromRecord;
    match (Doing(w, step.pid), step.action)
    case (Idle, Transit(session, expected, transition, io)) =>
      DecidesExactly(w, session, expected, transition, io);
      Present(w, session, expected, transition, io);
    case (Holding(record), ReconcileTransit(io)) =>
      var stale := ToFailed(StaleOwnershipFailure());
      DecidesExactly(w, record.session, record.revision, stale, io);
      Present(w, record.session, record.revision, stale, io);
    case _ =>
  }

  lemma Present(w: World, session: Identity, expected: nat, transition: Transition, io: TransitionIo)
    ensures TakesEffect(w, session, expected, transition, io) ==> session in w.lives
  {
  }

  /** A free lease can be taken; nobody else can take it or give it away, and giving it back frees it. */
  lemma LeaseExcludes(w: World, pid: Pid, other: Pid, session: Identity)
    requires Doing(w, pid).Idle? && Doing(w, other).Idle? && other != pid && session !in w.leases
    ensures var held := Take(w, Step(pid, Acquire(session)));
            && session in held.leases && held.leases[session].pid == pid
            && Take(held, Step(other, Acquire(session))) == held
            && Take(held, Step(other, Release(session))) == held
            && Take(held, Step(pid, Release(session))) == w
  {
    var held := Take(w, Step(pid, Acquire(session)));
    assert held.leases - {session} == w.leases;
  }

  // ---- A whole reconciliation ----

  /** The four steps of `reconcile_stale_current_session`. */
  function ReconcileSteps(pid: Pid, session: Identity, io: TransitionIo, now: Timestamp): seq<Step> {
    [Step(pid, ReconcileLoad(session, true)), Step(pid, ReconcileAcquire(LockTried)),
     Step(pid, ReconcileTransit(io)), Step(pid, ReconcileSummary(now, true))]
  }

  /** A session that can be read, has not come to its end, and is owned by nobody. */
  predicate Stale(w: World, session: Identity) {
    && session in w.lives && session !in w.leases
    && w.lives[session].input.operation == w.lives[session].input.runtime.operation
    && !StateOf(w.lives[session]).Terminal()
  }

  lemma NoStep(w: World, pid: Pid, action: Action)
    requires Doing(w, pid).Idle? && (action.ReconcileAcquire? || action.ReconcileTransit? || action.ReconcileSummary?)
    ensures Take(w, Step(pid, action)) == w
  {
  }

  lemma LoadStep(w: World, pid: Pid, session: Identity)
    requires Sound(w) && Doing(w, pid).Idle?
    ensures var loaded := Read(Files(w), session, true);
            Take(w, Step(pid, ReconcileLoad(session, true)))
            == if loaded.Err? || loaded.value.state.Terminal() then w else Become(w, pid, Reconciling(loaded.value))
  {
    hide Read, Files, Sound;
  }

  lemma LockStep(w: World, pid: Pid, record: Record)
    requires Doing(w, pid) == Reconciling(record)
    ensures Take(w, Step(pid, ReconcileAcquire(LockTried)))
            == if record.session in w.leases then Become(w, pid, Idle)
               else Become(w.(leases := w.leases[record.session := Holder(pid, Reconciliation)]), pid, Holding(record))
  {
  }

  /** From the lock on: the record is failed, and the summary says so. */
  lemma FailsStale(w: World, pid: Pid, record: Record, io: TransitionIo, now: Timestamp)
    requires Sound(w) && Doing(w, pid) == Holding(record) && record.session in w.lives
    requires TakesEffect(w, record.session, record.revision, ToFailed(StaleOwnershipFailure()), io)
    ensures var failed := Take(w, Step(pid, ReconcileTransit(io)));
            var later := Take(failed, Step(pid, ReconcileSummary(now, true)));
            var session := record.session;
            && later.lives == w.lives[session := Grown(w.lives[session], ToFailed(StaleOwnershipFailure()), io.now)]
            && later.leases == w.leases - {session} && Doing(later, pid).Idle?
            && later.status.Some? && Current(session, later.lives[session]).Some?
            && Projects(later.status.value, Current(session, later.lives[session]).value)
  {
    hide Sound, StaleOwnershipFailure, Decide, Read, Files, TakesEffect, ApplyTransition, RecordAt, Lives, Durable;
    var session, stale := record.session, ToFailed(StaleOwnershipFailure());
    DecidesExactly(w, session, record.revision, stale, io);
    LivesOf(w);
    DecidedAppends(w, session, io.readable, record.revision, Move(stale, io.now));
    var decided := Decide(Read(Files(w), session, io.readable), record.revision, stale, io.now).value;
    var failed := Take(w, Step(pid, ReconcileTransit(io)));
    assert failed == Become(Append(w, session, Move(stale, io.now)), pid, ReconcileSummarising(decided));
    DurableIsCurrent(Append(w, session, Move(stale, io.now)), decided);
  }

  lemma DurableIsCurrent(w: World, record: Record)
    requires Durable(w, record) && record.revision == |w.lives[record.session].moves|
    ensures Current(record.session, w.lives[record.session]) == Some(record)
  {
  }

  /**
   * A reconciliation that nothing overlaps fails a stale session, writes its summary and leaves every lease
   * as it was; any other session it leaves alone.
   */
  lemma ReconcileWorks(w: World, pid: Pid, session: Identity, io: TransitionIo, now: Timestamp)
    requires Sound(w) && Doing(w, pid).Idle? && io.readable && io.record.Written?
    ensures var later := StoreProtocol.Run(w, ReconcileSteps(pid, session, io, now));
            && later.leases == w.leases && Doing(later, pid).Idle?
            && if Stale(w, session)
               then && later.lives
                       == w.lives[session := Grown(w.lives[session], ToFailed(StaleOwnershipFailure()), io.now)]
                    && later.status.Some? && Current(session, later.lives[session]).Some?
                    && Projects(later.status.value, Current(session, later.lives[session]).value)
               else later.lives == w.lives && later.status == w.status
  {
    hide Sound, StaleOwnershipFailure, Read, Files, Take, StoreProtocol.Run, TakesEffect, Current, Projects, Durable;
    var load, lock := Step(pid, ReconcileLoad(session, true)), Step(pid, ReconcileAcquire(LockTried));
    var fail, summarise := Step(pid, ReconcileTransit(io)), Step(pid, ReconcileSummary(now, true));
    FourSteps(w, load, lock, fail, summarise);
    LoadStep(w, pid, session);
    ReadsBack(w, session);
    var loading := Take(w, load);
    if loading == w {
      NoStep(w, pid, lock.action);
      NoStep(w, pid, fail.action);
      NoStep(w, pid, summarise.action);
    } else {
      var record := Read(Files(w), session, true).value;
      LockStep(loading, pid, record);
      var locked := Take(loading, lock);
      if session in w.leases {
        NoStep(locked, pid, fail.action);
        NoStep(locked, pid, summarise.action);
      } else {
        TakeSound(w, load);
        TakeSound(loading, lock);
        StaleTakesEffect(locked, session, io);
        FailsStale(locked, pid, record, io, now);
        assert locked.leases - {session} == w.leases;
      }
    }
  }

  lemma StaleTakesEffect(w: World, session: Identity, io: TransitionIo)
    requires session in w.lives && io.readable && io.record.Written? && !StateOf(w.lives[session]).Terminal()
    requires w.lives[session].input.operation == w.lives[session].input.runtime.operation
    ensures TakesEffect(w, session, |w.lives[session].moves|, ToFailed(StaleOwnershipFailure()), io)
  {
    hide StaleOwnershipFailure;
  }
}
