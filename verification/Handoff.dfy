/**
 * The handoff of a prepared session from the process that a user started (the initiator) to the
 * operator host that it spawns: an intent file, an acknowledgement file and the session lease.
 *
 * Initiator, host and any other process take their steps in any order, and may crash at any time. The
 * host is the spawned child; other processes may write either file, take the lease when it is free and
 * move the session on.
 */
module Handoff {
  import opened Wrappers
  import SessionModel

  datatype Intent = Intent(session: string, token: string)

  datatype Ack = Ack(session: string, token: string, pid: nat)

  /** What reading the acknowledgement file comes to. */
  datatype AckFile = NoAck | UnreadableAck | MalformedAck | ParsedAck(ack: Ack)

  /** The session and token handed over, and the process identity that the spawned child reports. */
  datatype Task = Task(session: string, token: string, childPid: nat)

  datatype HandoffError =
    | IntentWrite
    | ReExec
    | ExitedBeforeOwnership
    | AcknowledgementMismatch
    | OwnershipTimeout

  /** Where the initiator is in its code. `recorded` says whether its `fail_launch` wrote the failure. */
  datatype Initiator =
    | WritingIntent
    | Spawning
    | Polling
    | CheckingAck
    | CheckingDeadline
    | Killing(error: HandoffError)
    | Cleaning(error: HandoffError)
    | Failing(error: HandoffError)
    | FailedHolding(error: HandoffError, recorded: bool)
    | Accepted(ack: Ack)
    | Released(ack: Ack)
    | ReturnedOk(ack: Ack)
    | ReturnedErr(error: HandoffError, recorded: bool)
    | Crashed
  {
    predicate Holds() {
      !Released? && !ReturnedOk? && !ReturnedErr? && !Crashed?
    }
  }

  /** Where the operator host is in its code. */
  datatype Host =
    | NotSpawned
    | CheckingIntent
    | WritingAck
    | Loading
    | Acquiring
    | Resumed
    | Launched
    | Exited
  {
    predicate Holds() {
      Resumed? || Launched?
    }
  }

  datatype Owner = ByInitiator | ByHost | ByOther

  datatype World = World(initiator: Initiator, host: Host, intent: Option<Intent>, ack: AckFile,
                         lease: Option<Owner>, state: SessionModel.State)

  /** The initiator holds the lease of a session that it has just prepared. */
  const START := World(WritingIntent, NotSpawned, None, NoAck, Some(ByInitiator), SessionModel.Prepared)

  datatype Step =
    // The initiator. Removing files is best effort.
    | WriteIntent(ok: bool)
    | Spawn(ok: bool, intentRemoved: bool)
    | TryWait(ok: bool)
    | CheckAck
    | CheckDeadline(expired: bool)
    | Kill(ok: bool)
    | Wait
    | Clean(intent: bool, ack: bool)
    | Fail(ok: bool)
    | GiveUpLease
    | ReleaseForHandoff
    | RemoveIntent(ok: bool)
    | CrashInitiator
    // The host.
    | CheckIntent(readable: bool)
    | WriteAck(ok: bool)
    | Load(ok: bool)
    | Acquire(ok: bool, expired: bool)
    | Launch
    | ExitHost
    // Anybody else.
    | OtherIntent(intentFile: Option<Intent>)
    | OtherAck(ackFile: AckFile)
    | OtherAcquire
    | OtherRelease
    | OtherTransition(transition: SessionModel.Transition)

  /** The checks on an acknowledgement that was read. */
  predicate Matches(task: Task, ack: Ack) {
    && ack.session == task.session
    && ack.token == task.token
    && (task.childPid != 0 ==> ack.pid == task.childPid)
  }

  function Drop(lease: Option<Owner>, owner: Owner): Option<Owner> {
    if lease == Some(owner) then None else lease
  }

  function TakeInitiator(task: Task, w: World, step: Step): World {
    match (w.initiator, step)
    case (WritingIntent, WriteIntent(ok)) =>
      if ok then w.(initiator := Spawning, intent := Some(Intent(task.session, task.token)))
      else w.(initiator := Failing(IntentWrite))
    case (Spawning, Spawn(ok, intentRemoved)) =>
      if ok then w.(initiator := Polling, host := CheckingIntent)
      else w.(initiator := Failing(ReExec), intent := if intentRemoved then None else w.intent)
    case (Polling, TryWait(ok)) =>
      if !ok then w.(initiator := Killing(ReExec))
      else if w.host.Exited? then w.(initiator := Cleaning(ExitedBeforeOwnership))
      else w.(initiator := CheckingAck)
    case (CheckingAck, CheckAck) =>
      (match w.ack
       case NoAck => w.(initiator := CheckingDeadline)
       case UnreadableAck => w.(initiator := Polling)
       case MalformedAck => w.(initiator := Killing(AcknowledgementMismatch))
       case ParsedAck(ack) =>
         if ack.session != task.session then w.(initiator := Killing(AcknowledgementMismatch))
         else if ack.token != task.token then w.(initiator := Killing(AcknowledgementMismatch))
         else if task.childPid != 0 && ack.pid != task.childPid then w.(initiator := Killing(AcknowledgementMismatch))
         else w.(initiator := Accepted(ack)))
    case (CheckingDeadline, CheckDeadline(expired)) =>
      w.(initiator := if expired then Killing(OwnershipTimeout) else Polling)
    // A kill that fails leaves the child running until it exits by itself; `wait` returns only then.
    case (Killing(_), Kill(ok)) => if ok then w.(host := Exited, lease := Drop(w.lease, ByHost)) else w
    case (Killing(error), Wait) => if w.host.Exited? then w.(initiator := Cleaning(error)) else w
    case (Cleaning(error), Clean(intent, ack)) =>
      w.(initiator := Failing(error), intent := if intent then None else w.intent, ack := if ack then NoAck else w.ack)
    // The prepared record has revision zero, so the transition succeeds only while it is still current.
    case (Failing(error), Fail(ok)) =>
      if ok && w.state == SessionModel.Prepared
      then w.(initiator := FailedHolding(error, true), state := SessionModel.Failed)
      else w.(initiator := FailedHolding(error, false))
    case (FailedHolding(error, recorded), GiveUpLease) =>
      w.(initiator := ReturnedErr(error, recorded), lease := Drop(w.lease, ByInitiator))
    case (Accepted(ack), ReleaseForHandoff) =>
      w.(initiator := Released(ack), lease := Drop(w.lease, ByInitiator))
    case (Released(ack), RemoveIntent(ok)) =>
      w.(initiator := ReturnedOk(ack), intent := if ok then None else w.intent)
    case (ReturnedOk(_), CrashInitiator) => w
    case (ReturnedErr(_, _), CrashInitiator) => w
    case (_, CrashInitiator) => w.(initiator := Crashed, lease := Drop(w.lease, ByInitiator))
    case _ => w
  }

  function TakeHost(task: Task, w: World, step: Step): World {
    match (w.host, step)
    case (CheckingIntent, CheckIntent(readable)) =>
      if readable && w.intent == Some(Intent(task.session, task.token)) then w.(host := WritingAck)
      else w.(host := Exited)
    case (WritingAck, WriteAck(ok)) =>
      if ok then w.(host := Loading, ack := ParsedAck(Ack(task.session, task.token, task.childPid)))
      else w.(host := Exited)
    case (Loading, Load(ok)) =>
      if ok && w.state == SessionModel.Prepared then w.(host := Acquiring) else w.(host := Exited)
    case (Acquiring, Acquire(ok, expired)) =>
      if !ok then w.(host := Exited)
      else if w.lease.None? then w.(host := Resumed, lease := Some(ByHost))
      else if expired then w.(host := Exited)
      else w.(host := Loading)
    case (Resumed, Launch) => w.(host := Launched)
    case (NotSpawned, ExitHost) => w
    case (_, ExitHost) => w.(host := Exited, lease := Drop(w.lease, ByHost))
    case _ => w
  }

  function TakeOther(w: World, step: Step): World {
    match step
    case OtherIntent(found) => w.(intent := found)
    case OtherAck(found) => w.(ack := found)
    case OtherAcquire => if w.lease.None? then w.(lease := Some(ByOther)) else w
    case OtherRelease => w.(lease := Drop(w.lease, ByOther))
    case OtherTransition(transition) =>
      if SessionModel.ValidateTransition(w.state, transition).Ok? then w.(state := transition.Target()) else w
    case _ => w
  }

  function Take(task: Task, w: World, step: Step): World {
    match step
    case CheckIntent(_) => TakeHost(task, w, step)
    case WriteAck(_) => TakeHost(task, w, step)
    case Load(_) => TakeHost(task, w, step)
    case Acquire(_, _) => TakeHost(task, w, step)
    case Launch => TakeHost(task, w, step)
    case ExitHost => TakeHost(task, w, step)
    case OtherIntent(_) => TakeOther(w, step)
    case OtherAck(_) => TakeOther(w, step)
    case OtherAcquire => TakeOther(w, step)
    case OtherRelease => TakeOther(w, step)
    case OtherTransition(_) => TakeOther(w, step)
    case _ => TakeInitiator(task, w, step)
  }

  function Run(task: Task, w: World, steps: seq<Step>): World
    decreases |steps|
  {
    if steps == [] then w else Run(task, Take(task, w, steps[0]), steps[1..])
  }

  // ---- What every world that can arise looks like ----

  predicate Spawned(w: World) {
    !w.host.NotSpawned?
  }

  predicate ChildKnown(initiator: Initiator) {
    || initiator.Polling? || initiator.CheckingAck? || initiator.CheckingDeadline? || initiator.Killing?
    || initiator.Accepted? || initiator.Released? || initiator.ReturnedOk?
  }

  /** The initiator knows that its child is gone. */
  predicate ChildReaped(initiator: Initiator) {
    initiator.Cleaning? || initiator.Failing? || initiator.FailedHolding? || initiator.ReturnedErr?
  }

  predicate Sound(task: Task, w: World) {
    // A process that believes it owns the session does.
    && (w.initiator.Holds() <==> w.lease == Some(ByInitiator))
    && (w.host.Holds() <==> w.lease == Some(ByHost))
    // The child exists from the spawn on.
    && (w.initiator.WritingIntent? || w.initiator.Spawning? ==> !Spawned(w))
    && (ChildKnown(w.initiator) ==> Spawned(w))
    // Once its failure is certain the child is gone.
    && (ChildReaped(w.initiator) && Spawned(w) ==> w.host.Exited?)
    // Only a matching acknowledgement is accepted.
    && (w.initiator.Accepted? || w.initiator.Released? || w.initiator.ReturnedOk? ==> Matches(task, w.initiator.ack))
    // A recorded failure stays recorded.
    && ((w.initiator.FailedHolding? || w.initiator.ReturnedErr?) && w.initiator.recorded
        ==> w.state != SessionModel.Prepared)
  }

  lemma InitiatorSound(task: Task, w: World, step: Step)
    requires Sound(task, w)
    ensures Sound(task, TakeInitiator(task, w, step))
  {
  }

  lemma HostSound(task: Task, w: World, step: Step)
    requires Sound(task, w)
    ensures Sound(task, TakeHost(task, w, step))
  {
  }

  lemma OtherSound(task: Task, w: World, step: Step)
    requires Sound(task, w)
    ensures Sound(task, TakeOther(w, step))
  {
    if step.OtherTransition? {
      SessionModel.TransitionsAscend(w.state, step.transition);
    }
  }

  lemma TakeSound(task: Task, w: World, step: Step)
    requires Sound(task, w)
    ensures Sound(task, Take(task, w, step))
  {
    hide Sound, TakeInitiator, TakeHost, TakeOther;
    InitiatorSound(task, w, step);
    HostSound(task, w, step);
    OtherSound(task, w, step);
  }

  lemma {:induction false} RunSound(task: Task, w: World, steps: seq<Step>)
    requires Sound(task, w)
    ensures Sound(task, Run(task, w, steps))
    decreases |steps|
  {
    hide Sound, Take;
    if steps != [] {
      TakeSound(task, w, steps[0]);
      RunSound(task, Take(task, w, steps[0]), steps[1..]);
    }
  }

  lemma {:induction false} RunWithoutCrash(task: Task, w: World, steps: seq<Step>)
    requires !w.initiator.Crashed? && CrashInitiator !in steps
    ensures !Run(task, w, steps).initiator.Crashed?
    decreases |steps|
  {
    if steps != [] {
      assert !Take(task, w, steps[0]).initiator.Crashed?;
      RunWithoutCrash(task, Take(task, w, steps[0]), steps[1..]);
    }
  }

  // ---- What holds over whole runs ----

  /** Initiator and host never both own the session, and each owns it whenever it believes so. */
  lemma OneOwner(task: Task, steps: seq<Step>)
    ensures var w := Run(task, START, steps);
            && !(w.initiator.Holds() && w.host.Holds())
            && (w.initiator.Holds() ==> w.lease == Some(ByInitiator))
            && (w.host.Holds() ==> w.lease == Some(ByHost))
  {
    RunSound(task, START, steps);
  }

  /** The initiator returns Ok only for an acknowledgement of this session, with this token, from its child. */
  lemma OkIsAcknowledged(task: Task, steps: seq<Step>)
    requires Run(task, START, steps).initiator.ReturnedOk?
    ensures Matches(task, Run(task, START, steps).initiator.ack)
  {
    RunSound(task, START, steps);
  }

  /** An initiator that returns an error leaves no child behind, and no lease of its own. */
  lemma ErrorLeavesNothing(task: Task, steps: seq<Step>)
    requires Run(task, START, steps).initiator.ReturnedErr?
    ensures var w := Run(task, START, steps);
            && (w.host.NotSpawned? || w.host.Exited?)
            && w.lease != Some(ByInitiator) && w.lease != Some(ByHost)
            && (w.initiator.recorded ==> w.state != SessionModel.Prepared)
  {
    RunSound(task, START, steps);
  }

  /** Unless the initiator crashes, no host gets as far as a launch without an accepted acknowledgement. */
  lemma NoLaunchUnaccepted(task: Task, steps: seq<Step>)
    requires CrashInitiator !in steps && Run(task, START, steps).host.Holds()
    ensures var initiator := Run(task, START, steps).initiator;
            (initiator.Released? || initiator.ReturnedOk?) && Matches(task, initiator.ack)
  {
    RunSound(task, START, steps);
    RunWithoutCrash(task, START, steps);
  }

  predicate LetGo(initiator: Initiator) {
    initiator.Released? || initiator.ReturnedOk? || initiator.Crashed?
  }

  lemma {:induction false} LetsGoForGood(task: Task, w: World, steps: seq<Step>)
    requires LetGo(w.initiator)
    ensures LetGo(Run(task, w, steps).initiator)
    decreases |steps|
  {
    if steps != [] {
      assert LetGo(Take(task, w, steps[0]).initiator);
      LetsGoForGood(task, Take(task, w, steps[0]), steps[1..]);
    }
  }

  lemma {:induction false} RunSplit(task: Task, w: World, steps: seq<Step>, i: nat)
    requires i <= |steps|
    ensures Run(task, w, steps) == Run(task, Run(task, w, steps[..i]), steps[i..])
    decreases i
  {
    hide Take;
    if i == 0 {
      assert steps[i..] == steps;
    } else {
      RunSplit(task, Take(task, w, steps[0]), steps[1..], i - 1);
      assert steps[..i][1..] == steps[1..][..i - 1] && steps[i..] == steps[1..][i - 1..];
    }
  }

  /** An initiator that returns an error has a child that was at no time in a position to launch anything. */
  lemma ErrorMeansNoLaunch(task: Task, steps: seq<Step>, i: nat)
    requires i <= |steps| && Run(task, START, steps).initiator.ReturnedErr?
    ensures !Run(task, START, steps[..i]).host.Holds()
  {
    hide Run;
    RunSound(task, START, steps[..i]);
    RunSplit(task, START, steps, i);
    if Run(task, START, steps[..i]).host.Holds() {
      LetsGoForGood(task, Run(task, START, steps[..i]), steps[i..]);
    }
  }

  lemma {:induction false} Push(task: Task, w: World, steps: seq<Step>, last: Step)
    ensures Run(task, w, steps + [last]) == Take(task, Run(task, w, steps), last)
    decreases |steps|
  {
    hide Take;
    if steps == [] {
      assert [last][1..] == [] && steps + [last] == [last];
    } else {
      assert (steps + [last])[1..] == steps[1..] + [last];
      Push(task, Take(task, w, steps[0]), steps[1..], last);
    }
  }

  predicate Authorized(host: Host) {
    !host.NotSpawned? && !host.CheckingIntent? && !host.Exited?
  }

  /**
   * A host that goes on has itself read the intent file, at a moment when the file handed this session
   * over with this token.
   */
  lemma {:induction false} HostIsAuthorized(task: Task, steps: seq<Step>)
    requires Authorized(Run(task, START, steps).host)
    ensures exists i :: && 0 <= i < |steps| && steps[i] == CheckIntent(true)
                        && Run(task, START, steps[..i]).host == CheckingIntent
                        && Run(task, START, steps[..i]).intent == Some(Intent(task.session, task.token))
    decreases |steps|
  {
    hide Run;
    if steps == [] {
      assert Run(task, START, []) == START by { RunNothing(task, START); }
    } else {
      var n := |steps| - 1;
      var before := Run(task, START, steps[..n]);
      assert steps == steps[..n] + [steps[n]];
      Push(task, START, steps[..n], steps[n]);
      if Authorized(before.host) {
        HostIsAuthorized(task, steps[..n]);
        var i :| && 0 <= i < n && steps[..n][i] == CheckIntent(true)
                 && Run(task, START, steps[..n][..i]).host == CheckingIntent
                 && Run(task, START, steps[..n][..i]).intent == Some(Intent(task.session, task.token));
        assert steps[..n][..i] == steps[..i];
      }
    }
  }

  lemma RunNothing(task: Task, w: World)
    ensures Run(task, w, []) == w
  {
  }

  // ---- Why the initiator returns what it returns ----

  /** What the initiator has made up its mind to return, if it has. */
  function Settled(initiator: Initiator): Option<Result<Ack, HandoffError>> {
    match initiator
    case Accepted(ack) => Some(Ok(ack))
    case Released(ack) => Some(Ok(ack))
    case ReturnedOk(ack) => Some(Ok(ack))
    case Killing(error) => Some(Err(error))
    case Cleaning(error) => Some(Err(error))
    case Failing(error) => Some(Err(error))
    case FailedHolding(error, _) => Some(Err(error))
    case ReturnedErr(error, _) => Some(Err(error))
    case _ => None
  }

  /** The only reasons for each outcome: what the initiator does, where, and what it finds there. */
  predicate Decides(task: Task, w: World, step: Step, outcome: Result<Ack, HandoffError>) {
    match outcome
    case Ok(ack) => step == CheckAck && w.initiator == CheckingAck && w.ack == ParsedAck(ack) && Matches(task, ack)
    case Err(IntentWrite) => step == WriteIntent(false) && w.initiator == WritingIntent
    case Err(ReExec) =>
      || (step.Spawn? && !step.ok && w.initiator == Spawning)
      || (step == TryWait(false) && w.initiator == Polling)
    case Err(ExitedBeforeOwnership) => step == TryWait(true) && w.initiator == Polling && w.host == Exited
    case Err(AcknowledgementMismatch) =>
      && step == CheckAck && w.initiator == CheckingAck
      && (w.ack == MalformedAck || (w.ack.ParsedAck? && !Matches(task, w.ack.ack)))
    // The deadline is looked at only after an acknowledgement file was looked for and not found.
    case Err(OwnershipTimeout) => step == CheckDeadline(true) && w.initiator == CheckingDeadline
  }

  lemma InitiatorSettles(task: Task, w: World, step: Step, outcome: Result<Ack, HandoffError>)
    requires step != CrashInitiator
    ensures Settled(TakeInitiator(task, w, step).initiator) == Some(outcome)
            <==> Settled(w.initiator) == Some(outcome) || Decides(task, w, step, outcome)
  {
  }

  lemma InitiatorUntouched(task: Task, w: World, step: Step)
    ensures TakeHost(task, w, step).initiator == w.initiator
    ensures TakeOther(w, step).initiator == w.initiator
  {
  }

  lemma StepSettles(task: Task, w: World, step: Step, outcome: Result<Ack, HandoffError>)
    requires step != CrashInitiator
    ensures Settled(Take(task, w, step).initiator) == Some(outcome)
            <==> Settled(w.initiator) == Some(outcome) || Decides(task, w, step, outcome)
  {
    hide TakeInitiator, TakeHost, TakeOther, Settled, Matches;
    InitiatorSettles(task, w, step, outcome);
    InitiatorUntouched(task, w, step);
  }

  /** In a run without a crash of the initiator an outcome is settled on exactly when it has its reason. */
  lemma {:induction false} SettledExactly(task: Task, steps: seq<Step>, outcome: Result<Ack, HandoffError>)
    requires CrashInitiator !in steps
    ensures Settled(Run(task, START, steps).initiator) == Some(outcome)
            <==> exists i :: 0 <= i < |steps| && Decides(task, Run(task, START, steps[..i]), steps[i], outcome)
    decreases |steps|
  {
    hide Run, Take, Settled, Decides;
    if steps == [] {
      RunNothing(task, START);
      assert Settled(WritingIntent) == None by { NothingSettled(); }
    } else {
      var n := |steps| - 1;
      var init := steps[..n];
      assert steps == init + [steps[n]];
      Push(task, START, init, steps[n]);
      StepSettles(task, Run(task, START, init), steps[n], outcome);
      SettledExactly(task, init, outcome);
      forall i | 0 <= i < n ensures init[..i] == steps[..i] && init[i] == steps[i] {
      }
    }
  }

  lemma NothingSettled()
    ensures Settled(WritingIntent) == None && !HasRecorded(WritingIntent)
  {
  }

  /** The launch failure is recorded: the session is still prepared, and the write works. */
  predicate FailsPrepared(w: World, step: Step) {
    step == Fail(true) && w.initiator.Failing? && w.state == SessionModel.Prepared
  }

  predicate HasRecorded(initiator: Initiator) {
    (initiator.FailedHolding? || initiator.ReturnedErr?) && initiator.recorded
  }

  lemma StepRecords(task: Task, w: World, step: Step)
    requires step != CrashInitiator
    ensures HasRecorded(Take(task, w, step).initiator) <==> HasRecorded(w.initiator) || FailsPrepared(w, step)
    ensures FailsPrepared(w, step) ==> Take(task, w, step).state == SessionModel.Failed
  {
  }

  /** With this step the launch failure is recorded, and the session has failed. */
  predicate RecordsAt(task: Task, steps: seq<Step>, i: int) {
    && 0 <= i < |steps| && FailsPrepared(Run(task, START, steps[..i]), steps[i])
    && Run(task, START, steps[..i + 1]).state == SessionModel.Failed
  }

  /** An initiator has recorded its failure exactly when it has failed the session while that was prepared. */
  lemma {:induction false} RecordedExactly(task: Task, steps: seq<Step>)
    requires CrashInitiator !in steps
    ensures HasRecorded(Run(task, START, steps).initiator)
            <==> exists i :: RecordsAt(task, steps, i)
    decreases |steps|
  {
    hide Run, Take, HasRecorded, FailsPrepared;
    if steps == [] {
      RunNothing(task, START);
      assert !HasRecorded(WritingIntent) by { NothingSettled(); }
    } else {
      var n := |steps| - 1;
      var init := steps[..n];
      assert steps == init + [steps[n]] && steps[..n + 1] == steps;
      Push(task, START, init, steps[n]);
      StepRecords(task, Run(task, START, init), steps[n]);
      RecordedExactly(task, init);
      forall i | 0 <= i < n ensures RecordsAt(task, init, i) <==> RecordsAt(task, steps, i) {
        assert init[..i] == steps[..i] && init[..i + 1] == steps[..i + 1];
      }
      if i :| RecordsAt(task, init, i) {
        assert RecordsAt(task, steps, i);
      }
      if FailsPrepared(Run(task, START, init), steps[n]) {
        assert RecordsAt(task, steps, n);
      }
    }
  }

  /**
   * While the child lives, no acknowledgement is there and the deadline has not come, a round of polling
   * changes nothing; so does one that finds a file it cannot read. An expired deadline ends the wait.
   */
  lemma PollingRound(task: Task, w: World)
    requires w.initiator == Polling && !w.host.Exited?
    ensures w.ack == NoAck ==>
              && Run(task, w, [TryWait(true), CheckAck, CheckDeadline(false)]) == w
              && Run(task, w, [TryWait(true), CheckAck, CheckDeadline(true)])
                 == w.(initiator := Killing(OwnershipTimeout))
    ensures w.ack == UnreadableAck ==> Run(task, w, [TryWait(true), CheckAck]) == w
  {
    var steps := [TryWait(true), CheckAck];
    assert steps[1..] == [CheckAck] && [CheckAck][1..] == [];
    Push(task, w, steps, CheckDeadline(false));
    Push(task, w, steps, CheckDeadline(true));
    assert steps + [CheckDeadline(false)] == [TryWait(true), CheckAck, CheckDeadline(false)];
    assert steps + [CheckDeadline(true)] == [TryWait(true), CheckAck, CheckDeadline(true)];
    var looking := Take(task, w, TryWait(true));
    assert Run(task, w, steps) == Run(task, looking, [CheckAck]) == Take(task, looking, CheckAck);
  }

  /** The only reasons for which a host is gone: it gives up, exits by itself, or is killed. */
  predicate EndsHost(task: Task, w: World, step: Step) {
    || (w.host == CheckingIntent && step.CheckIntent?
        && !(step.readable && w.intent == Some(Intent(task.session, task.token))))
    || (w.host == WritingAck && step == WriteAck(false))
    || (w.host == Loading && step.Load? && !(step.ok && w.state == SessionModel.Prepared))
    || (w.host == Acquiring && step.Acquire? && (!step.ok || (w.lease.Some? && step.expired)))
    || (Spawned(w) && step == ExitHost)
    || (w.initiator.Killing? && step == Kill(true))
  }

  lemma HostEnds(task: Task, w: World, step: Step)
    requires step != Kill(true)
    ensures TakeHost(task, w, step).host == Exited <==> w.host == Exited || EndsHost(task, w, step)
  {
  }

  lemma InitiatorEnds(task: Task, w: World, step: Step)
    requires Sound(task, w)
    ensures TakeInitiator(task, w, step).host == Exited
            <==> w.host == Exited || (w.initiator.Killing? && step == Kill(true))
  {
  }

  lemma StepEndsHost(task: Task, w: World, step: Step)
    requires Sound(task, w)
    ensures Take(task, w, step).host == Exited <==> w.host == Exited || EndsHost(task, w, step)
  {
    hide TakeInitiator, TakeHost, Sound;
    InitiatorEnds(task, w, step);
    if step != Kill(true) {
      HostEnds(task, w, step);
    }
  }

  /** A host is gone exactly when something has ended it; one that finds the lease taken tries on until its deadline. */
  lemma {:induction false} HostEndsExactly(task: Task, steps: seq<Step>)
    ensures Run(task, START, steps).host == Exited
            <==> exists i :: 0 <= i < |steps| && EndsHost(task, Run(task, START, steps[..i]), steps[i])
    decreases |steps|
  {
    hide Run, Take, EndsHost, Sound;
    if steps == [] {
      RunNothing(task, START);
    } else {
      var n := |steps| - 1;
      var init := steps[..n];
      assert steps == init + [steps[n]];
      Push(task, START, init, steps[n]);
      StartSound(task);
      RunSound(task, START, init);
      StepEndsHost(task, Run(task, START, init), steps[n]);
      HostEndsExactly(task, init);
      forall i | 0 <= i < n ensures init[..i] == steps[..i] && init[i] == steps[i] {
      }
    }
  }

  predicate ShouldBeTidy(initiator: Initiator) {
    || initiator.WritingIntent? || initiator.Failing? || initiator.FailedHolding?
    || initiator.ReturnedErr? || initiator.ReturnedOk?
  }

  /** No intent is left in a world whose initiator has failed or returned. */
  predicate Tidy(w: World) {
    ShouldBeTidy(w.initiator) ==> w.intent == None
  }

  predicate LeavesIntents(step: Step) {
    && !step.OtherIntent? && step != RemoveIntent(false)
    && (step.Clean? ==> step.intent) && (step.Spawn? ==> step.intentRemoved)
  }

  /** When files can be removed and nobody else writes intents, no authorization outlives its handoff. */
  lemma {:induction false} NoIntentLeft(task: Task, w: World, steps: seq<Step>)
    requires Tidy(w) && forall step :: step in steps ==> LeavesIntents(step)
    ensures Tidy(Run(task, w, steps))
    decreases |steps|
  {
    if steps != [] {
      assert LeavesIntents(steps[0]);
      NoIntentLeft(task, Take(task, w, steps[0]), steps[1..]);
    }
  }

  /** No acknowledgement is there before the spawn, and none is left after a failure. */
  predicate Unacknowledged(w: World) {
    w.initiator.WritingIntent? || w.initiator.Spawning? || w.initiator.Failing? || w.initiator.FailedHolding?
    || w.initiator.ReturnedErr?
    ==> w.ack == NoAck
  }

  lemma StepUnacknowledged(task: Task, w: World, step: Step)
    requires Sound(task, w) && Unacknowledged(w) && !step.OtherAck? && (step.Clean? ==> step.ack)
    ensures Unacknowledged(Take(task, w, step))
  {
  }

  /** Nor does an acknowledgement outlive a failed handoff, when files can be removed and nobody else writes any. */
  lemma {:induction false} NoAckLeft(task: Task, w: World, steps: seq<Step>)
    requires Sound(task, w) && Unacknowledged(w)
    requires forall step :: step in steps ==> !step.OtherAck? && (step.Clean? ==> step.ack)
    ensures Unacknowledged(Run(task, w, steps))
    decreases |steps|
  {
    hide Sound, Unacknowledged, Take;
    if steps != [] {
      assert steps[0] in steps;
      TakeSound(task, w, steps[0]);
      StepUnacknowledged(task, w, steps[0]);
      NoAckLeft(task, Take(task, w, steps[0]), steps[1..]);
    }
  }

  const ACKNOWLEDGED := [WriteIntent(true), Spawn(true, true), CheckIntent(true), WriteAck(true)]

  const HANDED_OVER := ACKNOWLEDGED + [Load(true)] + [TryWait(true)] + [CheckAck] + [ReleaseForHandoff]

  lemma Acknowledges(task: Task)
    ensures Run(task, START, ACKNOWLEDGED)
            == World(Polling, Loading, Some(Intent(task.session, task.token)),
                     ParsedAck(Ack(task.session, task.token, task.childPid)), Some(ByInitiator), SessionModel.Prepared)
  {
    Push(task, START, [], WriteIntent(true));
    Push(task, START, [WriteIntent(true)], Spawn(true, true));
    Push(task, START, [WriteIntent(true), Spawn(true, true)], CheckIntent(true));
    Push(task, START, [WriteIntent(true), Spawn(true, true), CheckIntent(true)], WriteAck(true));
    assert [] + [WriteIntent(true)] == [WriteIntent(true)];
  }

  /** A handoff in which everything works, up to the moment that nobody owns the session. */
  lemma HandsOver(task: Task)
    ensures var ack := Ack(task.session, task.token, task.childPid);
            Run(task, START, HANDED_OVER)
            == World(Released(ack), Acquiring, Some(Intent(task.session, task.token)), ParsedAck(ack), None,
                     SessionModel.Prepared)
  {
    hide Run;
    Acknowledges(task);
    Push(task, START, ACKNOWLEDGED, Load(true));
    Push(task, START, ACKNOWLEDGED + [Load(true)], TryWait(true));
    Push(task, START, ACKNOWLEDGED + [Load(true)] + [TryWait(true)], CheckAck);
    Push(task, START, ACKNOWLEDGED + [Load(true)] + [TryWait(true)] + [CheckAck], ReleaseForHandoff);
  }

  /** Ok is no promise that the host owns the session: it may be gone by the time the initiator returns. */
  lemma OkWithoutOwner(task: Task)
    ensures exists steps :: && CrashInitiator !in steps
                            && Run(task, START, steps).initiator.ReturnedOk?
                            && Run(task, START, steps).lease == None && Run(task, START, steps).host == Exited
  {
    hide Run;
    HandsOver(task);
    Push(task, START, HANDED_OVER, ExitHost);
    Push(task, START, HANDED_OVER + [ExitHost], RemoveIntent(true));
    assert Run(task, START, HANDED_OVER + [ExitHost] + [RemoveIntent(true)]).host == Exited;
  }

  /** After the handoff another process takes the free lease, fails the session and lets go again. */
  function Reconciled(failure: SessionModel.Failure): seq<Step> {
    HANDED_OVER + [OtherAcquire] + [OtherTransition(SessionModel.ToFailed(failure))] + [OtherRelease]
  }

  lemma Reconciles(task: Task, failure: SessionModel.Failure)
    ensures var ack := Ack(task.session, task.token, task.childPid);
            Run(task, START, Reconciled(failure))
            == World(Released(ack), Acquiring, Some(Intent(task.session, task.token)), ParsedAck(ack), None,
                     SessionModel.Failed)
    ensures CrashInitiator !in Reconciled(failure)
  {
    hide Run;
    HandsOver(task);
    var fail := OtherTransition(SessionModel.ToFailed(failure));
    Push(task, START, HANDED_OVER, OtherAcquire);
    Push(task, START, HANDED_OVER + [OtherAcquire], fail);
    Push(task, START, HANDED_OVER + [OtherAcquire] + [fail], OtherRelease);
  }

  /**
   * The host loads the record before it acquires the lease. If another process takes the free lease
   * meanwhile and fails the session, as reconciliation does, the host launches a runtime for a session
   * that is no longer prepared.
   */
  lemma LaunchOfFailedSession(task: Task, failure: SessionModel.Failure)
    ensures exists steps :: && CrashInitiator !in steps
                            && Run(task, START, steps).host == Launched
                            && Run(task, START, steps).state == SessionModel.Failed
  {
    hide Run, Reconciled;
    Reconciles(task, failure);
    var steps := Reconciled(failure);
    Push(task, START, steps, Acquire(true, false));
    Push(task, START, steps + [Acquire(true, false)], Launch);
    assert Run(task, START, steps + [Acquire(true, false)] + [Launch]).host == Launched;
  }

  /** Another process has moved the session with this step. */
  predicate Moves(task: Task, steps: seq<Step>, i: int) {
    && 0 <= i < |steps| && steps[i].OtherTransition?
    && Run(task, START, steps[..i + 1]).state != Run(task, START, steps[..i]).state
  }

  /** No host is there, and none will be. */
  predicate Closed(w: World) {
    w.host.Exited? || (w.host.NotSpawned? && !w.initiator.WritingIntent? && !w.initiator.Spawning?)
  }

  /** A session leaves Prepared by its initiator's failure, with no host left, or by somebody else's move. */
  lemma TakeMoves(task: Task, w: World, step: Step)
    requires Sound(task, w)
    ensures var next := Take(task, w, step);
            && (Closed(w) ==> Closed(next))
            && (w.state != SessionModel.Prepared ==> next.state != SessionModel.Prepared)
            && (next.state != w.state ==> step.OtherTransition? || Closed(next))
  {
    if step.OtherTransition? {
      SessionModel.TransitionsAscend(w.state, step.transition);
    }
  }

  lemma {:induction false} MovedExactly(task: Task, steps: seq<Step>)
    ensures var w := Run(task, START, steps);
            && (w.state == SessionModel.Prepared ==> forall i :: !Moves(task, steps, i))
            && (w.state != SessionModel.Prepared ==> Closed(w) || exists i :: Moves(task, steps, i))
    decreases |steps|
  {
    hide Run, Take, Closed, Sound;
    if steps == [] {
      RunNothing(task, START);
    } else {
      var n := |steps| - 1;
      var init := steps[..n];
      var before, after := Run(task, START, init), Run(task, START, steps);
      assert steps == init + [steps[n]] && steps[..n + 1] == steps;
      Push(task, START, init, steps[n]);
      StartSound(task);
      RunSound(task, START, init);
      TakeMoves(task, before, steps[n]);
      MovedExactly(task, init);
      forall i | 0 <= i < n ensures Moves(task, init, i) <==> Moves(task, steps, i) {
        assert init[..i] == steps[..i] && init[..i + 1] == steps[..i + 1];
      }
      if i :| Moves(task, init, i) {
        assert Moves(task, steps, i);
      }
      if after.state != before.state && steps[n].OtherTransition? {
        assert Moves(task, steps, n);
      }
    }
  }

  lemma StartSound(task: Task)
    ensures Sound(task, START)
  {
  }

  /** A host launches, or is about to launch, a prepared session exactly when nobody else has moved it. */
  lemma LaunchExactly(task: Task, steps: seq<Step>)
    requires Run(task, START, steps).host.Holds()
    ensures Run(task, START, steps).state == SessionModel.Prepared <==> forall i :: !Moves(task, steps, i)
  {
    MovedExactly(task, steps);
  }
}
