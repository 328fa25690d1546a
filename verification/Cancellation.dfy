/**
 * The cancellation slot: an atomic flag beside a slot that a mutex protects. Signal handlers record a
 * kind of cancellation, supervisors poll for the latest one.
 */
module Cancellation {
  import opened Wrappers

  datatype Kind = Interrupt | Terminate

  // ---- One call at a time ----

  class CancellationState {
    var received: bool
    var kind: Option<Kind>

    /** A pending kind is announced by the flag. */
    ghost predicate Valid()
      reads this
    {
      kind.Some? ==> received
    }

    constructor ()
      ensures Valid() && kind == None
    {
      received, kind := false, None;
    }

    method Record(k: Kind)
      modifies this
      ensures Valid() && kind == Some(k)
    {
      kind := Some(k);
      received := true;
    }

    /** Delivers what is pending, once. */
    method Poll() returns (r: Option<Kind>)
      requires Valid()
      modifies this
      ensures Valid() && r == old(kind) && kind == None && !received
    {
      var was := received;
      received := false;
      if !was {
        return None;
      }
      r := kind;
      kind := None;
    }
  }

  // ---- Any number of calls at once ----

  type Pid = nat

  /** Where a thread is in `record` or `poll`. */
  datatype Local =
    | Idle
    | RecordLocked(kind: Kind)
    | RecordWritten
    | RecordStored
    | PollSwapped
    | PollLocked
    | PollTaken

  /**
   * The slot and the flag, with a record of everything that happened: the kinds in the order in which
   * they were written to the slot, and the positions in that order of those that polls have taken out.
   */
  datatype World = World(flag: bool, slot: Option<nat>, lock: Option<Pid>, locals: map<Pid, Local>,
                         recorded: seq<Kind>, delivered: seq<nat>)

  datatype Action = LockToRecord(kind: Kind) | WriteSlot | StoreFlag | Swap | LockToPoll | TakeSlot | Unlock

  datatype Step = Step(pid: Pid, action: Action)

  const START := World(false, None, None, map[], [], [])

  function Doing(w: World, pid: Pid): Local {
    if pid in w.locals then w.locals[pid] else Idle
  }

  function Become(w: World, pid: Pid, local: Local): World {
    w.(locals := w.locals[pid := local])
  }

  function Take(w: World, step: Step): World {
    var pid := step.pid;
    match (Doing(w, pid), step.action)
    case (Idle, LockToRecord(kind)) =>
      if w.lock.None? then Become(w.(lock := Some(pid)), pid, RecordLocked(kind)) else w
    case (RecordLocked(kind), WriteSlot) =>
      Become(w.(slot := Some(|w.recorded|), recorded := w.recorded + [kind]), pid, RecordWritten)
    case (RecordWritten, StoreFlag) => Become(w.(flag := true), pid, RecordStored)
    case (RecordStored, Unlock) => Become(w.(lock := None), pid, Idle)
    case (Idle, Swap) => if w.flag then Become(w.(flag := false), pid, PollSwapped) else w
    case (PollSwapped, LockToPoll) => if w.lock.None? then Become(w.(lock := Some(pid)), pid, PollLocked) else w
    case (PollLocked, TakeSlot) =>
      Become(if w.slot.Some? then w.(slot := None, delivered := w.delivered + [w.slot.value]) else w, pid, PollTaken)
    case (PollTaken, Unlock) => Become(w.(lock := None), pid, Idle)
    case _ => w
  }

  function Run(w: World, steps: seq<Step>): World
    decreases |steps|
  {
    if steps == [] then w else Run(Take(w, steps[0]), steps[1..])
  }

  predicate InLock(local: Local) {
    !local.Idle? && !local.PollSwapped?
  }

  predicate MidPoll(w: World, pid: Pid) {
    Doing(w, pid).PollSwapped? || Doing(w, pid).PollLocked?
  }

  predicate MidRecord(w: World, pid: Pid) {
    Doing(w, pid).RecordWritten?
  }

  /** The lock is held by the one thread that is inside it. */
  ghost predicate Exclusive(w: World) {
    forall pid: Pid :: InLock(Doing(w, pid)) <==> w.lock == Some(pid)
  }

  /** A pending value is announced, or about to be announced, or about to be taken. */
  ghost predicate Announced(w: World) {
    w.slot.Some? ==> w.flag || (exists pid: Pid :: MidPoll(w, pid)) || (exists pid: Pid :: MidRecord(w, pid))
  }

  /** What is pending is the latest; the latest is pending or was the last to be delivered. */
  predicate Latest(w: World) {
    && (w.slot.Some? ==> w.slot.value == |w.recorded| - 1)
    && (w.recorded != [] && w.slot.None? ==> w.delivered != [] && w.delivered[|w.delivered| - 1] == |w.recorded| - 1)
  }

  /** Deliveries keep the order of recording, and none comes twice or while it is still pending. */
  ghost predicate InOrder(w: World) {
    && (forall i, j :: 0 <= i < j < |w.delivered| ==> w.delivered[i] < w.delivered[j])
    && (forall i :: 0 <= i < |w.delivered|
                    ==> w.delivered[i] < if w.slot.Some? then w.slot.value else |w.recorded|)
  }

  ghost predicate Sound(w: World) {
    Exclusive(w) && Announced(w) && Latest(w) && InOrder(w)
  }

  lemma TakeExclusive(w: World, step: Step)
    requires Exclusive(w)
    ensures Exclusive(Take(w, step))
  {
    var later := Take(w, step);
    forall pid: Pid ensures InLock(Doing(later, pid)) <==> later.lock == Some(pid) {
      assert InLock(Doing(w, pid)) <==> w.lock == Some(pid);
      assert InLock(Doing(w, step.pid)) <==> w.lock == Some(step.pid);
    }
  }

  lemma TakeAnnounced(w: World, step: Step)
    requires Announced(w)
    ensures Announced(Take(w, step))
  {
    var pid, later := step.pid, Take(w, step);
    if later.slot.Some? && !later.flag {
      if later.slot != w.slot {
        assert MidRecord(later, pid);
      } else if w.flag {
        assert MidPoll(later, pid);
      } else if p: Pid :| MidPoll(w, p) {
        assert MidPoll(later, p);
      } else {
        var p: Pid :| MidRecord(w, p);
        assert MidRecord(later, p);
      }
    }
  }

  lemma TakeSound(w: World, step: Step)
    requires Sound(w)
    ensures Sound(Take(w, step))
  {
    hide Exclusive, Announced, Doing;
    TakeExclusive(w, step);
    TakeAnnounced(w, step);
  }

  lemma {:induction false} RunSound(w: World, steps: seq<Step>)
    requires Sound(w)
    ensures Sound(Run(w, steps))
    decreases |steps|
  {
    hide Sound, Take;
    if steps != [] {
      TakeSound(w, steps[0]);
      RunSound(Take(w, steps[0]), steps[1..]);
    }
  }

  lemma StartSound()
    ensures Sound(START)
  {
  }

  /** However many threads record and poll, every cancellation is delivered at most once. */
  lemma DeliveredOnce(steps: seq<Step>, i: nat, j: nat)
    requires i < |Run(START, steps).delivered| && j < |Run(START, steps).delivered|
    requires Run(START, steps).delivered[i] == Run(START, steps).delivered[j]
    ensures i == j
    ensures Run(START, steps).delivered[i] < |Run(START, steps).recorded|
  {
    StartSound();
    RunSound(START, steps);
  }

  /** A cancellation that is neither pending nor delivered has been replaced by a later one. */
  lemma LostOnlyIfReplaced(steps: seq<Step>, n: nat)
    requires n < |Run(START, steps).recorded|
    requires Run(START, steps).slot != Some(n) && n !in Run(START, steps).delivered
    ensures n < |Run(START, steps).recorded| - 1
  {
    StartSound();
    RunSound(START, steps);
  }

  /** Nobody is inside a call. */
  ghost predicate Quiescent(w: World) {
    forall pid: Pid :: Doing(w, pid).Idle?
  }

  /** With nobody else at work, a poll delivers the latest cancellation if one is pending, and nothing otherwise. */
  lemma QuietPoll(steps: seq<Step>, pid: Pid)
    requires Quiescent(Run(START, steps))
    ensures var w := Run(START, steps);
            var polled := Run(w, [Step(pid, Swap), Step(pid, LockToPoll), Step(pid, TakeSlot), Step(pid, Unlock)]);
            && Quiescent(polled) && polled.slot == None && !polled.flag
            && polled.recorded == w.recorded
            && polled.delivered == (if w.slot.Some? then w.delivered + [|w.recorded| - 1] else w.delivered)
            && (w.recorded != [] ==> |w.recorded| - 1 in polled.delivered)
  {
    hide Run, Take, Sound;
    StartSound();
    RunSound(START, steps);
    FourSteps(Run(START, steps), Step(pid, Swap), Step(pid, LockToPoll), Step(pid, TakeSlot), Step(pid, Unlock));
    QuietTakes(Run(START, steps), pid);
  }

  lemma QuietTakes(w: World, pid: Pid)
    requires Quiescent(w) && Sound(w)
    ensures var swapped := Take(w, Step(pid, Swap));
            var locked := Take(swapped, Step(pid, LockToPoll));
            var polled := Take(Take(locked, Step(pid, TakeSlot)), Step(pid, Unlock));
            && Quiescent(polled) && polled.slot == None && !polled.flag
            && polled.recorded == w.recorded
            && polled.delivered == (if w.slot.Some? then w.delivered + [|w.recorded| - 1] else w.delivered)
            && (w.recorded != [] ==> |w.recorded| - 1 in polled.delivered)
  {
    assert Doing(w, pid).Idle?;
    assert w.lock.Some? ==> InLock(Doing(w, w.lock.value));
    if !w.flag {
      assert Take(w, Step(pid, Swap)) == w;
    }
    var swapped := Take(w, Step(pid, Swap));
    var locked := Take(swapped, Step(pid, LockToPoll));
    var polled := Take(Take(locked, Step(pid, TakeSlot)), Step(pid, Unlock));
    forall other: Pid ensures Doing(polled, other).Idle? {
      assert Doing(w, other).Idle?;
    }
  }

  /** With nobody else at work, recording a kind makes that kind the one that is pending, and announces it. */
  lemma QuietRecord(steps: seq<Step>, pid: Pid, kind: Kind)
    requires Quiescent(Run(START, steps))
    ensures var w := Run(START, steps);
            var later := Run(w, [Step(pid, LockToRecord(kind)), Step(pid, WriteSlot), Step(pid, StoreFlag),
                                 Step(pid, Unlock)]);
            && Quiescent(later) && later.flag && later.delivered == w.delivered
            && later.recorded == w.recorded + [kind] && later.slot == Some(|w.recorded|)
  {
    hide Run, Take, Sound;
    StartSound();
    RunSound(START, steps);
    FourSteps(Run(START, steps), Step(pid, LockToRecord(kind)), Step(pid, WriteSlot), Step(pid, StoreFlag),
              Step(pid, Unlock));
    QuietWrites(Run(START, steps), pid, kind);
  }

  lemma QuietWrites(w: World, pid: Pid, kind: Kind)
    requires Quiescent(w) && Sound(w)
    ensures var locked := Take(w, Step(pid, LockToRecord(kind)));
            var later := Take(Take(Take(locked, Step(pid, WriteSlot)), Step(pid, StoreFlag)), Step(pid, Unlock));
            && Quiescent(later) && later.flag && later.delivered == w.delivered
            && later.recorded == w.recorded + [kind] && later.slot == Some(|w.recorded|)
  {
    assert Doing(w, pid).Idle?;
    assert w.lock.Some? ==> InLock(Doing(w, w.lock.value));
    var locked := Take(w, Step(pid, LockToRecord(kind)));
    var later := Take(Take(Take(locked, Step(pid, WriteSlot)), Step(pid, StoreFlag)), Step(pid, Unlock));
    forall other: Pid ensures Doing(later, other).Idle? {
      assert Doing(w, other).Idle?;
    }
  }

  lemma FourSteps(w: World, s0: Step, s1: Step, s2: Step, s3: Step)
    ensures Run(w, [s0, s1, s2, s3]) == Take(Take(Take(Take(w, s0), s1), s2), s3)
  {
    hide Take;
    assert [s0, s1, s2, s3][1..] == [s1, s2, s3] && [s1, s2, s3][1..] == [s2, s3];
    assert [s2, s3][1..] == [s3] && [s3][1..] == [];
    var w2 := Take(Take(w, s0), s1);
    assert Run(w2, [s2, s3]) == Run(Take(w2, s2), [s3]);
    assert Run(Take(w2, s2), [s3]) == Run(Take(Take(w2, s2), s3), []);
  }
}
