/** The three-step test procedure of the config node's procedure framework:
    its step function over a shared 32-bit accumulator, its state codes, its
    rollback policy, and the branching of its lock callbacks.

    The framework's base class (how `setNextState` and `setFailure` are
    stored, the rollback walk, persistence) and the lock class behind the
    environment are not part of this model: a step reports the next state and
    the failure it records, and the lock's own answers are inputs. */
module SecondStateMachineProcedure {
  import opened Common

  /** The procedure's states, in declaration (ordinal) order. */
  datatype TestState = Step1 | Step2 | Step3

  /** Number of values of the state enumeration. */
  const StateCount: nat := 3

  /** Signal returned by one step: more steps follow, or the procedure is done. */
  datatype Flow = HasMoreState | NoMoreState

  /** Answer of `acquireLock`. */
  datatype LockState = LockAcquired | LockEventWait

  /** Procedure identifiers are Java `long`s. */
  type ProcId = Int64

  /** The message recorded when step 2 fails. */
  const FailureMessage: string := "SecondStateMachineProcedure failed"

  /** The procedure's own fields plus the bookkeeping the base class keeps
      for it: the state to run next and the recorded failure, if any. */
  datatype Procedure = Procedure(
    procId: ProcId,
    throwAtIndex: Int32,
    state: TestState,
    failure: Option<string>)

  /** The outcome of one step: the procedure afterwards, the accumulator
      afterwards, and the flow signal returned to the driver. */
  datatype StepResult = StepResult(proc: Procedure, acc: Int32, flow: Flow)

  // State codes

  /** The persistence code of a state: its ordinal. */
  function GetStateId(s: TestState): (id: nat)
    ensures id < StateCount
  {
    match s
    case Step1 => 0
    case Step2 => 1
    case Step3 => 2
  }

  /** The state with ordinal `id`; indexing the values array outside
      `[0, StateCount)` throws, which is `None` here. */
  function GetState(id: Int32): (r: Option<TestState>)
    ensures r.Some? <==> 0 <= id < StateCount
    ensures r.Some? ==> GetStateId(r.value) == id
  {
    if id == 0 then Some(Step1)
    else if id == 1 then Some(Step2)
    else if id == 2 then Some(Step3)
    else None
  }

  /** Decoding the code of a state gives the state back. */
  lemma StateCodeRoundTrip(s: TestState)
    ensures GetState(GetStateId(s)) == Some(s)
  {
  }

  /** Distinct states have distinct codes. */
  lemma GetStateIdInjective(a: TestState, b: TestState)
    ensures GetStateId(a) == GetStateId(b) <==> a == b
  {
    StateCodeRoundTrip(a);
    StateCodeRoundTrip(b);
  }

  /** Every procedure starts in the state with code 0. */
  function GetInitialState(): (s: TestState)
    ensures GetStateId(s) == 0
    ensures forall t: TestState :: GetStateId(s) <= GetStateId(t)
  {
    Step1
  }

  /** Rollback is supported in every state. */
  function IsRollbackSupported(s: TestState): (r: bool)
    ensures r
  {
    true
  }

  /** A freshly constructed procedure: `throwAtIndex` defaults to -1, no
      failure is recorded and the base class starts at the initial state. */
  function NewProcedure(procId: ProcId): (p: Procedure)
    ensures p.procId == procId && p.throwAtIndex == -1
    ensures p.state == GetInitialState() && p.failure.None?
    ensures !(p.throwAtIndex > 0)
  {
    Procedure(procId, -1, GetInitialState(), None)
  }

  // Step function

  /** True when running step 2 of `p` raises the test exception. */
  predicate Throws(p: Procedure) {
    p.state == Step2 && p.throwAtIndex > 0
  }

  /** `executeFromState`: step 1 adds one to the accumulator and moves to
      step 2; step 2 either moves to step 3 or, when `throwAtIndex > 0`,
      catches its own exception and records a failure (rollback being
      supported); step 3 subtracts one and ends the procedure. */
  function ExecuteFromState(p: Procedure, acc: Int32): (r: StepResult)
    // identity and the test switch are never touched
    ensures r.proc.procId == p.procId && r.proc.throwAtIndex == p.throwAtIndex
    // only step 3 ends the procedure
    ensures r.flow == NoMoreState <==> p.state == Step3
    // the state only moves forward, by exactly one code
    ensures r.proc.state != p.state <==> p.state != Step3 && !Throws(p)
    ensures r.proc.state != p.state ==> GetStateId(r.proc.state) == GetStateId(p.state) + 1
    // a failure is recorded exactly when step 2 throws
    ensures Throws(p) ==> r.proc.failure == Some(FailureMessage)
    ensures !Throws(p) ==> r.proc.failure == p.failure
    // accumulator: +1 at step 1, -1 at step 3 (modulo 2^32), else unchanged
    ensures p.state == Step1 ==> (r.acc - (acc + 1)) % IntModulus == 0
    ensures p.state == Step1 && acc < IntMax ==> r.acc == acc + 1
    ensures p.state == Step2 ==> r.acc == acc
    ensures p.state == Step3 ==> (r.acc - (acc - 1)) % IntModulus == 0
    ensures p.state == Step3 && acc > IntMin ==> r.acc == acc - 1
  {
    match p.state
    case Step1 =>
      StepResult(p.(state := Step2), Wrap32(acc + 1), HasMoreState)
    case Step2 =>
      if p.throwAtIndex > 0 then
        // the exception is caught inside the step itself
        var failure := if IsRollbackSupported(p.state) then Some(FailureMessage) else p.failure;
        StepResult(p.(failure := failure), acc, HasMoreState)
      else
        StepResult(p.(state := Step3), acc, HasMoreState)
    case Step3 =>
      StepResult(p, Wrap32(acc - 1), NoMoreState)
  }

  // Forward drive

  /** The outcome of driving a procedure forward: the procedure and
      accumulator at the end, the last flow signal, and the states executed
      in order. */
  datatype RunResult = RunResult(proc: Procedure, acc: Int32, flow: Flow, trace: seq<TestState>)

  /** Repeatedly executes the current state until a step returns
      `NoMoreState` or records a failure; what the framework does after a
      failure (its rollback walk) is not part of this model. */
  function Run(p: Procedure, acc: Int32): (r: RunResult)
    decreases StateCount - GetStateId(p.state)
  {
    var step := ExecuteFromState(p, acc);
    if step.flow == NoMoreState || step.proc.failure.Some? then
      RunResult(step.proc, step.acc, step.flow, [p.state])
    else
      var rest := Run(step.proc, step.acc);
      RunResult(rest.proc, rest.acc, rest.flow, [p.state] + rest.trace)
  }

  /** Any drive executes consecutive states, starting at the current one,
      and stops either at the end of the procedure or at a failure. */
  lemma {:induction false} RunIsForward(p: Procedure, acc: Int32)
    requires p.failure.None?
    ensures var r := Run(p, acc);
      && |r.trace| >= 1 && r.trace[0] == p.state
      && (forall i :: 0 <= i < |r.trace| - 1 ==> GetStateId(r.trace[i + 1]) == GetStateId(r.trace[i]) + 1)
      && r.proc.state == r.trace[|r.trace| - 1]
      && (r.flow == NoMoreState <==> r.proc.failure.None?)
    decreases StateCount - GetStateId(p.state)
  {
    var step := ExecuteFromState(p, acc);
    if step.flow == NoMoreState || step.proc.failure.Some? {
    } else {
      RunIsForward(step.proc, step.acc);
      var rest := Run(step.proc, step.acc);
      var trace := [p.state] + rest.trace;
      forall i | 0 <= i < |trace| - 1
        ensures GetStateId(trace[i + 1]) == GetStateId(trace[i]) + 1
      {
        if i > 0 {
          assert trace[i] == rest.trace[i - 1] && trace[i + 1] == rest.trace[i];
        }
      }
    }
  }

  /** A fresh procedure with the fault switch off runs steps 1, 2 and 3,
      ends without failure and leaves the accumulator where it started. */
  lemma FaultFreeRunRestoresAccumulator(procId: ProcId, throwAtIndex: Int32, acc: Int32)
    requires throwAtIndex <= 0
    ensures var r := Run(Procedure(procId, throwAtIndex, GetInitialState(), None), acc);
      && r.trace == [Step1, Step2, Step3]
      && r.flow == NoMoreState
      && r.proc.failure.None?
      && r.acc == acc
  {
    var p := Procedure(procId, throwAtIndex, GetInitialState(), None);
    var s1 := ExecuteFromState(p, acc);
    var s2 := ExecuteFromState(s1.proc, s1.acc);
    var s3 := ExecuteFromState(s2.proc, s2.acc);
    assert Run(s2.proc, s2.acc) == RunResult(s3.proc, s3.acc, NoMoreState, [Step3]);
    assert Run(s1.proc, s1.acc).trace == [Step2, Step3];
    assert s3.acc == Wrap32(Wrap32(acc + 1) - 1);
    if acc == IntMax {
      assert Wrap32(acc + 1) == IntMin;
    }
  }

  /** With the fault switch on, the drive stops in step 2 with a recorded
      failure. The increment of step 1 remains on the accumulator: this
      class's rollback hook only logs, so undoing it is not its doing. */
  lemma FaultyRunStopsAtStep2(procId: ProcId, throwAtIndex: Int32, acc: Int32)
    requires throwAtIndex > 0
    ensures var r := Run(Procedure(procId, throwAtIndex, GetInitialState(), None), acc);
      && r.trace == [Step1, Step2]
      && r.flow == HasMoreState
      && r.proc.state == Step2
      && r.proc.failure == Some(FailureMessage)
      && r.acc == Wrap32(acc + 1)
  {
  }

  // Lock callbacks

  /** The execute lock as this class sees it: an owner and a FIFO queue of
      waiting procedures. */
  datatype ExecuteLock = ExecuteLock(owner: Option<ProcId>, waiters: seq<ProcId>)

  datatype AcquireResult = AcquireResult(lockState: LockState, lock: ExecuteLock)

  /** `acquireLock`, given the lock as `tryLock` left it and whether
      `tryLock` succeeded: on success the answer is `LockAcquired`;
      otherwise the procedure is queued behind the current waiters and the
      answer is `LockEventWait`. */
  function AcquireLock(lock: ExecuteLock, procId: ProcId, tryLockSucceeded: bool): (r: AcquireResult)
    ensures r.lockState == LockAcquired <==> tryLockSucceeded
    ensures r.lock.owner == lock.owner
    ensures tryLockSucceeded ==> r.lock.waiters == lock.waiters
    ensures !tryLockSucceeded ==>
      && |r.lock.waiters| == |lock.waiters| + 1
      && r.lock.waiters[..|lock.waiters|] == lock.waiters
      && r.lock.waiters[|lock.waiters|] == procId
      && multiset(r.lock.waiters) == multiset(lock.waiters) + multiset{procId}
  {
    if tryLockSucceeded then
      AcquireResult(LockAcquired, lock)
    else
      AcquireResult(LockEventWait, lock.(waiters := lock.waiters + [procId]))
  }

  datatype ReleaseResult = ReleaseResult(wakeInvoked: bool, lock: ExecuteLock)

  /** `releaseLock`, given the lock as its own `releaseLock` left it and
      whether that call reported a change of ownership: the waiting
      procedures are handed to the scheduler exactly in that case; the wake
      itself belongs to the lock class. */
  function ReleaseLock(lock: ExecuteLock, lockReleased: bool): (r: ReleaseResult)
    ensures r.wakeInvoked <==> lockReleased
    ensures !lockReleased ==> r.lock.waiters == lock.waiters && r.lock.owner == lock.owner
  {
    ReleaseResult(lockReleased, lock)
  }

  /** The lock after the procedures `procIds` each fail `tryLock` in turn. */
  function WaitAll(lock: ExecuteLock, procIds: seq<ProcId>): ExecuteLock
    decreases |procIds|
  {
    if procIds == [] then lock
    else WaitAll(AcquireLock(lock, procIds[0], false).lock, procIds[1..])
  }

  /** Contending procedures are queued in the order they asked, behind the
      procedures already waiting, and the owner is left alone. */
  lemma {:induction false} ContendedAcquiresQueueInOrder(lock: ExecuteLock, procIds: seq<ProcId>)
    ensures WaitAll(lock, procIds).waiters == lock.waiters + procIds
    ensures WaitAll(lock, procIds).owner == lock.owner
    decreases |procIds|
  {
    if procIds != [] {
      var next := AcquireLock(lock, procIds[0], false).lock;
      ContendedAcquiresQueueInOrder(next, procIds[1..]);
      assert next.waiters == lock.waiters + [procIds[0]];
      assert [procIds[0]] + procIds[1..] == procIds;
      assert lock.waiters + [procIds[0]] + procIds[1..] == lock.waiters + procIds;
    }
  }
}
