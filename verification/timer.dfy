/**
  One countdown (`TimerOperation`) as a record state machine. The real
  operation is a `java.util.TimerTask` ticked once a second by a shared
  `java.util.Timer`; here every tick is an explicit step, and the task's
  cancelled flag (set by `TimerTask.cancel`, which `Timer.cancel` calls)
  is a field: a cancelled task is never run again.
*/
module Timer {

  datatype Operation = Operation(
    duration: int,          // mDuration, in ticks of one second
    elapsed: int,           // mElapsed
    listenerPresent: bool,  // listener != null
    cancelled: bool)        // TimerTask.cancel() has been called

  /** `Timer.countForSeconds(seconds, listener)`: a fresh armed operation. */
  function Start(seconds: int): (op: Operation)
    ensures op.duration == seconds && op.elapsed == 0
    ensures op.listenerPresent && !op.cancelled
  {
    Operation(seconds, 0, true, false)
  }

  /** An operation that a tick can still make fire. */
  predicate Armed(op: Operation) {
    op.listenerPresent && !op.cancelled
  }

  datatype Outcome = Outcome(op: Operation, fired: bool)

  /** `TimerOperation.run()`: count one second; at the threshold cancel, call and drop the listener. */
  function Tick(op: Operation): (r: Outcome)
    ensures op.cancelled ==> r == Outcome(op, false)
    ensures !op.cancelled ==> r.op.elapsed == op.elapsed + 1 && r.op.duration == op.duration
    ensures r.fired <==> Armed(op) && op.elapsed + 1 >= op.duration
    ensures !op.cancelled && op.elapsed + 1 >= op.duration ==> r.op.cancelled && !r.op.listenerPresent
    ensures !r.fired && !op.cancelled && op.elapsed + 1 < op.duration ==> Armed(r.op) == Armed(op)
  {
    if op.cancelled then Outcome(op, false)
    else
      var elapsed := op.elapsed + 1;
      if elapsed >= op.duration then
        Outcome(Operation(op.duration, elapsed, false, true), op.listenerPresent)
      else
        Outcome(op.(elapsed := elapsed), false)
  }

  /** `TimerOperation.incrementBy(seconds)`. */
  function IncrementBy(op: Operation, seconds: int): (r: Operation)
    ensures r.duration == op.duration + seconds
    ensures r.elapsed == op.elapsed && Armed(r) == Armed(op)
  {
    op.(duration := op.duration + seconds)
  }

  /** `TimerOperation.resetTime()`. */
  function ResetTime(op: Operation): (r: Operation)
    ensures r.elapsed == 0 && r.duration == op.duration && Armed(r) == Armed(op)
  {
    op.(elapsed := 0)
  }

  /** `Timer.cancel(operation)`, which is `TimerTask.cancel()`. */
  function Cancel(op: Operation): (r: Operation)
    ensures !Armed(r) && r.duration == op.duration && r.elapsed == op.elapsed
  {
    op.(cancelled := true)
  }

  datatype Step = TickStep | IncrementStep(seconds: int) | ResetStep | CancelStep

  function Apply(op: Operation, step: Step): (r: Outcome)
    ensures r.fired ==> step == TickStep
  {
    match step
    case TickStep => Tick(op)
    case IncrementStep(s) => Outcome(IncrementBy(op, s), false)
    case ResetStep => Outcome(ResetTime(op), false)
    case CancelStep => Outcome(Cancel(op), false)
  }

  datatype History = History(op: Operation, fires: nat)

  /** Applies the steps in order and counts how often the listener was called. */
  function Run(op: Operation, steps: seq<Step>): History
    decreases |steps|
  {
    if steps == [] then History(op, 0)
    else
      var o := Apply(op, steps[0]);
      var h := Run(o.op, steps[1..]);
      History(h.op, h.fires + if o.fired then 1 else 0)
  }

  /** `k` consecutive ticks. */
  function Ticks(k: nat): (s: seq<Step>)
    ensures |s| == k && forall i :: 0 <= i < k ==> s[i] == TickStep
  {
    if k == 0 then [] else [TickStep] + Ticks(k - 1)
  }

  /** The ticks an armed operation still needs before it fires. */
  function Remaining(op: Operation): int {
    if op.duration - op.elapsed >= 1 then op.duration - op.elapsed else 1
  }

  /** The listener is called at most once over any history, since it is dropped when called. */
  lemma {:induction false} FiresAtMostOnce(op: Operation, steps: seq<Step>)
    ensures Run(op, steps).fires + (if Run(op, steps).op.listenerPresent then 1 else 0)
            <= (if op.listenerPresent then 1 else 0)
    decreases |steps|
  {
    if steps != [] {
      var o := Apply(op, steps[0]);
      FiresAtMostOnce(o.op, steps[1..]);
    }
  }

  /** A freshly started operation fires at most once, whatever happens to it. */
  lemma StartedFiresAtMostOnce(seconds: int, steps: seq<Step>)
    ensures Run(Start(seconds), steps).fires <= 1
  {
    FiresAtMostOnce(Start(seconds), steps);
  }

  /** Once cancelled, no step sequence makes the operation fire. */
  lemma {:induction false} CancelledNeverFires(op: Operation, steps: seq<Step>)
    requires op.cancelled
    ensures Run(op, steps).fires == 0 && Run(op, steps).op.cancelled
    decreases |steps|
  {
    if steps != [] {
      CancelledNeverFires(Apply(op, steps[0]).op, steps[1..]);
    }
  }

  /** Cancelling is idempotent, and cancelling then ticking never fires. */
  lemma CancelThenTicksNeverFires(op: Operation, k: nat)
    ensures Cancel(Cancel(op)) == Cancel(op)
    ensures Run(op, [CancelStep] + Ticks(k)).fires == 0
  {
    assert ([CancelStep] + Ticks(k))[1..] == Ticks(k);
    CancelledNeverFires(Cancel(op), Ticks(k));
  }

  /** An armed operation fires on exactly its `Remaining`-th tick. */
  lemma {:induction false} TicksUntilFire(op: Operation, k: nat)
    requires Armed(op)
    ensures Run(op, Ticks(k)).fires == (if k >= Remaining(op) then 1 else 0)
    decreases k
  {
    if k > 0 {
      assert Ticks(k)[1..] == Ticks(k - 1);
      var o := Tick(op);
      if o.fired {
        CancelledNeverFires(o.op, Ticks(k - 1));
      } else {
        assert Remaining(o.op) == Remaining(op) - 1;
        TicksUntilFire(o.op, k - 1);
      }
    }
  }

  /** With no resets or increments, an operation of `n >= 1` seconds fires on the `n`-th tick. */
  lemma FiresOnNthTick(n: int, k: nat)
    requires n >= 1
    ensures Run(Start(n), Ticks(k)).fires == (if k >= n then 1 else 0)
  {
    TicksUntilFire(Start(n), k);
  }

  /** `incrementBy(s)` postpones the firing tick by `s` when the deadline stays ahead. */
  lemma IncrementPostpones(op: Operation, s: int, k: nat)
    requires Armed(op) && op.duration + s - op.elapsed >= 1
    ensures Run(IncrementBy(op, s), Ticks(k)).fires == (if k >= op.duration + s - op.elapsed then 1 else 0)
  {
    TicksUntilFire(IncrementBy(op, s), k);
  }

  /** Duration 1 followed by `incrementBy(1)` fires on tick 2, not on tick 1. */
  lemma OneSecondIncrementedByOne()
    ensures Run(IncrementBy(Start(1), 1), Ticks(1)).fires == 0
    ensures Run(IncrementBy(Start(1), 1), Ticks(2)).fires == 1
  {
    IncrementPostpones(Start(1), 1, 1);
    IncrementPostpones(Start(1), 1, 2);
  }

  /** `resetTime` makes the operation wait its whole duration again. */
  lemma ResetPostpones(op: Operation, k: nat)
    requires Armed(op) && op.duration >= 1
    ensures Run(ResetTime(op), Ticks(k)).fires == (if k >= op.duration then 1 else 0)
  {
    TicksUntilFire(ResetTime(op), k);
  }
}
