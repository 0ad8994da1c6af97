/** The result of one reconcile pass and the rule by which every stage of a
    reconciler turns its own answer into that result. */
module Reconciling {

  datatype Option<+T> = None | Some(value: T)

  // Requeue intervals, in seconds. NO_REQUEUE is the period of a stage that does not ask for a requeue.
  const NO_REQUEUE := -1
  const IMMEDIATE := 2
  const QUICK := 5
  const DEFAULT := 30
  const LONGER := 120

  /** What comes of a pass: the work queue is told that there is nothing more to do, to come back later, or to retry
      because of an error; or the pass panics. */
  datatype Verdict = Done | RequeueAfter(seconds: int) | Error | Crash

  /** What a call returns, unless it panics. */
  datatype Attempt<+T> = Panicked | Returned(value: T)
  {
    predicate IsFailure() {
      Panicked?
    }

    function PropagateFailure<U>(): Attempt<U>
      requires Panicked?
    {
      Panicked
    }

    function Extract(): T
      requires Returned?
    {
      value
    }
  }

  /** The answer of one stage. */
  datatype Answer = Answer(reconcile: bool, period: int, err: bool)
  {
    /** Only an answer that asks for a reconcile and carries no error lets its write go out. */
    predicate Writes() {
      reconcile && !err
    }

    /** The pass ends here, with an error or with a requeue. */
    predicate Ends() {
      err || (reconcile && period != NO_REQUEUE)
    }
  }

  const PASS_ON := Answer(false, NO_REQUEUE, false)

  /** Decides what a stage's answer does to the pass. The write itself is issued by the caller when
      `answer.Writes()`; `writeFailed` is what came of it. `None` means the pass goes on to the next stage. */
  function Step(answer: Answer, writeFailed: bool): (handled: Option<Verdict>)
    ensures handled.None? <==> !answer.err && !answer.reconcile
    ensures handled == Some(Error) <==> answer.err || (answer.reconcile && writeFailed)
    ensures handled == Some(Done) <==> answer.Writes() && !writeFailed && !answer.Ends()
    ensures handled.Some? && handled.value.RequeueAfter? ==> handled.value.seconds == answer.period
  {
    if answer.err then Some(Error)
    else if answer.reconcile then
      if writeFailed then Some(Error)
      else if answer.period == NO_REQUEUE then Some(Done)
      else Some(RequeueAfter(answer.period))
    else None
  }
}
