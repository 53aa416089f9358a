/**
 The wrapper `deferred(fn)` called once: run the main function, record its
 outcome, drain the cleanups, and hand the main outcome back unchanged.
 */
module Deferred {
  import opened Outcomes
  import opened Invocation
  import opened Sequences
  import opened Drains
  import opened DrainProperties

  /**
   The main function, abstracted to the `defer` calls it makes while running
   (in order) and how it finishes.
   */
  datatype Main<+V, +E> = Main(registrations: seq<DeferFunc<E>>, outcome: Outcome<V, E>)

  /** A settled call: what the caller receives, plus the drain it caused. */
  datatype Settled<+V, +E> = Settled(
    outcome: Outcome<V, E>,
    trace: seq<Step<V, E>>,
    error: Option<E>,
    remaining: seq<DeferFunc<E>>)

  /** The error cell when the drain begins: the main error if main failed, else empty. */
  function StartCell<V, E>(o: Outcome<V, E>): Option<E> {
    if o.Fails() then Some(o.Error()) else None
  }

  /** The params record of a drain after `o`. */
  function ParamsAfter<V, E>(o: Outcome<V, E>): Params<V, E> {
    if o.Fails() then Params(Some(o.Error()), None) else Params(None, Some(o.Value()))
  }

  /**
   One call of the wrapped function. A synchronous throw drains
   synchronously and rethrows; an immediate value drains synchronously and
   is returned; a promise is chained to the awaited drain and then to the
   same value or the same rejection.
   */
  function Invoke<V, E>(m: Main<V, E>): (r: Settled<V, E>)
    ensures r.outcome == m.outcome
    ensures r.remaining <= m.registrations
  {
    var ctx := Register(Fresh(), m.registrations);
    match m.outcome
    case Thrown(e) =>
      var failed := ctx.(error := Some(e));
      var d := Drain(failed.defers, Params(Some(e), None), Recover(failed));
      Settled(Thrown(e), d.trace, d.error, d.remaining)
    case Immediate(v) =>
      var d := Drain(ctx.defers, Params(None, Some(v)), Recover(ctx));
      Settled(Immediate(v), d.trace, d.error, d.remaining)
    case Pending(Resolves(v)) =>
      var d := Drain(ctx.defers, Params(None, Some(v)), Recover(ctx));
      Settled(Pending(Resolves(v)), d.trace, d.error, d.remaining)
    case Pending(Rejects(e)) =>
      var failed := ctx.(error := Some(e));
      var d := Drain(failed.defers, Params(Some(e), None), Recover(failed));
      Settled(Pending(Rejects(e)), d.trace, d.error, d.remaining)
  }

  /** Every branch of `Invoke` is a drain of the registrations from the main outcome's cell and params. */
  lemma InvokeIsDrain<V, E>(m: Main<V, E>)
    ensures var r := Invoke(m);
      Drained(r.trace, r.error, r.remaining)
        == Drain(m.registrations, ParamsAfter(m.outcome), StartCell(m.outcome))
  {
    var ctx := Register(Fresh<E>(), m.registrations);
    assert ctx.defers == m.registrations by {
      assert Fresh<E>().defers + m.registrations == m.registrations;
    }
    match m.outcome
    case Thrown(e) =>
    case Immediate(v) =>
    case Pending(Resolves(v)) =>
    case Pending(Rejects(e)) =>
  }

  /**
   Every cleanup of a call receives the same params: the main error and no
   return value after a failure, the main value and no error after a
   success. The first cleanup to run finds the main error in the cell after
   a failure, and nothing after a success.
   */
  lemma InvokeCleanupParams<V, E>(m: Main<V, E>)
    ensures var r := Invoke(m);
      && (m.outcome.Fails() ==>
            forall s :: s in r.trace ==> s.params == Params(Some(m.outcome.Error()), None))
      && (!m.outcome.Fails() ==>
            forall s :: s in r.trace ==> s.params == Params(None, Some(m.outcome.Value())))
      && (m.outcome.Fails() && |r.trace| > 0 ==> r.trace[0].recovered == Some(m.outcome.Error()))
      && (!m.outcome.Fails() && |r.trace| > 0 ==> r.trace[0].recovered == None)
  {
    InvokeIsDrain(m);
    DrainKeepsParams(m.registrations, ParamsAfter(m.outcome), StartCell(m.outcome));
    DrainThreadsCell(m.registrations, ParamsAfter(m.outcome), StartCell(m.outcome));
  }

  /**
   Without an interrupting cleanup, every registered action runs, last
   registered first, whatever they throw or reject with, and the call still
   settles with the main outcome.
   */
  lemma InvokeRunsAllInReverse<V, E>(m: Main<V, E>)
    requires forall j :: 0 <= j < |m.registrations| ==> !Interrupting(m.registrations[j])
    ensures Ran(Invoke(m).trace) == Reverse(Actions(m.registrations))
    ensures Invoke(m).remaining == []
  {
    InvokeIsDrain(m);
    DrainCompletesWithoutInterrupt(m.registrations, ParamsAfter(m.outcome), StartCell(m.outcome));
  }

  /**
   A cleanup that interrupts stops the drain right after itself: the
   cleanups registered before it never run and are exactly what remains.
   */
  lemma InvokeStopsAtInterrupt<V, E>(m: Main<V, E>, k: nat)
    requires k < |m.registrations| && Interrupting(m.registrations[k])
    requires forall j :: k < j < |m.registrations| ==> !Interrupting(m.registrations[j])
    ensures Invoke(m).remaining == m.registrations[..k]
    ensures Ran(Invoke(m).trace) == Reverse(Actions(m.registrations[k..]))
  {
    InvokeIsDrain(m);
    DrainStopsAtInterrupt(m.registrations, ParamsAfter(m.outcome), StartCell(m.outcome), k);
  }

  /**
   `recover()` inside a cleanup returns the latest synchronous cleanup throw
   so far, falling back to the main error if main failed, and to nothing
   otherwise.
   */
  lemma InvokeRecoverSeesLatestThrow<V, E>(m: Main<V, E>)
    ensures var r := Invoke(m);
      && r.error == LatestThrow(r.trace, StartCell(m.outcome))
      && forall i :: 0 <= i < |r.trace| ==>
           r.trace[i].recovered == LatestThrow(r.trace[..i], StartCell(m.outcome))
  {
    InvokeIsDrain(m);
    DrainRecoverSeesLatestThrow(m.registrations, ParamsAfter(m.outcome), StartCell(m.outcome));
  }

  /**
   When main fails and no cleanup throws synchronously, every cleanup's
   `recover()` returns the main error, and so does the cell afterwards.
   */
  lemma RecoverAfterMainFailure<V, E>(m: Main<V, E>)
    requires m.outcome.Fails()
    requires forall a :: a in Actions(m.registrations) ==> !a.completion.Throws?
    ensures Invoke(m).error == Some(m.outcome.Error())
    ensures forall s :: s in Invoke(m).trace ==> s.recovered == Some(m.outcome.Error())
  {
    InvokeIsDrain(m);
    CellUntouchedWithoutSyncThrow(m.registrations, ParamsAfter(m.outcome), StartCell(m.outcome));
  }
}
