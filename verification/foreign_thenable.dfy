/**
 The awaited drain exactly as written, for cleanups that return a foreign
 thenable: a promise-like object that is not `instanceof Promise`.
 `deferApply` returns such a result without attaching its rejection
 handler, and `dequeue` then awaits it, so a rejection escapes the awaited
 drain although it is meant to always resolve. The synchronous drain never
 awaits, so it is unaffected; `Drains.Drain` is the intended behaviour,
 which treats every promise-like result alike.
 */
module ForeignThenable {
  import opened Outcomes
  import opened Invocation
  import opened Drains
  import opened Deferred

  /** An awaited drain that may itself reject. */
  datatype AwaitedDrain<+V, +E> = AwaitedDrain(drained: Drained<V, E>, rejection: Option<E>)

  /** A cleanup result whose rejection nobody catches before `await`. */
  predicate EscapingRejection<E>(c: Completion<E>) {
    c.ForeignThenable? && c.settles.Rejects?
  }

  /** No registered action returns a rejecting foreign thenable. */
  predicate NoEscapingRejection<E>(defers: seq<DeferFunc<E>>) {
    forall j :: 0 <= j < |defers| && defers[j].Func? ==> !EscapingRejection(defers[j].action.completion)
  }

  /**
   `dequeue` as written: like the intended drain, except that awaiting a
   rejecting foreign thenable throws out of the loop, leaving the cell as it
   was and every lower entry unpopped.
   */
  function DequeueAsWritten<V, E>(defers: seq<DeferFunc<E>>, params: Params<V, E>, cell: Option<E>): (r: AwaitedDrain<V, E>)
    ensures r.drained.remaining <= defers
    ensures NoEscapingRejection(defers) ==> r.rejection == None && r.drained == Drain(defers, params, cell)
    ensures r.rejection.None? ==> r.drained == Drain(defers, params, cell)
    ensures r.rejection.Some? ==>
      (|r.drained.trace| > 0 && EscapingRejection(r.drained.trace[|r.drained.trace| - 1].action.completion))
    decreases |defers|
  {
    if |defers| == 0 then AwaitedDrain(Drained([], cell, []), None)
    else
      var rest := defers[..|defers| - 1];
      assert NoEscapingRejection(defers) ==> NoEscapingRejection(rest);
      match defers[|defers| - 1]
      case Falsy => DequeueAsWritten(rest, params, cell)
      case Func(a) =>
        var step := Step(a, params, cell);
        if EscapingRejection(a.completion) then
          AwaitedDrain(Drained([step], cell, rest), Some(a.completion.settles.error))
        else
          var cell' := DeferApply(a.completion, cell);
          if a.interrupts then AwaitedDrain(Drained([step], cell', rest), None)
          else
            var r := DequeueAsWritten(rest, params, cell');
            AwaitedDrain(Drained([step] + r.drained.trace, r.drained.error, r.drained.remaining), r.rejection)
  }

  /**
   One call as written. The synchronous entry points never await a cleanup
   and behave as `Invoke`. On the promise path a rejection escaping the
   drain is caught by the trailing `.catch`: after a successful main it is
   taken for a main failure, stored, the rest of the stack is drained again
   with it as the error, and the call rejects with it; after a failed main
   it replaces the main error as the rejection.
   */
  function InvokeAsWritten<V, E>(m: Main<V, E>): (r: Settled<V, E>)
    ensures !m.outcome.Pending? ==> r == Invoke(m)
    ensures m.outcome.Pending? ==> r.outcome.Pending?
    ensures r.outcome != m.outcome ==>
      && r.outcome.Pending? && r.outcome.settlement.Rejects?
      && exists i :: 0 <= i < |r.trace| && EscapingRejection(r.trace[i].action.completion)
  {
    match m.outcome
    case Immediate(_) => Invoke(m)
    case Thrown(_) => Invoke(m)
    case Pending(Resolves(v)) =>
      var first := DequeueAsWritten(m.registrations, Params(None, Some(v)), None);
      if first.rejection.None? then
        Settled(Pending(Resolves(v)), first.drained.trace, first.drained.error, first.drained.remaining)
      else
        var err := first.rejection.value;
        var second := DequeueAsWritten(first.drained.remaining, Params(Some(err), None), Some(err));
        var thrown := if second.rejection.Some? then second.rejection.value else err;
        var n := |first.drained.trace|;
        assert (first.drained.trace + second.drained.trace)[n - 1] == first.drained.trace[n - 1];
        Settled(Pending(Rejects(thrown)), first.drained.trace + second.drained.trace,
                second.drained.error, second.drained.remaining)
    case Pending(Rejects(e)) =>
      var d := DequeueAsWritten(m.registrations, Params(Some(e), None), Some(e));
      var thrown := if d.rejection.Some? then d.rejection.value else e;
      assert d.rejection.Some? ==> EscapingRejection(d.drained.trace[|d.drained.trace| - 1].action.completion);
      Settled(Pending(Rejects(thrown)), d.drained.trace, d.drained.error, d.drained.remaining)
  }

  /** Without a rejecting foreign thenable, the code as written is the intended model. */
  lemma AsWrittenAgreesWithoutEscape<V, E>(m: Main<V, E>)
    requires NoEscapingRejection(m.registrations)
    ensures InvokeAsWritten(m) == Invoke(m)
  {
    InvokeIsDrain(m);
  }

  /**
   Counterexample: an async main resolving with `v` and one cleanup returning
   a foreign thenable that rejects with `e`. As written the call rejects with
   `e`; the intended call resolves with `v`.
   */
  lemma EscapeReplacesValue<V, E>(v: V, e: E)
    ensures var m := Main([Func(Action(0, false, ForeignThenable(Rejects(e))))], Pending(Resolves(v)));
      && InvokeAsWritten(m).outcome == Pending(Rejects(e))
      && Invoke(m).outcome == Pending(Resolves(v))
  {
    var m := Main([Func(Action(0, false, ForeignThenable(Rejects(e))))], Pending(Resolves(v)));
    var first := DequeueAsWritten(m.registrations, Params(None, Some(v)), None);
    assert first.rejection == Some(e);
  }

  /**
   Counterexample: an async main rejecting with `e`, a cleanup `0`, then a
   cleanup `1` returning a foreign thenable that rejects with `e2`. As
   written the call rejects with `e2` instead of `e`, and cleanup `0` never
   runs although nothing interrupted.
   */
  lemma EscapeReplacesMainError<V, E>(e: E, e2: E)
    ensures var m: Main<V, E> :=
        Main([Func(Action(0, false, Returns)), Func(Action(1, false, ForeignThenable(Rejects(e2))))], Pending(Rejects(e)));
      && InvokeAsWritten(m).outcome == Pending(Rejects(e2))
      && InvokeAsWritten(m).remaining == [Func(Action(0, false, Returns))]
      && Invoke(m).outcome == Pending(Rejects(e))
      && Invoke(m).remaining == []
  {
    var regs := [Func(Action(0, false, Returns)), Func(Action(1, false, ForeignThenable(Rejects(e2))))];
    var m: Main<V, E> := Main(regs, Pending(Rejects(e)));
    var d := DequeueAsWritten<V, E>(regs, Params(Some(e), None), Some(e));
    assert regs[..1] == [Func(Action(0, false, Returns))];
    assert d.rejection == Some(e2);
    assert d.drained.remaining == regs[..1];
    var r := Invoke(m);
    InvokeIsDrain(m);
    var d0 := Drain(regs[..1], ParamsAfter(m.outcome), Some(e));
    assert regs[..1][..0] == [];
    assert d0.remaining == [];
  }
}
