/**
 Draining the cleanup stack after the main function has settled. The
 synchronous loop `dequeueSync` and the awaited loop `dequeue` pop, run and
 test the stop flag in the same order, so one drain models both; only the
 waiting between actions differs, and that is not modelled.
 */
module Drains {
  import opened Outcomes
  import opened Invocation

  /**
   The record spread into every action's parameters: the main function's
   error and return value, fixed before the drain starts.
   */
  datatype Params<+V, +E> = Params(error: Option<E>, returnValue: Option<V>)

  /** One action run: which action, the params it received, and what `recover()` returned as it started. */
  datatype Step<+V, +E> = Step(action: Action<E>, params: Params<V, E>, recovered: Option<E>)

  /** What a drain leaves behind: the actions it ran, the error cell, and the entries it never popped. */
  datatype Drained<+V, +E> = Drained(trace: seq<Step<V, E>>, error: Option<E>, remaining: seq<DeferFunc<E>>)

  /**
   `deferApply`'s effect on the error cell: a synchronous throw is caught and
   stored; a returned promise has its rejection swallowed.
   */
  function DeferApply<E>(c: Completion<E>, cell: Option<E>): (r: Option<E>)
    ensures c.Throws? ==> r == Some(c.error)
    ensures r != cell ==> c.Throws?
  {
    if c.Throws? then Some(c.error) else cell
  }

  /** The error cell right after a step's action has run. */
  function After<V, E>(s: Step<V, E>): Option<E> {
    DeferApply(s.action.completion, s.recovered)
  }

  /** The actions a trace ran, in running order. */
  function Ran<V, E>(trace: seq<Step<V, E>>): (r: seq<Action<E>>)
    ensures |r| == |trace|
    ensures forall i :: 0 <= i < |trace| ==> r[i] == trace[i].action
  {
    seq(|trace|, i requires 0 <= i < |trace| => trace[i].action)
  }

  /**
   The cell threads through the trace: the first action sees `start`, each
   later action sees the cell its predecessor left, and `end` is what the
   last one left.
   */
  ghost predicate Chained<V, E>(trace: seq<Step<V, E>>, start: Option<E>, end: Option<E>) {
    && (|trace| == 0 ==> end == start)
    && (|trace| > 0 ==> trace[0].recovered == start && end == After(trace[|trace| - 1]))
    && (forall i | 1 <= i < |trace| :: trace[i].recovered == After(trace[i - 1]))
  }

  /**
   Pop the top entry; skip it if falsy; otherwise run it with `params`, let
   it update the cell, and stop if it interrupted. The drain is total: no
   action's failure escapes it.
   */
  function Drain<V, E>(defers: seq<DeferFunc<E>>, params: Params<V, E>, cell: Option<E>): (r: Drained<V, E>)
    ensures r.remaining <= defers
    ensures |defers| > 0 ==> |r.remaining| < |defers|
    decreases |defers|
  {
    if |defers| == 0 then Drained([], cell, [])
    else
      var rest := defers[..|defers| - 1];
      match defers[|defers| - 1]
      case Falsy => Drain(rest, params, cell)
      case Func(a) =>
        var step := Step(a, params, cell);
        var cell' := DeferApply(a.completion, cell);
        if a.interrupts then Drained([step], cell', rest)
        else
          var r := Drain(rest, params, cell');
          Drained([step] + r.trace, r.error, r.remaining)
  }

  /** Every action of one drain receives the same params record, whatever earlier actions did. */
  lemma {:induction false} DrainKeepsParams<V, E>(defers: seq<DeferFunc<E>>, params: Params<V, E>, cell: Option<E>)
    ensures forall s :: s in Drain(defers, params, cell).trace ==> s.params == params
    decreases |defers|
  {
    if |defers| > 0 {
      var rest := defers[..|defers| - 1];
      match defers[|defers| - 1]
      case Falsy =>
        DrainKeepsParams(rest, params, cell);
      case Func(a) =>
        DrainKeepsParams(rest, params, DeferApply(a.completion, cell));
    }
  }

  /** The error cell threads through one drain from action to action. */
  lemma {:induction false} DrainThreadsCell<V, E>(defers: seq<DeferFunc<E>>, params: Params<V, E>, cell: Option<E>)
    ensures var r := Drain(defers, params, cell);
      Chained(r.trace, cell, r.error)
    decreases |defers|
  {
    if |defers| > 0 {
      var rest := defers[..|defers| - 1];
      match defers[|defers| - 1]
      case Falsy =>
        DrainThreadsCell(rest, params, cell);
      case Func(a) =>
        DrainThreadsCell(rest, params, DeferApply(a.completion, cell));
    }
  }

  /** One iteration of the drain on a runnable top entry. */
  lemma PopFunc<V, E>(stack: seq<DeferFunc<E>>, params: Params<V, E>, cell: Option<E>)
    requires |stack| > 0 && stack[|stack| - 1].Func?
    ensures var a := stack[|stack| - 1].action;
      var step := Step(a, params, cell);
      var rest := Drain(stack[..|stack| - 1], params, DeferApply(a.completion, cell));
      Drain(stack, params, cell)
        == if a.interrupts then Drained([step], DeferApply(a.completion, cell), stack[..|stack| - 1])
           else Drained([step] + rest.trace, rest.error, rest.remaining)
  {
  }

  /** One iteration of the drain on a falsy top entry. */
  lemma PopFalsy<V, E>(stack: seq<DeferFunc<E>>, params: Params<V, E>, cell: Option<E>)
    requires |stack| > 0 && stack[|stack| - 1].Falsy?
    ensures Drain(stack, params, cell) == Drain(stack[..|stack| - 1], params, cell)
  {
  }

  /** The `while (defers.length)` loop itself, with its per-action stop flag. */
  method Dequeue<V, E>(defers: seq<DeferFunc<E>>, params: Params<V, E>, cell: Option<E>)
    returns (trace: seq<Step<V, E>>, error: Option<E>, remaining: seq<DeferFunc<E>>)
    ensures Drained(trace, error, remaining) == Drain(defers, params, cell)
    ensures remaining <= defers
  {
    var stack := defers;
    trace := [];
    error := cell;
    while |stack| > 0
      invariant var d := Drain(stack, params, error);
        Drain(defers, params, cell) == Drained(trace + d.trace, d.error, d.remaining)
      decreases |stack|
    {
      var deferFn := stack[|stack| - 1];
      if deferFn.Func? {
        PopFunc(stack, params, error);
      } else {
        PopFalsy(stack, params, error);
      }
      ghost var done := trace;
      stack := stack[..|stack| - 1];
      if deferFn.Func? {
        var step := Step(deferFn.action, params, error);
        var shouldStop := deferFn.action.interrupts;
        error := DeferApply(deferFn.action.completion, error);
        trace := trace + [step];
        if shouldStop {
          break;
        }
        assert trace + Drain(stack, params, error).trace == done + ([step] + Drain(stack, params, error).trace);
      }
    }
    remaining := stack;
  }
}
