/**
 What a drain guarantees about order, interruption and the error cell,
 stated against independent reference definitions.
 */
module DrainProperties {
  import opened Outcomes
  import opened Invocation
  import opened Sequences
  import opened Drains

  /** True of an entry that is a runnable action calling `interrupt()`. */
  predicate Interrupting<E>(f: DeferFunc<E>) {
    f.Func? && f.action.interrupts
  }

  /**
   Every runnable entry popped, and only those, appears in the trace, most
   recently registered first; the entries never popped stay in `remaining`.
   Nothing about the actions' completions enters this: a throwing or
   rejecting action does not end the drain.
   */
  lemma {:induction false} DrainRunsInReverse<V, E>(defers: seq<DeferFunc<E>>, params: Params<V, E>, cell: Option<E>)
    ensures var r := Drain(defers, params, cell);
      Actions(defers) == Actions(r.remaining) + Reverse(Ran(r.trace))
    decreases |defers|
  {
    if |defers| > 0 {
      var rest := defers[..|defers| - 1];
      match defers[|defers| - 1]
      case Falsy =>
        DrainRunsInReverse(rest, params, cell);
      case Func(a) =>
        var cell' := DeferApply(a.completion, cell);
        if a.interrupts {
          assert Ran([Step(a, params, cell)]) == [a];
        } else {
          DrainRunsInReverse(rest, params, cell');
          var r := Drain(rest, params, cell');
          RanCons(Step(a, params, cell), r.trace);
          ReverseCons(a, Ran(r.trace));
        }
    }
  }

  /** The actions of a trace with one more step in front. */
  lemma RanCons<V, E>(s: Step<V, E>, trace: seq<Step<V, E>>)
    ensures Ran([s] + trace) == [s.action] + Ran(trace)
  {
  }

  /**
   The drain stops early only right after an interrupting action: every
   entry it popped above that one did not interrupt, and the entry just
   above `remaining` is the one that did.
   */
  lemma {:induction false} DrainStopsOnlyAtInterrupt<V, E>(defers: seq<DeferFunc<E>>, params: Params<V, E>, cell: Option<E>)
    ensures var r := Drain(defers, params, cell);
      && (forall j :: |r.remaining| < j < |defers| ==> !Interrupting(defers[j]))
      && (0 < |r.remaining| ==> Interrupting(defers[|r.remaining|]))
    decreases |defers|
  {
    if |defers| > 0 {
      var rest := defers[..|defers| - 1];
      match defers[|defers| - 1]
      case Falsy =>
        DrainStopsOnlyAtInterrupt(rest, params, cell);
      case Func(a) =>
        if !a.interrupts {
          DrainStopsOnlyAtInterrupt(rest, params, DeferApply(a.completion, cell));
        }
    }
  }

  /**
   Without any interrupting action the whole stack is run, in exactly the
   reverse of registration order, and nothing remains.
   */
  lemma {:induction false} DrainCompletesWithoutInterrupt<V, E>(defers: seq<DeferFunc<E>>, params: Params<V, E>, cell: Option<E>)
    requires forall j :: 0 <= j < |defers| ==> !Interrupting(defers[j])
    ensures Drain(defers, params, cell).remaining == []
    ensures Ran(Drain(defers, params, cell).trace) == Reverse(Actions(defers))
  {
    var r := Drain(defers, params, cell);
    DrainStopsOnlyAtInterrupt(defers, params, cell);
    if 0 < |r.remaining| {
      assert false;
    }
    DrainRunsInReverse(defers, params, cell);
    assert Actions(r.remaining) == [];
    assert Actions(defers) == Reverse(Ran(r.trace));
    ReverseReverse(Ran(r.trace));
  }

  /**
   When the most recently registered interrupting action sits at index `k`,
   the drain runs the entries above it and then it, stops, and leaves exactly
   the entries registered before it, none of which runs.
   */
  lemma DrainStopsAtInterrupt<V, E>(defers: seq<DeferFunc<E>>, params: Params<V, E>, cell: Option<E>, k: nat)
    requires k < |defers| && Interrupting(defers[k])
    requires forall j :: k < j < |defers| ==> !Interrupting(defers[j])
    ensures Drain(defers, params, cell).remaining == defers[..k]
    ensures Ran(Drain(defers, params, cell).trace) == Reverse(Actions(defers[k..]))
    ensures var t := Drain(defers, params, cell).trace;
      |t| > 0 && t[|t| - 1].action == defers[k].action
  {
    var r := Drain(defers, params, cell);
    StopIndex(defers, params, cell, k);
    DrainRunsInReverse(defers, params, cell);
    RunIsReversedSuffix(defers, k, Ran(r.trace));
    LastRunIsFirstOfSuffix(defers, k, Ran(r.trace));
  }

  /** The drain halts exactly at the most recently registered interrupting entry. */
  lemma {:induction false} StopIndex<V, E>(defers: seq<DeferFunc<E>>, params: Params<V, E>, cell: Option<E>, k: nat)
    requires k < |defers| && Interrupting(defers[k])
    requires forall j :: k < j < |defers| ==> !Interrupting(defers[j])
    ensures Drain(defers, params, cell).remaining == defers[..k]
  {
    var r := Drain(defers, params, cell);
    DrainStopsOnlyAtInterrupt(defers, params, cell);
    if |r.remaining| != k {
      assert false;
    }
  }

  /** What runs after the stop point is the reversed suffix of registrations from `k` on. */
  lemma RunIsReversedSuffix<E>(defers: seq<DeferFunc<E>>, k: nat, ran: seq<Action<E>>)
    requires k < |defers|
    requires Actions(defers) == Actions(defers[..k]) + Reverse(ran)
    ensures ran == Reverse(Actions(defers[k..]))
  {
    assert defers == defers[..k] + defers[k..];
    ActionsAppend(defers[..k], defers[k..]);
    var front := Actions(defers[..k]);
    assert (front + Actions(defers[k..]))[|front|..] == Actions(defers[k..]);
    assert (front + Reverse(ran))[|front|..] == Reverse(ran);
    ReverseReverse(ran);
  }

  /** The last action of a reversed suffix starting at a runnable entry is that entry. */
  lemma LastRunIsFirstOfSuffix<E>(defers: seq<DeferFunc<E>>, k: nat, ran: seq<Action<E>>)
    requires k < |defers| && defers[k].Func?
    requires ran == Reverse(Actions(defers[k..]))
    ensures |ran| > 0 && ran[|ran| - 1] == defers[k].action
  {
    assert defers[k..] == [defers[k]] + defers[k + 1..];
    ActionsAppend([defers[k]], defers[k + 1..]);
    assert Actions([defers[k]]) == [defers[k].action] by {
      assert [defers[k]][..0] == [];
    }
  }

  /**
   Reference definition of the error cell after a run of actions: the error
   of the last synchronous throw among them, or `start` if none threw.
   */
  function LatestThrow<V, E>(trace: seq<Step<V, E>>, start: Option<E>): Option<E>
    decreases |trace|
  {
    if |trace| == 0 then start
    else
      var last := trace[|trace| - 1].action.completion;
      if last.Throws? then Some(last.error) else LatestThrow(trace[..|trace| - 1], start)
  }

  /** A cell threaded through a trace holds, at every point, the latest synchronous throw so far. */
  lemma {:induction false} ChainedIsLatestThrow<V, E>(trace: seq<Step<V, E>>, start: Option<E>, end: Option<E>)
    requires Chained(trace, start, end)
    ensures end == LatestThrow(trace, start)
    ensures forall i :: 0 <= i < |trace| ==> trace[i].recovered == LatestThrow(trace[..i], start)
    decreases |trace|
  {
    if |trace| > 0 {
      var n := |trace|;
      var front := trace[..n - 1];
      assert Chained(front, start, trace[n - 1].recovered);
      ChainedIsLatestThrow(front, start, trace[n - 1].recovered);
      assert trace[..n - 1] == front;
      forall i | 0 <= i < n
        ensures trace[i].recovered == LatestThrow(trace[..i], start)
      {
        if i < n - 1 {
          assert front[..i] == trace[..i];
        }
      }
      assert trace[..n] == trace;
    }
  }

  /**
   `recover()` is live: the cell each action reads on starting is the latest
   synchronous throw of the actions run before it, or the cell the drain
   started from; the cell the drain leaves is the latest throw overall.
   */
  lemma {:induction false} DrainRecoverSeesLatestThrow<V, E>(defers: seq<DeferFunc<E>>, params: Params<V, E>, cell: Option<E>)
    ensures var r := Drain(defers, params, cell);
      && r.error == LatestThrow(r.trace, cell)
      && (forall i :: 0 <= i < |r.trace| ==> r.trace[i].recovered == LatestThrow(r.trace[..i], cell))
  {
    var r := Drain(defers, params, cell);
    DrainThreadsCell(defers, params, cell);
    ChainedIsLatestThrow(r.trace, cell, r.error);
  }

  /** Without a synchronous throw in a trace, the latest throw is the start value. */
  lemma {:induction false} LatestThrowWithoutThrow<V, E>(trace: seq<Step<V, E>>, start: Option<E>)
    requires forall i :: 0 <= i < |trace| ==> !trace[i].action.completion.Throws?
    ensures LatestThrow(trace, start) == start
    decreases |trace|
  {
    if |trace| > 0 {
      LatestThrowWithoutThrow(trace[..|trace| - 1], start);
    }
  }

  /** Every action a drain runs is one of the registered actions. */
  lemma {:induction false} RanWasRegistered<V, E>(defers: seq<DeferFunc<E>>, params: Params<V, E>, cell: Option<E>)
    ensures var r := Drain(defers, params, cell);
      forall i :: 0 <= i < |r.trace| ==> r.trace[i].action in Actions(defers)
  {
    var r := Drain(defers, params, cell);
    DrainRunsInReverse(defers, params, cell);
    var ran := Ran(r.trace);
    var rev := Reverse(ran);
    var front := Actions(r.remaining);
    forall i | 0 <= i < |r.trace|
      ensures r.trace[i].action in Actions(defers)
    {
      var j := |ran| - 1 - i;
      assert rev[j] == ran[i] == r.trace[i].action;
      assert (front + rev)[|front| + j] == rev[j];
    }
  }

  /**
   Only synchronous throws reach the error cell: if no registered action
   throws synchronously, then returned promises and thenables, rejected or
   not, leave every `recover()` and the final cell at the starting value.
   */
  lemma {:induction false} CellUntouchedWithoutSyncThrow<V, E>(defers: seq<DeferFunc<E>>, params: Params<V, E>, cell: Option<E>)
    requires forall a :: a in Actions(defers) ==> !a.completion.Throws?
    ensures Drain(defers, params, cell).error == cell
    ensures forall s :: s in Drain(defers, params, cell).trace ==> s.recovered == cell
  {
    var r := Drain(defers, params, cell);
    RanWasRegistered(defers, params, cell);
    DrainRecoverSeesLatestThrow(defers, params, cell);
    LatestThrowWithoutThrow(r.trace, cell);
    forall s | s in r.trace
      ensures s.recovered == cell
    {
      var i :| 0 <= i < |r.trace| && r.trace[i] == s;
      LatestThrowWithoutThrow(r.trace[..i], cell);
    }
  }
}
