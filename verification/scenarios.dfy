/**
 Six of the repository's test scenarios, replayed on the model. Cleanups are told
 apart by their tags; errors are their messages.
 */
module Scenarios {
  import opened Outcomes
  import opened Invocation
  import opened Drains
  import opened Deferred

  /** A cleanup that returns normally. */
  function Plain(tag: nat): DeferFunc<string> {
    Func(Action(tag, false, Returns))
  }

  /** The tags of the cleanups a call ran, in running order. */
  function TagsRun<V, E>(r: Settled<V, E>): (tags: seq<nat>)
    ensures |tags| == |r.trace|
    ensures forall i :: 0 <= i < |r.trace| ==> tags[i] == r.trace[i].action.tag
  {
    seq(|r.trace|, i requires 0 <= i < |r.trace| => r.trace[i].action.tag)
  }

  /** A cleanup that is an async function whose promise resolves. */
  function Async(tag: nat): DeferFunc<string> {
    Func(Action(tag, false, NativePromise(Resolves(()))))
  }

  /**
   Two cleanups registered as 2 then 4 run as 4 then 2: plain cleanups after
   a synchronous main, and async cleanups after an async main.
   */
  lemma ExecutionOrder()
    ensures TagsRun(Invoke(Main([Plain(2), Plain(4)], Immediate(0)))) == [4, 2]
    ensures TagsRun(Invoke(Main([Async(2), Async(4)], Pending(Resolves(0))))) == [4, 2]
  {
    assert [Plain(2), Plain(4)][..1] == [Plain(2)];
    assert [Async(2), Async(4)][..1] == [Async(2)];
    InvokeIsDrain(Main([Plain(2), Plain(4)], Immediate(0)));
    InvokeIsDrain(Main([Async(2), Async(4)], Pending(Resolves(0))));
    var r := Invoke(Main([Plain(2), Plain(4)], Immediate(0)));
    assert |r.trace| == 2 && r.trace[0].action.tag == 4 && r.trace[1].action.tag == 2;
    var r' := Invoke(Main([Async(2), Async(4)], Pending(Resolves(0))));
    assert |r'.trace| == 2 && r'.trace[0].action.tag == 4 && r'.trace[1].action.tag == 2;
  }

  /**
   Main fails with "main error" after registering a cleanup that records
   `recover()` and one that does not: the call fails with "main error" and
   the recording cleanup sees it.
   */
  lemma RecoverMainError()
    ensures var r := Invoke<int, string>(Main([Plain(0), Plain(1)], Thrown("main error")));
      && r.outcome == Thrown("main error")
      && TagsRun(r) == [1, 0]
      && r.trace[1].recovered == Some("main error")
  {
    assert [Plain(0), Plain(1)][..1] == [Plain(0)];
    InvokeIsDrain<int, string>(Main([Plain(0), Plain(1)], Thrown("main error")));
    var r := Invoke<int, string>(Main([Plain(0), Plain(1)], Thrown("main error")));
    assert |r.trace| == 2 && r.trace[0].action.tag == 1 && r.trace[1].action.tag == 0;
  }

  /**
   Main registers a recorder, a plain cleanup, and one throwing "defer
   error", then fails with "main error": all three run, the recorder sees
   "defer error", and the call still fails with "main error".
   */
  lemma RecoverMainAndDeferError()
    ensures var r := Invoke<int, string>(Main([Plain(0), Plain(1), Func(Action(2, false, Throws("defer error")))],
                                              Pending(Rejects("main error"))));
      && r.outcome == Pending(Rejects("main error"))
      && TagsRun(r) == [2, 1, 0]
      && r.trace[0].recovered == Some("main error")
      && r.trace[2].recovered == Some("defer error")
  {
    var thrower := Func(Action(2, false, Throws("defer error")));
    var regs := [Plain(0), Plain(1), thrower];
    InvokeIsDrain<int, string>(Main(regs, Pending(Rejects("main error"))));
    var p: Params<int, string> := Params(Some("main error"), None);
    var de := Some("defer error");
    assert regs[..2] == [Plain(0), Plain(1)];
    assert regs[..2][..1] == [Plain(0)];
    assert regs[..2][..1][..0] == [];
    var d0 := Drain([], p, de);
    var d1 := Drain(regs[..2][..1], p, de);
    assert d1.trace == [Step(Action(0, false, Returns), p, de)] + d0.trace;
    var d2 := Drain(regs[..2], p, de);
    assert d2.trace == [Step(Action(1, false, Returns), p, de)] + d1.trace;
    var d3 := Drain(regs, p, Some("main error"));
    assert d3.trace == [Step(thrower.action, p, Some("main error"))] + d2.trace;
  }

  /**
   A synchronous main registers an async cleanup `1`, then an async cleanup
   `2` whose promise rejects with "defer error 2". The synchronous drain
   starts both without awaiting them: `2` first, then `1`. The rejection
   does not reach `recover()`, and the call returns main's value.
   */
  lemma RejectedCleanupSwallowed()
    ensures var r := Invoke<int, string>(Main([Async(1),
                                               Func(Action(2, false, NativePromise(Rejects("defer error 2"))))],
                                              Immediate(0)));
      && r.outcome == Immediate(0)
      && TagsRun(r) == [2, 1]
      && r.error == None
  {
    var regs := [Async(1),
                 Func(Action(2, false, NativePromise(Rejects("defer error 2"))))];
    assert regs[..1] == [Async(1)];
    InvokeIsDrain<int, string>(Main(regs, Immediate(0)));
    var r := Invoke<int, string>(Main(regs, Immediate(0)));
    assert |r.trace| == 2 && r.trace[0].action.tag == 2 && r.trace[1].action.tag == 1;
  }

  /** A cleanup registered after cleanup 1 interrupts: only it runs, and cleanup 1 stays queued. */
  lemma InterruptQueue()
    ensures var r := Invoke<int, string>(Main([Plain(1), Func(Action(2, true, Returns))], Immediate(0)));
      && TagsRun(r) == [2]
      && r.remaining == [Plain(1)]
  {
    assert [Plain(1), Func(Action(2, true, Returns))][..1] == [Plain(1)];
    InvokeIsDrain<int, string>(Main([Plain(1), Func(Action(2, true, Returns))], Immediate(0)));
  }
}
