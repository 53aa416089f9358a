/**
 One call of a deferred-wrapped function: the stack of registered cleanup
 actions and the captured-error cell, as the main function sees them through
 `defer` and `recover`.
 */
module Invocation {
  import opened Outcomes

  /**
   A cleanup action, abstracted to its effects on the invocation.
   `tag` identifies it in traces. `interrupts` says that the action has called
   `interrupt()` by the time the drain loop tests its stop flag: on the
   synchronous path that is the action's synchronous part, on the
   asynchronous path anything before its result settles.
   */
  datatype Action<+E> = Action(tag: nat, interrupts: bool, completion: Completion<E>)

  /**
   An entry of the `defers` array. `Falsy` is an entry that fails the loop's
   truthiness test and is popped without being run.
   */
  datatype DeferFunc<+E> = Falsy | Func(action: Action<E>)

  /** The per-call state: registered cleanups in registration order, and the error cell. */
  datatype Context<+E> = Context(defers: seq<DeferFunc<E>>, error: Option<E>)

  /** A fresh invocation: nothing registered, no error captured. */
  function Fresh<E>(): Context<E> {
    Context([], None)
  }

  /** `defer(fn)`: push `fn` on top of the stack; the error cell is not touched. */
  function Defer<E>(c: Context<E>, f: DeferFunc<E>): (r: Context<E>)
    ensures |r.defers| == |c.defers| + 1
    ensures r.defers[|c.defers|] == f && r.defers[..|c.defers|] == c.defers
    ensures r.error == c.error
  {
    c.(defers := c.defers + [f])
  }

  /** `recover()`: a live read of the error cell. */
  function Recover<E>(c: Context<E>): Option<E> {
    c.error
  }

  /**
   `recover()` reads the cell itself rather than a copy: a fresh call has
   nothing to recover, an error just stored is what the next `recover()`
   returns, and `defer` does not disturb it.
   */
  lemma RecoverIsLive<E>(c: Context<E>, f: DeferFunc<E>, e: E)
    ensures Recover(Fresh<E>()) == None
    ensures Recover(c.(error := Some(e))) == Some(e)
    ensures Recover(Defer(c, f)) == Recover(c)
  {
  }

  /**
   The main function's `defer` calls, in the order it makes them. Main is
   not meant to write the error cell (`mod.ts:17`), so `recover()` inside main
   sees it unchanged.
   */
  function Register<E>(c: Context<E>, fs: seq<DeferFunc<E>>): (r: Context<E>)
    ensures r.defers == c.defers + fs
    ensures Recover(r) == Recover(c)
    decreases |fs|
  {
    if |fs| == 0 then c
    else
      var r := Register(Defer(c, fs[0]), fs[1..]);
      assert c.defers + [fs[0]] + fs[1..] == c.defers + fs;
      r
  }

  /** The runnable actions among registered entries, in registration order. */
  function Actions<E>(fs: seq<DeferFunc<E>>): (r: seq<Action<E>>)
    ensures |r| <= |fs|
    decreases |fs|
  {
    if |fs| == 0 then []
    else
      var front := fs[..|fs| - 1];
      Actions(front) + (if fs[|fs| - 1].Func? then [fs[|fs| - 1].action] else [])
  }

  /** Runnable actions of a concatenation. */
  lemma {:induction false} ActionsAppend<E>(a: seq<DeferFunc<E>>, b: seq<DeferFunc<E>>)
    ensures Actions(a + b) == Actions(a) + Actions(b)
    decreases |b|
  {
    if |b| > 0 {
      assert (a + b)[..|a + b| - 1] == a + b[..|b| - 1];
      ActionsAppend(a, b[..|b| - 1]);
    } else {
      assert a + b == a;
    }
  }
}
