/**
 The awaitable `Task`: a shared cell for a result and for the coroutine that waits for it, and the
 completion callback that TCP sockets hand to the proactor.
 */
module Tasks {
  datatype Option<+T> = None | Some(value: T)

  /** The shared context of a task. Coroutines are numbered. */
  datatype Shared<T> = Shared(result: Option<T>, caller: Option<nat>)

  /** What the callback does: nothing if there is a result, else it sets the result and resumes. */
  function Complete<T>(cell: Shared<T>, value: T): (Shared<T>, seq<nat>)
    requires cell.result.None? ==> cell.caller.Some?
  {
    if cell.result.Some? then (cell, []) else (cell.(result := Some(value)), [cell.caller.value])
  }

  class Task<T> {
    var result: Option<T>
    var callerCoroutine: Option<nat>
    ghost var resumed: seq<nat>  // the coroutines this task has resumed, in order

    ghost function View(): Shared<T>
      reads this
    {
      Shared(result, callerCoroutine)
    }

    constructor ()
      ensures View() == Shared(None, None) && resumed == []
    {
      result, callerCoroutine, resumed := None, None, [];
    }

    method SetResult(value: T)
      modifies this`result
      ensures result == Some(value)
    {
      result := Some(value);
    }

    predicate AwaitReady()
      reads this
    {
      result.Some?
    }

    method AwaitSuspend(coroutine: nat)
      modifies this`callerCoroutine
      ensures callerCoroutine == Some(coroutine)
    {
      callerCoroutine := Some(coroutine);
    }

    /** What the awaiting coroutine gets. */
    function AwaitResume(default: T): T
      reads this
    {
      if result.Some? then result.value else default
    }

    /** Resuming an empty handle is undefined. */
    method Resume()
      requires callerCoroutine.Some?
      modifies this`resumed
      ensures resumed == old(resumed) + [callerCoroutine.value]
    {
      resumed := resumed + [callerCoroutine.value];
    }

    /** The callback of `TcpSocket::recv`, `send` and `accept`. */
    method OnCompletion(value: T)
      requires result.None? ==> callerCoroutine.Some?
      modifies this
      ensures View() == Complete(old(View()), value).0
      ensures resumed == old(resumed) + Complete(old(View()), value).1
      ensures AwaitReady()
      ensures forall default :: AwaitResume(default) == if old(result).Some? then old(result).value else value
    {
      if AwaitReady() {
        return;
      }
      SetResult(value);
      Resume();
    }
  }
}
