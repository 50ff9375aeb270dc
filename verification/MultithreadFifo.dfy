/**
 Every queue of the work-stealing executor is first in, first out, in every interleaving.
 */
module MultithreadFifo {
  import opened DelayQueue
  import opened MultithreadExecutor
  import opened MultithreadRuns

  function Contents(s: State, q: Source): seq<Task> {
    if q.FromGlobal? then s.global else if q.i < |s.queues| then s.queues[q.i] else []
  }

  /** What a step puts at the end of a queue. */
  function PutBy(s: State, step: Step, q: Source): seq<Task> {
    match step
    case OutsidePost(t) => if q.FromGlobal? then [t] else []
    case WorkerPost(i, t) => if q == FromWorker(i) then [t] else []
    case MainDeal(k) => if q == FromWorker(k) && MainHand(s.main) != [] then [MainHand(s.main)[0]] else []
    case _ => []
  }

  /** The queue a step asks for a task, if any. */
  function Asked(s: State, step: Step): seq<Source> {
    match step
    case TakeOwn(i) => [FromWorker(i)]
    case TakeGlobal(_, _) => [FromGlobal]
    case TakeFrom(i) =>
      if i < |s.workers| && s.workers[i].Scanning? && s.workers[i].left != []
      then [FromWorker(s.workers[i].left[0])] else []
    case _ => []
  }

  /** What a step takes out of a queue; its worker then runs it. */
  function TakenBy(s: State, step: Step, q: Source): seq<Task> {
    if Asked(s, step) == [q] && Contents(s, q) != [] then [Contents(s, q)[0]] else []
  }

  ghost function Puts(n: nat, p: nat, steps: seq<Step>, q: Source): seq<Task> {
    if steps == [] then []
    else
      var s, step := Run(n, p, steps[..|steps| - 1]), steps[|steps| - 1];
      Puts(n, p, steps[..|steps| - 1], q) + if Enabled(s, step) then PutBy(s, step, q) else []
  }

  ghost function Takes(n: nat, p: nat, steps: seq<Step>, q: Source): seq<Task> {
    if steps == [] then []
    else
      var s, step := Run(n, p, steps[..|steps| - 1]), steps[|steps| - 1];
      Takes(n, p, steps[..|steps| - 1], q) + if Enabled(s, step) then TakenBy(s, step, q) else []
  }

  lemma PuttingStep(s: State, step: Step, q: Source)
    requires WellFormed(s) && Enabled(s, step) && Posts(step)
    ensures Contents(Apply(s, step), q) == Contents(s, q) + PutBy(s, step, q) && TakenBy(s, step, q) == []
  {
    hide Released, StealOrder;
    if step.MainDeal? {
      DealMoves(s, step.k);
    }
  }

  /** Asking worker j's queue takes at most its first task. */
  lemma TakeQueueIsFifo(s: State, i: nat, j: nat, next: WorkerPc, q: Source)
    requires i < |s.workers| && j < |s.queues|
    ensures (if q == FromWorker(j) && s.queues[j] != [] then [s.queues[j][0]] else [])
            + Contents(TakeQueue(s, i, j, next), q) == Contents(s, q)
  {}

  lemma TakingStep(s: State, step: Step, q: Source)
    requires WellFormed(s) && Enabled(s, step) && (step.TakeOwn? || step.TakeGlobal? || step.TakeFrom?)
    ensures TakenBy(s, step, q) + Contents(Apply(s, step), q) == Contents(s, q) && PutBy(s, step, q) == []
  {
    hide Released, StealOrder;
    if step.TakeOwn? {
      hide TakeQueue;
      TakeQueueIsFifo(s, step.i, step.i, TryGlobal, q);
    } else if step.TakeFrom? {
      hide TakeQueue;
      var left := s.workers[step.i].left;
      TakeQueueIsFifo(s, step.i, left[0], Scanning(left[1..]), q);
    } else if s.global != [] {
      assert s.global == [s.global[0]] + s.global[1..];
    }
  }

  lemma OtherStep(s: State, step: Step, q: Source)
    requires WellFormed(s) && Enabled(s, step) && !Posts(step) && !step.TakeOwn? && !step.TakeGlobal? && !step.TakeFrom?
    ensures Contents(Apply(s, step), q) == Contents(s, q) && PutBy(s, step, q) == TakenBy(s, step, q) == []
  {
    hide Released, StealOrder;
  }

  lemma StepIsFifo(s: State, step: Step, q: Source)
    requires WellFormed(s) && Enabled(s, step)
    ensures TakenBy(s, step, q) + Contents(Apply(s, step), q) == Contents(s, q) + PutBy(s, step, q)
  {
    hide WellFormed, Enabled, Apply, Contents, PutBy, TakenBy;
    if Posts(step) {
      PuttingStep(s, step, q);
    } else if step.TakeOwn? || step.TakeGlobal? || step.TakeFrom? {
      TakingStep(s, step, q);
    } else {
      OtherStep(s, step, q);
    }
  }

  /** What was ever taken from a queue, and what it holds, is what was ever put into it, in order. */
  lemma {:induction false} AlwaysFifo(n: nat, p: nat, steps: seq<Step>, q: Source)
    ensures Takes(n, p, steps, q) + Contents(Run(n, p, steps), q) == Puts(n, p, steps, q)
  {
    hide Contents, PutBy, TakenBy, Enabled, Apply, WellFormed;
    if steps == [] {
      StartsEmpty(n, p, q);
    } else {
      var front, step := steps[..|steps| - 1], steps[|steps| - 1];
      var s := Run(n, p, front);
      AlwaysFifo(n, p, front, q);
      if Enabled(s, step) {
        StepIsFifo(s, step, q);
        Regroup(Takes(n, p, front, q), TakenBy(s, step, q), Contents(Apply(s, step), q),
                Contents(s, q), PutBy(s, step, q));
      } else {
        assert Takes(n, p, steps, q) == Takes(n, p, front, q) && Puts(n, p, steps, q) == Puts(n, p, front, q);
      }
    }
  }

  lemma StartsEmpty(n: nat, p: nat, q: Source)
    ensures Contents(Boot(n, p), q) == []
  {}

  lemma Regroup(takes: seq<Task>, taken: seq<Task>, after: seq<Task>, before: seq<Task>, put: seq<Task>)
    requires taken + after == before + put
    ensures takes + taken + after == takes + before + put
  {
    assert takes + taken + after == takes + (taken + after);
  }
}
