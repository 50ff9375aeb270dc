/**
 Awaiting with a timeout. Two closures share a flag: one does the work, the other waits for the
 timeout; whoever sets the flag first resumes the caller. They may run on different threads.
 */
module Expirable {
  import opened Tasks

  /** Where the work closure is; it gets its value from the awaited task or the called function. */
  datatype WorkPc = WorkPosted | WorkClaimed | WorkHasValue(value: int) | WorkHasSet | WorkEnded

  datatype TimeoutPc = TimeoutPosted | TimeoutClaimed | TimeoutEnded

  datatype State = State(
    done: bool,
    cell: Shared<int>,
    work: WorkPc,
    timeout: TimeoutPc,
    resumed: seq<Option<int>>)   // the result the caller finds, each time it is resumed

  datatype Step = WorkExchange | WorkObtain(value: int) | WorkSet | WorkResume | TimeoutExchange | TimeoutResume

  /** The caller has suspended, and both closures are posted. */
  function Suspended(caller: nat): State {
    State(false, Shared(None, Some(caller)), WorkPosted, TimeoutPosted, [])
  }

  predicate Enabled(s: State, step: Step) {
    match step
    case WorkExchange => s.work.WorkPosted?
    case WorkObtain(_) => s.work.WorkClaimed?
    case WorkSet => s.work.WorkHasValue?
    case WorkResume => s.work.WorkHasSet?
    case TimeoutExchange => s.timeout.TimeoutPosted?
    case TimeoutResume => s.timeout.TimeoutClaimed?
  }

  /** `compare_exchange_strong(false, true)` is one step; so is each of the others. */
  function Apply(s: State, step: Step): State
    requires Enabled(s, step)
  {
    match step
    case WorkExchange => s.(work := if s.done then WorkEnded else WorkClaimed, done := true)
    case WorkObtain(value) => s.(work := WorkHasValue(value))
    case WorkSet => s.(cell := s.cell.(result := Some(s.work.value)), work := WorkHasSet)
    case WorkResume => s.(resumed := s.resumed + [s.cell.result], work := WorkEnded)
    case TimeoutExchange => s.(timeout := if s.done then TimeoutEnded else TimeoutClaimed, done := true)
    case TimeoutResume => s.(resumed := s.resumed + [s.cell.result], timeout := TimeoutEnded)
  }

  function Run(caller: nat, steps: seq<Step>): State {
    if steps == [] then Suspended(caller)
    else
      var s := Run(caller, steps[..|steps| - 1]);
      if Enabled(s, steps[|steps| - 1]) then Apply(s, steps[|steps| - 1]) else s
  }

  /** Which closure, if any, set the flag. */
  datatype Winner = Nobody | Work | Timeout

  function WinnerOf(steps: seq<Step>): Winner {
    if steps == [] then Nobody
    else
      var before := WinnerOf(steps[..|steps| - 1]);
      if before != Nobody then before
      else match steps[|steps| - 1] case WorkExchange => Work case TimeoutExchange => Timeout case _ => Nobody
  }

  ghost predicate Inv(s: State, winner: Winner) {
    && s.cell.caller.Some?
    && match winner
       case Nobody => !s.done && s.work.WorkPosted?
               && s.timeout.TimeoutPosted? && s.cell.result.None? && s.resumed == []
       case Work =>
         && s.done && !s.work.WorkPosted? && !s.timeout.TimeoutClaimed?
         && (s.cell.result.Some? <==> s.work.WorkHasSet? || s.work.WorkEnded?)
         && s.resumed == (if s.work.WorkEnded? then [s.cell.result] else [])
       case Timeout =>
         && s.done && !s.timeout.TimeoutPosted? && (s.work.WorkPosted? || s.work.WorkEnded?)
         && s.cell.result.None?
         && s.resumed == (if s.timeout.TimeoutEnded? then [None] else [])
  }

  lemma {:induction false} AlwaysInv(caller: nat, steps: seq<Step>)
    ensures Inv(Run(caller, steps), WinnerOf(steps))
  {
    if steps != [] {
      AlwaysInv(caller, steps[..|steps| - 1]);
    }
  }

  /**
   In every interleaving the caller is resumed at most once, and exactly once when both closures have
   ended; it then finds a result if and only if the work set the flag first, stored before the resume.
   */
  lemma ResumedOnce(caller: nat, steps: seq<Step>)
    ensures var s := Run(caller, steps);
            && |s.resumed| <= 1
            && (s.work.WorkEnded? && s.timeout.TimeoutEnded? ==> |s.resumed| == 1)
            && (|s.resumed| == 1 ==> s.resumed[0] == s.cell.result && (s.cell.result.Some? <==> WinnerOf(steps).Work?))
            && (s.cell.result.Some? ==> WinnerOf(steps).Work?)
  {
    AlwaysInv(caller, steps);
  }

  /**
   The timeout does not bound the wait: when it has fired, the caller is still suspended exactly if the
   work set the flag first and has not ended, since the flag is set before the awaited task is.
   */
  lemma StillWaitingIff(caller: nat, steps: seq<Step>)
    ensures var s := Run(caller, steps);
            s.timeout.TimeoutEnded? ==> (s.resumed == [] <==> WinnerOf(steps).Work? && !s.work.WorkEnded?)
  {
    AlwaysInv(caller, steps);
  }

  /** The work has started, the timeout has fired, and nobody has resumed the caller. */
  lemma WaitsPastTimeout(caller: nat)
    ensures var s := Run(caller, [WorkExchange] + [TimeoutExchange]);
            s.timeout.TimeoutEnded? && s.resumed == [] && s.work.WorkClaimed?
  {
    RunSnoc(caller, [], WorkExchange);
    RunSnoc(caller, [WorkExchange], TimeoutExchange);
    assert [] + [WorkExchange] == [WorkExchange];
  }

  // ---------- the closures as they run when nothing comes between ----------

  function WorkSteps(done: bool, value: int): seq<Step> {
    [WorkExchange] + if done then [] else [WorkObtain(value)] + [WorkSet] + [WorkResume]
  }

  function TimeoutSteps(done: bool): seq<Step> {
    [TimeoutExchange] + if done then [] else [TimeoutResume]
  }

  lemma RunSnoc(caller: nat, steps: seq<Step>, step: Step)
    ensures Run(caller, steps + [step]) ==
            if Enabled(Run(caller, steps), step) then Apply(Run(caller, steps), step) else Run(caller, steps)
  {
    assert (steps + [step])[..|steps|] == steps;
  }

  lemma WorkAsSteps(caller: nat, steps: seq<Step>, value: int)
    requires Run(caller, steps).work.WorkPosted?
    ensures var s := Run(caller, steps);
            Run(caller, steps + WorkSteps(s.done, value)) ==
            if s.done then s.(work := WorkEnded)
            else s.(done := true, cell := s.cell.(result := Some(value)), work := WorkEnded,
                     resumed := s.resumed + [Some(value)])
  {
    hide Run;
    var exchanged := steps + [WorkExchange];
    RunSnoc(caller, steps, WorkExchange);
    if !Run(caller, steps).done {
      RunSnoc(caller, exchanged, WorkObtain(value));
      RunSnoc(caller, exchanged + [WorkObtain(value)], WorkSet);
      RunSnoc(caller, exchanged + [WorkObtain(value)] + [WorkSet], WorkResume);
      assert steps + WorkSteps(false, value) == exchanged + [WorkObtain(value)] + [WorkSet] + [WorkResume];
    } else {
      assert WorkSteps(true, value) == [WorkExchange];
    }
  }

  lemma TimeoutAsSteps(caller: nat, steps: seq<Step>)
    requires Run(caller, steps).timeout.TimeoutPosted?
    ensures var s := Run(caller, steps);
            Run(caller, steps + TimeoutSteps(s.done)) ==
            if s.done then s.(timeout := TimeoutEnded)
            else s.(done := true, timeout := TimeoutEnded, resumed := s.resumed + [s.cell.result])
  {
    hide Run;
    RunSnoc(caller, steps, TimeoutExchange);
    if !Run(caller, steps).done {
      RunSnoc(caller, steps + [TimeoutExchange], TimeoutResume);
      assert steps + TimeoutSteps(false) == steps + [TimeoutExchange] + [TimeoutResume];
    } else {
      assert TimeoutSteps(true) == [TimeoutExchange];
    }
  }

  /** An awaited expirable task; `steps` is the run of the closures so far. */
  class ExpirableTask {
    const task: Task<int>
    var done: bool
    ghost const caller: nat
    ghost var steps: seq<Step>

    ghost predicate Valid()
      reads this, task
    {
      var s := Run(caller, steps);
      done == s.done && task.View() == s.cell && task.resumed == seq(|s.resumed|, _ => caller)
    }

    constructor (caller: nat)
      ensures Valid() && fresh(task) && this.caller == caller && steps == [] && !done
    {
      var t := new Task<int>();
      t.AwaitSuspend(caller);
      task, done := t, false;
      this.caller, steps := caller, [];
    }

    method CompareExchange() returns (claimed: bool)
      modifies this`done
      ensures done && claimed == !old(done)
    {
      claimed := !done;
      done := true;
    }

    method WorkClosure(value: int)
      requires Valid() && Run(caller, steps).work.WorkPosted?
      modifies this, task
      ensures Valid() && steps == old(steps) + WorkSteps(old(done), value)
      ensures task.result == (if old(done) then old(task.result) else Some(value))
      ensures task.resumed == old(task.resumed) + (if old(done) then [] else [caller])
    {
      hide Run;
      CallerStays(caller, steps);
      WorkAsSteps(caller, steps, value);
      steps := steps + WorkSteps(done, value);
      var claimed := CompareExchange();
      if claimed {
        task.SetResult(value);
        task.Resume();
      }
    }

    method TimeoutClosure()
      requires Valid() && Run(caller, steps).timeout.TimeoutPosted?
      modifies this, task
      ensures Valid() && steps == old(steps) + TimeoutSteps(old(done)) && task.result == old(task.result)
      ensures task.resumed == old(task.resumed) + (if old(done) then [] else [caller])
    {
      hide Run;
      CallerStays(caller, steps);
      TimeoutAsSteps(caller, steps);
      steps := steps + TimeoutSteps(done);
      var claimed := CompareExchange();
      if claimed {
        task.Resume();
      }
    }

    /** Whatever closures have run, the object has resumed its caller at most once, with a result only from the work. */
    lemma ResumesOnce()
      requires Valid()
      ensures |task.resumed| <= 1 && (task.result.Some? ==> WinnerOf(steps).Work?)
      ensures Run(caller, steps).work.WorkEnded? && Run(caller, steps).timeout.TimeoutEnded?
              ==> task.resumed == [caller]
    {
      ResumedOnce(caller, steps);
    }
  }

  lemma {:induction false} CallerStays(caller: nat, steps: seq<Step>)
    ensures Run(caller, steps).cell.caller == Some(caller)
  {
    if steps != [] {
      CallerStays(caller, steps[..|steps| - 1]);
    }
  }
}
