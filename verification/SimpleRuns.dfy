/**
 The loop of the single-threaded executor among its posters and its proactors, interleaved one lock
 block at a time. The loop harvests the proactors one after the other, while all of them go on completing.
 */
module SimpleRuns {
  import opened DelayQueue
  import opened SimpleExecutor

  datatype Pc =
    | RoundStart
    | TookPosted(posted: seq<Task>)
    | Harvesting(posted: seq<Task>, due: seq<Task>, harvested: seq<Job>, next: nat)
    | Running(posted: seq<Task>, due: seq<Task>, harvested: seq<Job>)
    | Waiting
    | Exited

  /** What one round took. */
  datatype Round = Round(due: seq<Task>, posted: seq<Task>, harvested: seq<Job>)

  datatype State = State(
    tasks: seq<Task>,                // posted and not taken
    delayTasks: multiset<Task>,
    completions: seq<seq<Task>>,     // by proactor: completed and not harvested
    pc: Pc,
    stoped: bool,
    ran: seq<Job>,                   // everything run so far
    rounds: seq<Round>,              // every round so far
    everPosted: seq<Task>,           // the histories
    everDelayed: multiset<Task>,
    everCompleted: seq<seq<Task>>,   // by proactor
    completedOrder: seq<Job>,        // all proactors together
    everHarvested: seq<Job>)

  datatype Step =
    | Post(task: Task)
    | PostDelay(task: Task)
    | Complete(j: nat, task: Task)
    | Stop
    | CheckStop
    | TakeDue(now: int, out: seq<Task>, kept: multiset<Task>)
    | HarvestOne
    | EndHarvest
    | RunOne
    | EndRound
    | Wake

  function NoTasks(n: nat): (r: seq<seq<Task>>)
    ensures |r| == n && forall j :: 0 <= j < n ==> r[j] == []
  {
    seq(n, _ => [])
  }

  function Boot(n: nat): State {
    State([], multiset{}, NoTasks(n), RoundStart, false, [], [], [], multiset{}, NoTasks(n), [], [])
  }

  ghost predicate Enabled(s: State, step: Step) {
    match step
    case Complete(j, _) => j < |s.completions| && j < |s.everCompleted|
    case CheckStop => s.pc.RoundStart?
    case TakeDue(now, out, kept) => s.pc.TookPosted? && Released(s.delayTasks, now, out, kept)
    case HarvestOne => s.pc.Harvesting? && s.pc.next < |s.completions|
    case EndHarvest => s.pc.Harvesting? && s.pc.next == |s.completions|
    case RunOne => HasNext(s.pc)
    case EndRound => s.pc == Running([], [], [])
    case Wake => s.pc.Waiting?
    case _ => true
  }

  predicate HasNext(pc: Pc) {
    pc.Running? && (pc.due != [] || pc.posted != [] || pc.harvested != [])
  }

  /** The next job of the round. */
  function NextJob(pc: Pc): Job
    requires HasNext(pc)
  {
    if pc.due != [] then Job(Delayed, pc.due[0])
    else if pc.posted != [] then Job(Posted, pc.posted[0])
    else pc.harvested[0]
  }

  function AfterNext(pc: Pc): Pc
    requires HasNext(pc)
  {
    if pc.due != [] then pc.(due := pc.due[1..])
    else if pc.posted != [] then pc.(posted := pc.posted[1..])
    else pc.(harvested := pc.harvested[1..])
  }

  function RunNext(s: State): State
    requires HasNext(s.pc)
  {
    s.(ran := s.ran + [NextJob(s.pc)], pc := AfterNext(s.pc))
  }

  /** One more completion in a proactor. */
  function CompleteIn(s: State, j: nat, t: Task): State
    requires j < |s.completions| && j < |s.everCompleted|
  {
    s.(completions := s.completions[j := s.completions[j] + [t]],
       everCompleted := s.everCompleted[j := s.everCompleted[j] + [t]],
       completedOrder := s.completedOrder + [Job(Harvested(j), t)])
  }

  /** The next proactor is locked and emptied. */
  function HarvestNext(s: State): State
    requires s.pc.Harvesting? && s.pc.next < |s.completions|
  {
    var j := s.pc.next;
    var jobs := Tag(Harvested(j), s.completions[j]);
    s.(completions := s.completions[j := []], everHarvested := s.everHarvested + jobs,
       pc := s.pc.(harvested := s.pc.harvested + jobs, next := j + 1))
  }

  function StartRunning(s: State): State
    requires s.pc.Harvesting?
  {
    var pc := Running(s.pc.posted, s.pc.due, s.pc.harvested);
    s.(pc := if HasNext(pc) then pc else Waiting, rounds := s.rounds + [Round(pc.due, pc.posted, pc.harvested)])
  }

  ghost function Apply(s: State, step: Step): State
    requires Enabled(s, step)
  {
    match step
    case Post(t) => s.(tasks := s.tasks + [t], everPosted := s.everPosted + [t])
    case PostDelay(t) => s.(delayTasks := s.delayTasks + multiset{t}, everDelayed := s.everDelayed + multiset{t})
    case Complete(j, t) => CompleteIn(s, j, t)
    case Stop => s.(stoped := true)
    case CheckStop => if s.stoped then s.(pc := Exited) else s.(pc := TookPosted(s.tasks), tasks := [])
    case TakeDue(_, out, kept) => s.(pc := Harvesting(s.pc.posted, out, [], 0), delayTasks := kept)
    case HarvestOne => HarvestNext(s)
    case EndHarvest => StartRunning(s)
    case RunOne => RunNext(s)
    case EndRound => s.(pc := RoundStart)
    case Wake => s.(pc := RoundStart)
  }

  /** The state of a context with n proactors after a list of steps; a step that cannot happen is skipped. */
  ghost function Run(n: nat, steps: seq<Step>): (s: State)
    ensures |s.completions| == |s.everCompleted| == n
  {
    if steps == [] then Boot(n)
    else
      var s := Run(n, steps[..|steps| - 1]);
      if Enabled(s, steps[|steps| - 1]) then Apply(s, steps[|steps| - 1]) else s
  }

  lemma RunSnoc(n: nat, steps: seq<Step>, step: Step)
    ensures var s := Run(n, steps); Run(n, steps + [step]) == if Enabled(s, step) then Apply(s, step) else s
  {
    assert (steps + [step])[..|steps|] == steps;
  }

  // ---------- jobs of one kind ----------

  function OfKind(jobs: seq<Job>, kind: Kind): seq<Task> {
    if jobs == [] then []
    else
      var last := jobs[|jobs| - 1];
      if last.kind == kind then OfKind(jobs[..|jobs| - 1], kind) + [last.task] else OfKind(jobs[..|jobs| - 1], kind)
  }

  lemma OfKindSnoc(jobs: seq<Job>, job: Job, kind: Kind)
    ensures OfKind(jobs + [job], kind) ==
            if job.kind == kind then OfKind(jobs, kind) + [job.task] else OfKind(jobs, kind)
  {
    assert (jobs + [job])[..|jobs|] == jobs;
  }

  lemma OfKindNone(kind: Kind)
    ensures OfKind([], kind) == []
  {}

  lemma {:induction false} OfKindConcat(a: seq<Job>, b: seq<Job>, kind: Kind)
    ensures OfKind(a + b, kind) == OfKind(a, kind) + OfKind(b, kind)
  {
    hide OfKind;
    OfKindNone(kind);
    if b == [] {
      assert a + b == a && OfKind(a, kind) + [] == OfKind(a, kind);
    } else {
      var front, last := b[..|b| - 1], b[|b| - 1];
      OfKindConcat(a, front, kind);
      OfKindSnoc(front, last, kind);
      OfKindSnoc(a + front, last, kind);
      assert b == front + [last] && a + b == a + front + [last];
      AppendLast(OfKind(a, kind), OfKind(front, kind), last.task);
    }
  }

  lemma AppendLast(a: seq<Task>, b: seq<Task>, t: Task)
    ensures a + b + [t] == a + (b + [t])
  {}

  lemma {:induction false} OfKindTag(kind: Kind, tasks: seq<Task>, k: Kind)
    ensures OfKind(Tag(kind, tasks), k) == if k == kind then tasks else []
  {
    if tasks != [] {
      var front, last := tasks[..|tasks| - 1], tasks[|tasks| - 1];
      OfKindTag(kind, front, k);
      OfKindSnoc(Tag(kind, front), Job(kind, last), k);
      assert Tag(kind, tasks) == Tag(kind, front) + [Job(kind, last)] && tasks == front + [last];
    }
  }

  lemma OfKindFirst(jobs: seq<Job>, kind: Kind)
    requires jobs != []
    ensures OfKind(jobs, kind) == (if jobs[0].kind == kind then [jobs[0].task] else []) + OfKind(jobs[1..], kind)
  {
    assert jobs == [jobs[0]] + jobs[1..];
    OfKindConcat([jobs[0]], jobs[1..], kind);
    OfKindSnoc([], jobs[0], kind);
    assert [] + [jobs[0]] == [jobs[0]];
  }

  // ---------- posted and delayed tasks ----------

  function HandPosted(pc: Pc): seq<Task> {
    if pc.TookPosted? || pc.Harvesting? || pc.Running? then pc.posted else []
  }

  function HandDue(pc: Pc): seq<Task> {
    if pc.Harvesting? || pc.Running? then pc.due else []
  }

  function HandHarvested(pc: Pc): seq<Job> {
    if pc.Harvesting? || pc.Running? then pc.harvested else []
  }

  /** Only jobs of proactors are in hand as harvested. */
  ghost predicate HandIsHarvest(s: State) {
    forall job <- HandHarvested(s.pc) :: job.kind.Harvested?
  }

  /** Posted tasks run in posting order, each once; what has not run is in hand, then in the queue. */
  ghost predicate PostedInOrder(s: State) {
    OfKind(s.ran, Posted) + HandPosted(s.pc) + s.tasks == s.everPosted
  }

  /** Of the delayed tasks none is lost or repeated. */
  ghost predicate DelayedConserved(s: State) {
    multiset(OfKind(s.ran, Delayed)) + multiset(HandDue(s.pc)) + s.delayTasks == s.everDelayed
  }

  /** The completions of each proactor run in its completion order, each once. */
  ghost predicate HarvestedInOrder(s: State, j: nat)
    requires j < |s.completions| && j < |s.everCompleted|
  {
    OfKind(s.ran, Harvested(j)) + OfKind(HandHarvested(s.pc), Harvested(j)) + s.completions[j] == s.everCompleted[j]
  }

  lemma HandStaysHarvest(s: State, step: Step)
    requires HandIsHarvest(s) && Enabled(s, step)
    ensures HandIsHarvest(Apply(s, step))
  {
    hide Released;
  }

  /** Moving the first task in hand to the tasks run. */
  lemma MoveFirst(done: seq<Task>, hand: seq<Task>, rest: seq<Task>)
    requires hand != []
    ensures done + [hand[0]] + hand[1..] + rest == done + hand + rest
  {
    assert hand == [hand[0]] + hand[1..];
  }

  lemma RunOneKeepsPosted(s: State)
    requires PostedInOrder(s) && HandIsHarvest(s) && HasNext(s.pc)
    ensures PostedInOrder(RunNext(s))
  {
    hide OfKind;
    OfKindSnoc(s.ran, NextJob(s.pc), Posted);
    if s.pc.due == [] && s.pc.posted != [] {
      MoveFirst(OfKind(s.ran, Posted), s.pc.posted, s.tasks);
    }
  }

  lemma StepKeepsPosted(s: State, step: Step)
    requires PostedInOrder(s) && HandIsHarvest(s) && Enabled(s, step)
    ensures PostedInOrder(Apply(s, step))
  {
    hide OfKind, Released;
    if step.RunOne? {
      RunOneKeepsPosted(s);
    } else if step.Post? {
      assert OfKind(s.ran, Posted) + HandPosted(s.pc) + s.tasks + [step.task]
          == OfKind(s.ran, Posted) + HandPosted(s.pc) + (s.tasks + [step.task]);
    } else if step.CheckStop? {
      assert OfKind(s.ran, Posted) + [] + s.tasks == OfKind(s.ran, Posted) + s.tasks + [];
    }
  }

  lemma RunOneConservesDelayed(s: State)
    requires DelayedConserved(s) && HandIsHarvest(s) && HasNext(s.pc)
    ensures DelayedConserved(RunNext(s))
  {
    hide OfKind;
    OfKindSnoc(s.ran, NextJob(s.pc), Delayed);
    if s.pc.due != [] {
      assert s.pc.due == [s.pc.due[0]] + s.pc.due[1..];
    }
  }

  lemma DueAreTaken(q: multiset<Task>, now: int, out: seq<Task>, kept: multiset<Task>)
    requires Released(q, now, out, kept)
    ensures multiset(out) + kept == q
  {}

  lemma TakeDueConservesDelayed(s: State, step: Step)
    requires DelayedConserved(s) && Enabled(s, step) && step.TakeDue?
    ensures DelayedConserved(Apply(s, step))
  {
    DueAreTaken(s.delayTasks, step.now, step.out, step.kept);
    assert HandDue(s.pc) == [];
    hide OfKind, Released, Enabled;
  }

  lemma OthersKeepDelayed(s: State, step: Step)
    requires Enabled(s, step) && !step.PostDelay? && !step.TakeDue? && !step.RunOne?
    ensures var s' := Apply(s, step);
            && s'.ran == s.ran && s'.delayTasks == s.delayTasks && s'.everDelayed == s.everDelayed
            && HandDue(s'.pc) == HandDue(s.pc)
  {
    hide Released, Tag;
  }

  lemma StepConservesDelayed(s: State, step: Step)
    requires DelayedConserved(s) && HandIsHarvest(s) && Enabled(s, step)
    ensures DelayedConserved(Apply(s, step))
  {
    hide OfKind, Released, HandDue;
    if step.RunOne? {
      RunOneConservesDelayed(s);
    } else if step.TakeDue? {
      TakeDueConservesDelayed(s, step);
    } else if !step.PostDelay? {
      OthersKeepDelayed(s, step);
      hide Apply;
    }
  }

  // ---------- completions, proactor by proactor ----------

  lemma RunOneKeepsHarvested(s: State, j: nat)
    requires j < |s.completions| && j < |s.everCompleted|
    requires HarvestedInOrder(s, j) && HasNext(s.pc)
    ensures HarvestedInOrder(RunNext(s), j)
  {
    hide OfKind;
    var done, hand := OfKind(s.ran, Harvested(j)), HandHarvested(s.pc);
    OfKindSnoc(s.ran, NextJob(s.pc), Harvested(j));
    if s.pc.due == [] && s.pc.posted == [] {
      OfKindFirst(hand, Harvested(j));
      if hand[0].kind == Harvested(j) {
        MoveFirst(done, OfKind(hand, Harvested(j)), s.completions[j]);
        assert OfKind(hand, Harvested(j))[1..] == OfKind(hand[1..], Harvested(j));
      } else {
        assert [] + OfKind(hand[1..], Harvested(j)) == OfKind(hand[1..], Harvested(j));
      }
    }
  }

  lemma HarvestKeepsHarvested(s: State, j: nat)
    requires j < |s.completions| && j < |s.everCompleted|
    requires HarvestedInOrder(s, j) && Enabled(s, HarvestOne)
    ensures HarvestedInOrder(HarvestNext(s), j)
  {
    hide OfKind, Tag;
    var i, hand, done := s.pc.next, s.pc.harvested, OfKind(s.ran, Harvested(j));
    OfKindConcat(hand, Tag(Harvested(i), s.completions[i]), Harvested(j));
    OfKindTag(Harvested(i), s.completions[i], Harvested(j));
    if i == j {
      assert done + (OfKind(hand, Harvested(j)) + s.completions[j]) + []
          == done + OfKind(hand, Harvested(j)) + s.completions[j];
    } else {
      assert OfKind(hand, Harvested(j)) + [] == OfKind(hand, Harvested(j));
    }
  }

  lemma CompleteKeepsHarvested(s: State, i: nat, t: Task, j: nat)
    requires i < |s.completions| == |s.everCompleted| && j < |s.completions| && HarvestedInOrder(s, j)
    ensures HarvestedInOrder(CompleteIn(s, i, t), j)
  {
    hide OfKind;
    var taken := OfKind(s.ran, Harvested(j)) + OfKind(HandHarvested(s.pc), Harvested(j));
    if i == j {
      assert taken + s.completions[j] + [t] == taken + (s.completions[j] + [t]);
    }
  }

  lemma StepKeepsHarvested(s: State, step: Step, j: nat)
    requires j < |s.completions| == |s.everCompleted| && HarvestedInOrder(s, j) && Enabled(s, step)
    ensures |Apply(s, step).completions| == |Apply(s, step).everCompleted| == |s.completions|
    ensures HarvestedInOrder(Apply(s, step), j)
  {
    hide OfKind, Released, Tag;
    if step.RunOne? {
      RunOneKeepsHarvested(s, j);
    } else if step.HarvestOne? {
      HarvestKeepsHarvested(s, j);
    } else if step.Complete? {
      CompleteKeepsHarvested(s, step.j, step.task, j);
    } else {
      OfKindNone(Harvested(j));
    }
  }

  // ---------- the order of whole runs ----------

  ghost predicate InOrder(n: nat, s: State) {
    && |s.completions| == |s.everCompleted| == n
    && PostedInOrder(s) && DelayedConserved(s) && HandIsHarvest(s)
    && forall j :: 0 <= j < n ==> HarvestedInOrder(s, j)
  }

  lemma BootInOrder(n: nat)
    ensures InOrder(n, Boot(n))
  {}

  lemma StepKeepsOrder(n: nat, s: State, step: Step)
    requires InOrder(n, s) && Enabled(s, step)
    ensures InOrder(n, Apply(s, step))
  {
    hide PostedInOrder, DelayedConserved, HarvestedInOrder, HandIsHarvest, Apply, Enabled;
    var s' := Apply(s, step);
    StepKeepsPosted(s, step);
    StepConservesDelayed(s, step);
    HandStaysHarvest(s, step);
    StepKeepsSizes(s, step);
    forall j | 0 <= j < n
      ensures HarvestedInOrder(s', j)
    {
      StepKeepsHarvested(s, step, j);
    }
  }

  lemma StepKeepsSizes(s: State, step: Step)
    requires Enabled(s, step)
    ensures |Apply(s, step).completions| == |s.completions| && |Apply(s, step).everCompleted| == |s.everCompleted|
  {
    hide Released, Tag;
  }

  /**
   In every interleaving of the loop with its posters and its proactors: posted tasks run in posting
   order, the completions of each proactor in its completion order, and no delayed task is lost.
   */
  lemma {:induction false} AlwaysInOrder(n: nat, steps: seq<Step>)
    ensures InOrder(n, Run(n, steps))
  {
    hide InOrder, Apply, Enabled;
    if steps == [] {
      BootInOrder(n);
    } else {
      AlwaysInOrder(n, steps[..|steps| - 1]);
      var s, step := Run(n, steps[..|steps| - 1]), steps[|steps| - 1];
      if Enabled(s, step) {
        StepKeepsOrder(n, s, step);
      }
    }
  }

  /** When the loop has left on stop, everything it ever took has run: what is left is in the queues. */
  lemma ExitLeavesNothingInHand(n: nat, steps: seq<Step>)
    requires Run(n, steps).pc.Exited?
    ensures var s := Run(n, steps);
            && OfKind(s.ran, Posted) + s.tasks == s.everPosted
            && (forall j :: 0 <= j < n ==> OfKind(s.ran, Harvested(j)) + s.completions[j] == s.everCompleted[j])
            && multiset(OfKind(s.ran, Delayed)) + s.delayTasks == s.everDelayed
  {
    hide OfKind, Run;
    AlwaysInOrder(n, steps);
    var s := Run(n, steps);
    forall j | 0 <= j < n
      ensures OfKind(s.ran, Harvested(j)) + s.completions[j] == s.everCompleted[j]
    {
      OfKindNone(Harvested(j));
      assert HarvestedInOrder(s, j);
      assert OfKind(s.ran, Harvested(j)) + [] + s.completions[j] == OfKind(s.ran, Harvested(j)) + s.completions[j];
    }
  }

  lemma StepStops(s: State, step: Step)
    requires Enabled(s, step)
    ensures Apply(s, step).stoped <==> s.stoped || step.Stop?
    ensures Apply(s, step).pc.Exited? ==> s.pc.Exited? || s.stoped
  {
    hide Released, Tag;
  }

  lemma {:induction false} StopedMeans(n: nat, steps: seq<Step>)
    ensures Run(n, steps).stoped <==> Stop in steps
  {
    if steps != [] {
      hide Enabled, Apply;
      var before, last := steps[..|steps| - 1], steps[|steps| - 1];
      StopedMeans(n, before);
      assert steps == before + [last];
      if Enabled(Run(n, before), last) {
        StepStops(Run(n, before), last);
      } else {
        StopIsEnabled(Run(n, before));
      }
    }
  }

  lemma StopIsEnabled(s: State)
    ensures Enabled(s, Stop)
  {}

  /** At the top of a round the loop leaves if and only if it was told to stop; else it takes what is posted. */
  lemma LeavesIff(n: nat, steps: seq<Step>)
    requires Run(n, steps).pc.RoundStart?
    ensures var s, s' := Run(n, steps), Run(n, steps + [CheckStop]);
            && (s'.pc.Exited? <==> Stop in steps)
            && (Stop !in steps ==> s'.pc == TookPosted(s.tasks) && s'.tasks == [])
  {
    hide Run;
    StopedMeans(n, steps);
    RunSnoc(n, steps, CheckStop);
  }

  /** It leaves for no other reason. */
  lemma {:induction false} LeavesOnlyAfterStop(n: nat, steps: seq<Step>)
    ensures Run(n, steps).pc.Exited? ==> Stop in steps
  {
    hide Enabled, Apply, Released, Tag;
    if steps != [] {
      var before, last := steps[..|steps| - 1], steps[|steps| - 1];
      LeavesOnlyAfterStop(n, before);
      StopedMeans(n, before);
      assert steps == before + [last];
      if Enabled(Run(n, before), last) {
        StepStops(Run(n, before), last);
      }
    }
  }

  lemma ExitedStays(s: State, step: Step)
    requires s.pc.Exited? && Enabled(s, step)
    ensures var s' := Apply(s, step); s'.pc.Exited? && s'.ran == s.ran && s'.rounds == s.rounds
  {
    hide Released, Tag;
  }

  /** Once it has left, the loop runs nothing more. */
  lemma {:induction false} ExitedForever(n: nat, steps: seq<Step>, more: seq<Step>)
    requires Run(n, steps).pc.Exited?
    ensures var s, s' := Run(n, steps), Run(n, steps + more); s'.pc.Exited? && s'.ran == s.ran && s'.rounds == s.rounds
  {
    hide Run, Enabled, Apply;
    if more == [] {
      assert steps + more == steps;
    } else {
      var front, last := more[..|more| - 1], more[|more| - 1];
      assert steps + more == steps + front + [last];
      ExitedForever(n, steps, front);
      RunSnoc(n, steps + front, last);
      if Enabled(Run(n, steps + front), last) {
        ExitedStays(Run(n, steps + front), last);
      }
    }
  }

  function OnlyHarvested(jobs: seq<Job>): seq<Job> {
    if jobs == [] then []
    else
      var last := jobs[|jobs| - 1];
      if last.kind.Harvested? then OnlyHarvested(jobs[..|jobs| - 1]) + [last] else OnlyHarvested(jobs[..|jobs| - 1])
  }

  lemma OnlyHarvestedSnoc(jobs: seq<Job>, job: Job)
    ensures OnlyHarvested(jobs + [job]) ==
            if job.kind.Harvested? then OnlyHarvested(jobs) + [job] else OnlyHarvested(jobs)
  {
    assert (jobs + [job])[..|jobs|] == jobs;
  }

  /** All completions together run in the order in which they were harvested. */
  ghost predicate InHarvestOrder(s: State) {
    OnlyHarvested(s.ran) + HandHarvested(s.pc) == s.everHarvested
  }

  lemma RunOneKeepsHarvestOrder(s: State)
    requires InHarvestOrder(s) && HandIsHarvest(s) && HasNext(s.pc)
    ensures InHarvestOrder(RunNext(s))
  {
    hide OnlyHarvested;
    OnlyHarvestedSnoc(s.ran, NextJob(s.pc));
    if s.pc.due == [] && s.pc.posted == [] {
      assert s.pc.harvested[0] in HandHarvested(s.pc);
      MoveFirstJob(OnlyHarvested(s.ran), s.pc.harvested);
    }
    hide HandIsHarvest;
  }

  lemma MoveFirstJob(done: seq<Job>, hand: seq<Job>)
    requires hand != []
    ensures done + [hand[0]] + hand[1..] == done + hand
  {}

  lemma HarvestKeepsHarvestOrder(s: State)
    requires InHarvestOrder(s) && Enabled(s, HarvestOne)
    ensures InHarvestOrder(HarvestNext(s))
  {
    hide OnlyHarvested, Tag;
    var jobs := Tag(Harvested(s.pc.next), s.completions[s.pc.next]);
    assert OnlyHarvested(s.ran) + s.pc.harvested + jobs == OnlyHarvested(s.ran) + (s.pc.harvested + jobs);
  }

  lemma StepKeepsHarvestOrder(s: State, step: Step)
    requires InHarvestOrder(s) && HandIsHarvest(s) && Enabled(s, step)
    ensures InHarvestOrder(Apply(s, step))
  {
    hide OnlyHarvested, Released, Tag;
    if step.RunOne? {
      RunOneKeepsHarvestOrder(s);
    } else if step.HarvestOne? {
      HarvestKeepsHarvestOrder(s);
    }
  }

  lemma {:induction false} AlwaysInHarvestOrder(n: nat, steps: seq<Step>)
    ensures InHarvestOrder(Run(n, steps))
  {
    if steps != [] {
      AlwaysInHarvestOrder(n, steps[..|steps| - 1]);
      AlwaysInOrder(n, steps[..|steps| - 1]);
      var s, step := Run(n, steps[..|steps| - 1]), steps[|steps| - 1];
      if Enabled(s, step) {
        StepKeepsHarvestOrder(s, step);
      }
    }
  }

  // ---------- when that is the order of completion ----------

  /** The completions run so far, and those in hand, are the first ones that completed, in that order. */
  ghost predicate InCompletionOrder(s: State) {
    OnlyHarvested(s.ran) + HandHarvested(s.pc) <= s.completedOrder
  }

  /** With one proactor, what was harvested and what waits is what completed. */
  ghost predicate OneQueue(s: State) {
    |s.completions| <= 1 &&
    s.everHarvested + (if s.completions == [] then [] else Tag(Harvested(0), s.completions[0])) == s.completedOrder
  }

  lemma TagSnoc(kind: Kind, tasks: seq<Task>, t: Task)
    ensures Tag(kind, tasks + [t]) == Tag(kind, tasks) + [Job(kind, t)]
    ensures Tag(kind, []) == []
  {}

  lemma StepKeepsOneQueue(s: State, step: Step)
    requires OneQueue(s) && Enabled(s, step)
    ensures OneQueue(Apply(s, step))
  {
    hide Released, Tag;
    if step.Complete? {
      TagSnoc(Harvested(0), s.completions[0], step.task);
      assert s.everHarvested + Tag(Harvested(0), s.completions[0]) + [Job(Harvested(0), step.task)]
          == s.everHarvested + (Tag(Harvested(0), s.completions[0]) + [Job(Harvested(0), step.task)]);
    } else if step.HarvestOne? {
      TagSnoc(Harvested(0), [], DelayTask(0, 0, 0));
      assert s.everHarvested + Tag(Harvested(0), s.completions[0]) + []
          == s.everHarvested + Tag(Harvested(0), s.completions[0]);
    }
  }

  lemma {:induction false} AlwaysOneQueue(n: nat, steps: seq<Step>)
    requires n <= 1
    ensures OneQueue(Run(n, steps))
  {
    if steps == [] {
      TagSnoc(Harvested(0), [], DelayTask(0, 0, 0));
    } else {
      AlwaysOneQueue(n, steps[..|steps| - 1]);
      var s, step := Run(n, steps[..|steps| - 1]), steps[|steps| - 1];
      if Enabled(s, step) {
        StepKeepsOneQueue(s, step);
      }
    }
  }

  /** Proactor 1 completes before proactor 0, and both are harvested. */
  function OvertakingSteps(x: Task, y: Task): seq<Step> {
    [Complete(1, x)] + [Complete(0, y)] + [CheckStop] + [TakeDue(0, [], multiset{})] + [HarvestOne] + [HarvestOne]
  }

  lemma OvertakingState(n: nat, x: Task, y: Task)
    requires n >= 2
    ensures var s := Run(n, OvertakingSteps(x, y));
            && s.ran == [] && s.pc == Harvesting([], [], [Job(Harvested(0), y), Job(Harvested(1), x)], 2)
            && s.completedOrder == [Job(Harvested(1), x), Job(Harvested(0), y)]
            && |s.completions| == n
  {
    hide Run, Enabled, Apply, Released, Tag;
    var boot := Boot(n);
    var both := CompleteIn(CompleteIn(boot, 1, x), 0, y);
    var took := both.(pc := Harvesting([], [], [], 0));
    var completing := [Complete(1, x)] + [Complete(0, y)];
    RunCompletes(n, x, y);
    OvertakingTakes(n, completing, both);
    TwoHarvests(took, y, x);
    var taking := completing + [CheckStop] + [TakeDue(0, [], multiset{})];
    RunSnoc(n, taking, HarvestOne);
    RunSnoc(n, taking + [HarvestOne], HarvestOne);
  }

  lemma RunCompletes(n: nat, x: Task, y: Task)
    requires n >= 2
    ensures Run(n, [Complete(1, x)] + [Complete(0, y)]) == CompleteIn(CompleteIn(Boot(n), 1, x), 0, y)
  {
    hide Run;
    BootRun(n);
    RunSnoc(n, [], Complete(1, x));
    RunSnoc(n, [Complete(1, x)], Complete(0, y));
    assert [] + [Complete(1, x)] == [Complete(1, x)];
  }

  lemma OvertakingTakes(n: nat, steps: seq<Step>, s: State)
    requires Run(n, steps) == s && s.pc.RoundStart? && !s.stoped && s.tasks == [] && s.delayTasks == multiset{}
    ensures Run(n, steps + [CheckStop] + [TakeDue(0, [], multiset{})]) == s.(pc := Harvesting([], [], [], 0))
  {
    hide Run;
    NothingDue(0);
    RunSnoc(n, steps, CheckStop);
    RunSnoc(n, steps + [CheckStop], TakeDue(0, [], multiset{}));
    hide Released;
  }

  lemma TwoHarvests(s: State, first: Task, second: Task)
    requires s.pc == Harvesting([], [], [], 0) && |s.completions| >= 2
    requires s.completions[0] == [first] && s.completions[1] == [second]
    ensures Enabled(s, HarvestOne)
    ensures var s1 := Apply(s, HarvestOne);
            && Enabled(s1, HarvestOne)
            && var s2 := Apply(s1, HarvestOne);
               && s2 == s.(completions := s2.completions, everHarvested := s2.everHarvested, pc := s2.pc)
               && |s2.completions| == |s.completions|
               && s2.pc == Harvesting([], [], [Job(Harvested(0), first), Job(Harvested(1), second)], 2)
  {
    assert Tag(Harvested(0), [first]) == [Job(Harvested(0), first)];
    assert Tag(Harvested(1), [second]) == [Job(Harvested(1), second)];
  }

  lemma BootRun(n: nat)
    ensures Run(n, []) == Boot(n)
  {}

  lemma NothingDue(now: int)
    ensures Released(multiset{}, now, [], multiset{})
  {}

  lemma Overtaken(s: State)
    requires s.ran == [] && HandHarvested(s.pc) != [] && s.completedOrder != []
    requires HandHarvested(s.pc)[0] != s.completedOrder[0]
    ensures !InCompletionOrder(s)
  {
    assert ([] + HandHarvested(s.pc))[0] == HandHarvested(s.pc)[0];
  }

  /** Every run keeps the order of completion exactly when the context has at most one proactor. */
  lemma CompletionOrderIff(n: nat)
    ensures (forall steps :: InCompletionOrder(Run(n, steps))) <==> n <= 1
  {
    if n <= 1 {
      forall steps
        ensures InCompletionOrder(Run(n, steps))
      {
        AlwaysInHarvestOrder(n, steps);
        AlwaysOneQueue(n, steps);
      }
    } else {
      var x, y := DelayTask(0, 0, 0), DelayTask(1, 0, 0);
      OvertakingState(n, x, y);
      Overtaken(Run(n, OvertakingSteps(x, y)));
      assert !InCompletionOrder(Run(n, OvertakingSteps(x, y)));
    }
  }

  /** Two proactors: the operation that completed last runs first. */
  lemma LaterRunsFirst(x: Task, y: Task)
    ensures var s := Run(2, OvertakingSteps(x, y) + [EndHarvest] + [RunOne] + [RunOne]);
            && s.ran == [Job(Harvested(0), y), Job(Harvested(1), x)]
            && s.completedOrder == [Job(Harvested(1), x), Job(Harvested(0), y)]
  {
    hide Run;
    var steps := OvertakingSteps(x, y);
    OvertakingState(2, x, y);
    RunSnoc(2, steps, EndHarvest);
    RunSnoc(2, steps + [EndHarvest], RunOne);
    RunSnoc(2, steps + [EndHarvest] + [RunOne], RunOne);
  }

  // ---------- the order within and across rounds ----------

  function AllRounds(rounds: seq<Round>): seq<Job> {
    if rounds == [] then []
    else
      var last := rounds[|rounds| - 1];
      AllRounds(rounds[..|rounds| - 1]) + RoundOrder(last.due, last.posted, last.harvested)
  }

  lemma AllRoundsSnoc(rounds: seq<Round>, r: Round)
    ensures AllRounds(rounds + [r]) == AllRounds(rounds) + RoundOrder(r.due, r.posted, r.harvested)
  {
    assert (rounds + [r])[..|rounds|] == rounds;
  }

  function Rest(pc: Pc): seq<Job> {
    if pc.Running? then RoundOrder(pc.due, pc.posted, pc.harvested) else []
  }

  lemma TagCons(kind: Kind, tasks: seq<Task>)
    ensures if tasks == [] then Tag(kind, tasks) == []
            else Tag(kind, tasks) == [Job(kind, tasks[0])] + Tag(kind, tasks[1..])
  {}

  lemma ConsFirst(x: Job, a: seq<Job>, b: seq<Job>, c: seq<Job>)
    ensures [x] + a + b + c == [x] + (a + b + c)
    ensures [] + ([x] + b) + c == [x] + ([] + b + c)
    ensures [] + [] + ([x] + c) == [x] + ([] + [] + c)
  {}

  lemma NextIsFirstOfRest(pc: Pc)
    requires HasNext(pc)
    ensures Rest(pc) == [NextJob(pc)] + Rest(AfterNext(pc))
  {
    hide Tag;
    TagCons(Delayed, pc.due);
    TagCons(Posted, pc.posted);
    var n := AfterNext(pc);
    ConsFirst(NextJob(pc), Tag(Delayed, n.due), Tag(Posted, n.posted), n.harvested);
    if pc.harvested != [] {
      assert pc.harvested == [pc.harvested[0]] + pc.harvested[1..];
    }
  }

  /** What has run, and the rest of the round in hand, are the rounds one after the other. */
  ghost predicate InRounds(s: State) {
    s.ran + Rest(s.pc) == AllRounds(s.rounds)
  }

  lemma RunOneKeepsRounds(s: State)
    requires InRounds(s) && HasNext(s.pc)
    ensures InRounds(RunNext(s))
  {
    hide AllRounds, Rest;
    NextIsFirstOfRest(s.pc);
    assert s.ran + ([NextJob(s.pc)] + Rest(AfterNext(s.pc))) == s.ran + [NextJob(s.pc)] + Rest(AfterNext(s.pc));
  }

  lemma StartKeepsRounds(s: State)
    requires InRounds(s) && s.pc.Harvesting?
    ensures InRounds(StartRunning(s))
  {
    hide AllRounds, RoundOrder;
    AllRoundsSnoc(s.rounds, Round(s.pc.due, s.pc.posted, s.pc.harvested));
    EmptyOrder(s.pc.due, s.pc.posted, s.pc.harvested);
    assert s.ran + [] == s.ran;
  }

  lemma StepKeepsRounds(s: State, step: Step)
    requires InRounds(s) && Enabled(s, step)
    ensures InRounds(Apply(s, step))
  {
    hide AllRounds, RoundOrder, Released, Tag;
    if step.RunOne? {
      RunOneKeepsRounds(s);
    } else if step.EndHarvest? {
      StartKeepsRounds(s);
    } else if step.EndRound? {
      EmptyOrder([], [], []);
    }
  }

  /** The loop runs its rounds one after the other, each in its order. */
  lemma {:induction false} RunsRoundByRound(n: nat, steps: seq<Step>)
    ensures InRounds(Run(n, steps))
  {
    if steps != [] {
      RunsRoundByRound(n, steps[..|steps| - 1]);
      var s := Run(n, steps[..|steps| - 1]);
      if Enabled(s, steps[|steps| - 1]) {
        StepKeepsRounds(s, steps[|steps| - 1]);
      }
    }
  }
}
