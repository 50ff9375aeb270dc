/**
 The work-stealing executor under concurrency: the main loop, the workers, tasks that post while they
 run, and outside threads, interleaved one lock block at a time.
 */
module MultithreadRuns {
  import opened DelayQueue
  import opened MultithreadExecutor

  datatype MainPc =
    | MainTop
    | Harvesting(due: seq<Task>, harvested: seq<Task>, next: nat)   // has locked the proactors before `next`
    | Dealing(due: seq<Task>, harvested: seq<Task>)                 // posting to the workers what it took
    | MainSleeping
    | MainExited

  datatype WorkerPc =
    | AtTop
    | TryGlobal                  // its own queue was empty
    | Scanning(left: seq<nat>)   // the global queue was empty too; these workers are still to be asked
    | Running(task: Task)
    | Resting                    // no job found
    | Exited

  datatype State = State(
    global: seq<Task>,
    queues: seq<seq<Task>>,
    delayed: multiset<Task>,
    completions: seq<seq<Task>>, // by proactor: completed and not harvested
    main: MainPc,
    workers: seq<WorkerPc>,
    stoped: bool,
    finished: seq<Task>,         // the tasks that have run to their end
    entered: multiset<Task>)     // every task ever posted, delayed or completed in a proactor

  datatype Step =
    | OutsidePost(task: Task)
    | PostDelay(task: Task)
    | Complete(j: nat, task: Task)
    | Stop
    | WorkerPost(i: nat, task: Task)
    | MainTakeDue(now: int, out: seq<Task>, kept: multiset<Task>)
    | MainHarvestOne
    | MainStartDealing
    | MainDeal(k: nat)
    | MainAgain
    | TakeOwn(i: nat)
    | TakeGlobal(i: nat, start: nat)
    | TakeFrom(i: nat)
    | FinishTask(i: nat)
    | WorkerAgain(i: nat)

  ghost predicate Enabled(s: State, step: Step) {
    match step
    case WorkerPost(i, _) => i < |s.workers| && s.workers[i].Running?
    case MainTakeDue(now, out, kept) => s.main.MainTop? && !s.stoped && Released(s.delayed, now, out, kept)
    case Complete(j, _) => j < |s.completions|
    case MainHarvestOne => s.main.Harvesting? && s.main.next < |s.completions|
    case MainStartDealing => s.main.Harvesting? && s.main.next == |s.completions|
    case MainDeal(k) => s.main.Dealing? && (s.main.due != [] || s.main.harvested != []) && k < |s.queues|
    case MainAgain => s.main == Dealing([], []) || s.main.MainSleeping? || (s.main.MainTop? && s.stoped)
    case TakeOwn(i) => i < |s.workers| && s.workers[i].AtTop? && !s.stoped
    case TakeGlobal(i, start) => i < |s.workers| && s.workers[i].TryGlobal? && start < |s.workers|
    case TakeFrom(i) => i < |s.workers| && s.workers[i].Scanning? && s.workers[i].left != []
    case FinishTask(i) => i < |s.workers| && s.workers[i].Running?
    case WorkerAgain(i) =>
      i < |s.workers| && (s.workers[i] == Scanning([]) || s.workers[i].Resting? || (s.workers[i].AtTop? && s.stoped))
    case _ => true
  }

  /** Taking the front of queue `j`, or moving on to `next` if it is empty. */
  function TakeQueue(s: State, i: nat, j: nat, next: WorkerPc): State
    requires i < |s.workers| && j < |s.queues|
  {
    if s.queues[j] == [] then s.(workers := s.workers[i := next])
    else s.(queues := s.queues[j := s.queues[j][1..]], workers := s.workers[i := Running(s.queues[j][0])])
  }

  /** The main loop locks and empties the next proactor. */
  function HarvestNext(s: State): State
    requires s.main.Harvesting? && s.main.next < |s.completions|
  {
    var j := s.main.next;
    s.(completions := s.completions[j := []],
       main := s.main.(harvested := s.main.harvested + s.completions[j], next := j + 1))
  }

  ghost function Apply(s: State, step: Step): State
    requires WellFormed(s) && Enabled(s, step)
  {
    match step
    case OutsidePost(t) => s.(global := s.global + [t], entered := s.entered + multiset{t})
    case PostDelay(t) => s.(delayed := s.delayed + multiset{t}, entered := s.entered + multiset{t})
    case Complete(j, t) =>
      s.(completions := s.completions[j := s.completions[j] + [t]], entered := s.entered + multiset{t})
    case Stop => s.(stoped := true)
    case WorkerPost(i, t) => s.(queues := s.queues[i := s.queues[i] + [t]], entered := s.entered + multiset{t})
    case MainTakeDue(_, out, kept) => s.(main := Harvesting(out, [], 0), delayed := kept)
    case MainHarvestOne => HarvestNext(s)
    case MainStartDealing =>
      s.(main := if s.main.due == [] && s.main.harvested == [] then MainSleeping
                 else Dealing(s.main.due, s.main.harvested))
    case MainDeal(k) =>
      if s.main.due != [] then
        s.(main := s.main.(due := s.main.due[1..]), queues := s.queues[k := s.queues[k] + [s.main.due[0]]])
      else
        s.(main := s.main.(harvested := s.main.harvested[1..]),
           queues := s.queues[k := s.queues[k] + [s.main.harvested[0]]])
    case MainAgain => s.(main := if s.main.MainTop? then MainExited else MainTop)
    case TakeOwn(i) => TakeQueue(s, i, i, TryGlobal)
    case TakeGlobal(i, start) =>
      if s.global == [] then s.(workers := s.workers[i := Scanning(StealOrder(|s.workers|, start, i))])
      else s.(global := s.global[1..], workers := s.workers[i := Running(s.global[0])])
    case TakeFrom(i) => TakeQueue(s, i, s.workers[i].left[0], Scanning(s.workers[i].left[1..]))
    case FinishTask(i) => s.(finished := s.finished + [s.workers[i].task], workers := s.workers[i := AtTop])
    case WorkerAgain(i) =>
      var pc := s.workers[i];
      s.(workers := s.workers[i := if pc.Scanning? then Resting else if pc.Resting? then AtTop else Exited])
  }

  /** A scan only ever names other workers. */
  ghost predicate WellFormed(s: State) {
    && |s.queues| == |s.workers|
    && forall i, k :: 0 <= i < |s.workers| && s.workers[i].Scanning? && 0 <= k < |s.workers[i].left| ==>
         s.workers[i].left[k] < |s.queues| && s.workers[i].left[k] != i
  }

  /** n workers and p proactors. */
  function Boot(n: nat, p: nat): State {
    State([], seq(n, _ => []), multiset{}, seq(p, _ => []), MainTop, seq(n, _ => AtTop), false, [], multiset{})
  }

  lemma TakeGlobalKeepsForm(s: State, i: nat, start: nat)
    requires WellFormed(s) && Enabled(s, TakeGlobal(i, start))
    ensures WellFormed(Apply(s, TakeGlobal(i, start)))
  {
    hide StealOrder;
    StealOrderVisitsEachOtherOnce(|s.workers|, start, i);
  }

  lemma StepKeepsForm(s: State, step: Step)
    requires WellFormed(s) && Enabled(s, step)
    ensures WellFormed(Apply(s, step))
  {
    hide StealOrder, Released;
    if step.TakeGlobal? {
      TakeGlobalKeepsForm(s, step.i, step.start);
    }
  }

  ghost function Run(n: nat, p: nat, steps: seq<Step>): (s: State)
    ensures WellFormed(s) && |s.workers| == n && |s.completions| == p
  {
    if steps == [] then Boot(n, p)
    else
      var s := Run(n, p, steps[..|steps| - 1]);
      var step := steps[|steps| - 1];
      if Enabled(s, step) then
        StepKeepsForm(s, step);
        Apply(s, step)
      else s
  }

  // ---------- conservation ----------

  function MainHand(pc: MainPc): seq<Task> {
    if pc.Harvesting? || pc.Dealing? then pc.due + pc.harvested else []
  }

  function Hand(pc: WorkerPc): seq<Task> {
    if pc.Running? then [pc.task] else []
  }

  ghost function Hands(pcs: seq<WorkerPc>): (r: seq<seq<Task>>)
    ensures |r| == |pcs| && forall i :: 0 <= i < |r| ==> r[i] == Hand(pcs[i])
  {
    seq(|pcs|, i requires 0 <= i < |pcs| => Hand(pcs[i]))
  }

  /** How many copies of a task wait somewhere, or are in somebody's hands before they run. */
  ghost function Waiting(s: State, x: Task): nat {
    multiset(s.global)[x] + Flat(s.queues)[x] + s.delayed[x] + Flat(s.completions)[x] + multiset(MainHand(s.main))[x]
  }

  /** How many runs of a task have begun. */
  ghost function Begun(s: State, x: Task): nat {
    Flat(Hands(s.workers))[x] + multiset(s.finished)[x]
  }

  /** Every copy of the task that ever entered still waits, or its run has begun. */
  ghost predicate Conserved(s: State, x: Task) {
    s.entered[x] == Waiting(s, x) + Begun(s, x)
  }

  lemma QueueUpdate(qs: seq<seq<Task>>, i: nat, q: seq<Task>, x: Task)
    requires i < |qs|
    ensures Flat(qs[i := q])[x] + multiset(qs[i])[x] == Flat(qs)[x] + multiset(q)[x]
  {
    FlatUpdate(qs, i, q);
  }

  lemma HandUpdate(pcs: seq<WorkerPc>, i: nat, pc: WorkerPc, x: Task)
    requires i < |pcs|
    ensures Flat(Hands(pcs[i := pc]))[x] + multiset(Hand(pcs[i]))[x] == Flat(Hands(pcs))[x] + multiset(Hand(pc))[x]
  {
    assert Hands(pcs[i := pc]) == Hands(pcs)[i := Hand(pc)];
    QueueUpdate(Hands(pcs), i, Hand(pc), x);
  }

  lemma TakeQueueConserves(s: State, i: nat, j: nat, next: WorkerPc, x: Task)
    requires i < |s.workers| && j < |s.queues| && Hand(s.workers[i]) == [] && Hand(next) == []
    requires Conserved(s, x)
    ensures Conserved(TakeQueue(s, i, j, next), x)
  {
    hide Flat, Hands;
    if s.queues[j] == [] {
      HandUpdate(s.workers, i, next, x);
    } else {
      var task, rest := s.queues[j][0], s.queues[j][1..];
      assert s.queues[j] == [task] + rest;
      HandUpdate(s.workers, i, Running(task), x);
      QueueUpdate(s.queues, j, rest, x);
    }
  }

  lemma PostConserves(s: State, step: Step, x: Task)
    requires WellFormed(s) && Enabled(s, step) && Conserved(s, x)
    requires step.OutsidePost? || step.PostDelay? || step.Complete? || step.WorkerPost? || step.Stop?
    ensures Conserved(Apply(s, step), x)
  {
    hide Flat, Hands;
    if step.WorkerPost? {
      QueueUpdate(s.queues, step.i, s.queues[step.i] + [step.task], x);
    } else if step.Complete? {
      QueueUpdate(s.completions, step.j, s.completions[step.j] + [step.task], x);
    }
  }

  lemma MainTakeDueConserves(s: State, step: Step, x: Task)
    requires WellFormed(s) && Enabled(s, step) && Conserved(s, x) && step.MainTakeDue?
    ensures Conserved(Apply(s, step), x)
  {
    assert multiset(step.out) + step.kept == s.delayed;
    assert Apply(s, step) == s.(main := Harvesting(step.out, [], 0), delayed := step.kept);
    assert step.out + [] == step.out;
    hide Flat, Hands, WellFormed, Released, Apply;
  }

  lemma MainMoves(s: State, step: Step)
    requires WellFormed(s) && Enabled(s, step) && (step.MainStartDealing? || step.MainAgain?)
    ensures var s' := Apply(s, step); s' == s.(main := s'.main) && MainHand(s'.main) == MainHand(s.main)
  {
    hide WellFormed;
  }

  lemma MainMovesConserve(s: State, step: Step, x: Task)
    requires WellFormed(s) && Enabled(s, step) && (step.MainStartDealing? || step.MainAgain?) && Conserved(s, x)
    ensures Conserved(Apply(s, step), x)
  {
    hide Flat, Hands, WellFormed, Apply, MainHand, Enabled;
    MainMoves(s, step);
  }

  lemma HarvestMoves(s: State)
    requires s.main.Harvesting? && s.main.next < |s.completions|
    ensures var s', j := HarvestNext(s), s.main.next;
            && s' == s.(main := s'.main, completions := s.completions[j := []])
            && MainHand(s'.main) == MainHand(s.main) + s.completions[j]
  {}

  lemma HarvestConserves(s: State, x: Task)
    requires s.main.Harvesting? && s.main.next < |s.completions| && Conserved(s, x)
    ensures Conserved(HarvestNext(s), x)
  {
    hide Flat, Hands, MainHand, HarvestNext;
    HarvestMoves(s);
    QueueUpdate(s.completions, s.main.next, [], x);
  }

  lemma DealMoves(s: State, k: nat)
    requires WellFormed(s) && Enabled(s, MainDeal(k))
    ensures var s', hand := Apply(s, MainDeal(k)), MainHand(s.main);
            && hand != [] && MainHand(s'.main) == hand[1..]
            && s' == s.(main := s'.main, queues := s.queues[k := s.queues[k] + [hand[0]]])
  {
    hide WellFormed;
  }

  lemma MainDealConserves(s: State, k: nat, x: Task)
    requires WellFormed(s) && Enabled(s, MainDeal(k)) && Conserved(s, x)
    ensures Conserved(Apply(s, MainDeal(k)), x)
  {
    hide Flat, Hands, WellFormed, MainHand, Apply;
    var hand := MainHand(s.main);
    DealMoves(s, k);
    assert hand == [hand[0]] + hand[1..];
    QueueUpdate(s.queues, k, s.queues[k] + [hand[0]], x);
  }

  /** Asking the global queue moves at most its first task into the worker's hand. */
  lemma AskingMoves(s: State, i: nat, start: nat)
    requires WellFormed(s) && Enabled(s, TakeGlobal(i, start))
    ensures var s' := Apply(s, TakeGlobal(i, start));
            && i < |s.workers| == |s'.workers|
            && s' == s.(global := s'.global, workers := s.workers[i := s'.workers[i]])
            && Hand(s.workers[i]) == [] && s.global == Hand(s'.workers[i]) + s'.global
  {
    hide StealOrder, WellFormed;
  }

  lemma TakeGlobalConserves(s: State, i: nat, start: nat, x: Task)
    requires WellFormed(s) && Enabled(s, TakeGlobal(i, start)) && Conserved(s, x)
    ensures Conserved(Apply(s, TakeGlobal(i, start)), x)
  {
    hide Flat, Hands, WellFormed, Apply, Hand, Enabled;
    AskingMoves(s, i, start);
    HandUpdate(s.workers, i, Apply(s, TakeGlobal(i, start)).workers[i], x);
  }

  lemma FinishConserves(s: State, i: nat, x: Task)
    requires WellFormed(s) && Enabled(s, FinishTask(i)) && Conserved(s, x)
    ensures Conserved(Apply(s, FinishTask(i)), x)
  {
    hide Flat, Hands, WellFormed, StealOrder;
    var task := s.workers[i].task;
    HandUpdate(s.workers, i, AtTop, x);
    assert multiset(s.finished + [task])[x] == multiset(s.finished)[x] + multiset([task])[x];
    assert Apply(s, FinishTask(i)) == s.(finished := s.finished + [task], workers := s.workers[i := AtTop]);
  }

  lemma RestingMoves(s: State, i: nat)
    requires WellFormed(s) && Enabled(s, WorkerAgain(i))
    ensures var s' := Apply(s, WorkerAgain(i));
            && i < |s.workers| == |s'.workers| && s' == s.(workers := s.workers[i := s'.workers[i]])
            && Hand(s.workers[i]) == Hand(s'.workers[i]) == []
  {
    hide WellFormed;
  }

  lemma RestConserves(s: State, i: nat, x: Task)
    requires WellFormed(s) && Enabled(s, WorkerAgain(i)) && Conserved(s, x)
    ensures Conserved(Apply(s, WorkerAgain(i)), x)
  {
    hide Flat, Hands, WellFormed, Apply, Hand, Enabled;
    RestingMoves(s, i);
    HandUpdate(s.workers, i, Apply(s, WorkerAgain(i)).workers[i], x);
  }

  lemma StepConserves(s: State, step: Step, x: Task)
    requires WellFormed(s) && Enabled(s, step) && Conserved(s, x)
    ensures Conserved(Apply(s, step), x)
  {
    hide Conserved, Released, StealOrder, WellFormed;
    match step
    case MainTakeDue(_, _, _) => MainTakeDueConserves(s, step, x);
    case MainHarvestOne => HarvestConserves(s, x);
    case MainStartDealing => MainMovesConserve(s, step, x);
    case MainAgain => MainMovesConserve(s, step, x);
    case MainDeal(k) => MainDealConserves(s, k, x);
    case TakeOwn(i) =>
      ScanNamesWorkers(s, i);
      TakeQueueConserves(s, i, i, TryGlobal, x);
    case TakeGlobal(i, start) => TakeGlobalConserves(s, i, start, x);
    case TakeFrom(i) =>
      ScanNamesWorkers(s, i);
      TakeQueueConserves(s, i, s.workers[i].left[0], Scanning(s.workers[i].left[1..]), x);
    case FinishTask(i) => FinishConserves(s, i, x);
    case WorkerAgain(i) => RestConserves(s, i, x);
    case _ => PostConserves(s, step, x);
  }

  lemma ScanNamesWorkers(s: State, i: nat)
    requires WellFormed(s) && i < |s.workers|
    ensures |s.queues| == |s.workers|
    ensures s.workers[i].Scanning? && s.workers[i].left != [] ==> s.workers[i].left[0] < |s.queues|
  {}

  /** In every interleaving. */
  lemma {:induction false} AlwaysConserved(n: nat, p: nat, steps: seq<Step>, x: Task)
    ensures Conserved(Run(n, p, steps), x)
  {
    if steps == [] {
      FlatOfEmpty(Boot(n, p).queues);
      FlatOfEmpty(Boot(n, p).completions);
      FlatOfEmpty(Hands(Boot(n, p).workers));
    } else {
      AlwaysConserved(n, p, steps[..|steps| - 1], x);
      var s, step := Run(n, p, steps[..|steps| - 1]), steps[|steps| - 1];
      if Enabled(s, step) {
        StepConserves(s, step, x);
      }
    }
  }

  /** A task that entered once runs at most once, and has run or still waits; stealing changes neither. */
  lemma NoTaskRunsTwice(n: nat, p: nat, steps: seq<Step>, x: Task)
    requires Run(n, p, steps).entered[x] == 1
    ensures var s := Run(n, p, steps);
            Begun(s, x) <= 1 && (Begun(s, x) == 0 <==> Waiting(s, x) == 1)
  {
    AlwaysConserved(n, p, steps, x);
  }

  // ---------- what a worker without a job has seen ----------

  /** The steps that put a task into a worker's queue or the global one. */
  predicate Posts(step: Step) {
    step.OutsidePost? || step.WorkerPost? || step.MainDeal?
  }

  predicate NoPosts(steps: seq<Step>) {
    forall step <- steps :: !Posts(step)
  }

  ghost predicate AllEmpty(s: State) {
    s.global == [] && forall j :: 0 <= j < |s.queues| ==> s.queues[j] == []
  }

  /** The queues a worker has found empty in this turn are empty still. */
  ghost predicate SeenAreEmpty(s: State, i: nat)
    requires i < |s.workers| == |s.queues|
  {
    match s.workers[i]
    case TryGlobal => s.queues[i] == []
    case Scanning(left) =>
      s.global == [] && forall j :: 0 <= j < |s.queues| && j !in left ==> s.queues[j] == []
    case Resting => AllEmpty(s)
    case _ => true
  }

  lemma OwnStepKeepsSeen(s: State, step: Step, i: nat)
    requires WellFormed(s) && i < |s.workers| && SeenAreEmpty(s, i) && Enabled(s, step)
    requires step == TakeOwn(i) || step == TakeFrom(i) || step == FinishTask(i) || step == WorkerAgain(i)
    ensures SeenAreEmpty(Apply(s, step), i)
  {
    hide StealOrder;
    if step.TakeFrom? {
      var left := s.workers[i].left;
      assert left == [left[0]] + left[1..];
    }
  }

  lemma AskingGlobalKeepsSeen(s: State, i: nat, start: nat)
    requires WellFormed(s) && Enabled(s, TakeGlobal(i, start)) && SeenAreEmpty(s, i)
    ensures SeenAreEmpty(Apply(s, TakeGlobal(i, start)), i)
  {
    hide StealOrder;
    StealOrderVisitsEachOtherOnce(|s.workers|, start, i);
  }

  /** The index of the worker a step belongs to. */
  function ActorOf(step: Step): int {
    match step
    case WorkerPost(i, _) => i
    case TakeOwn(i) => i
    case TakeGlobal(i, _) => i
    case TakeFrom(i) => i
    case FinishTask(i) => i
    case WorkerAgain(i) => i
    case _ => -1
  }

  /** Whoever else takes, no queue grows without a post. */
  lemma OthersOnlyTake(s: State, step: Step, i: nat)
    requires WellFormed(s) && i < |s.workers| && Enabled(s, step) && !Posts(step)
    ensures var s' := Apply(s, step);
            && |s'.queues| == |s.queues| == |s'.workers| == |s.workers| && (s.global == [] ==> s'.global == [])
            && (forall j :: 0 <= j < |s.queues| && s.queues[j] == [] ==> s'.queues[j] == [])
            && (ActorOf(step) != i ==> s'.workers[i] == s.workers[i])
  {
    hide StealOrder, Released;
  }

  lemma OthersKeepSeen(s: State, s': State, i: nat)
    requires i < |s.workers| == |s.queues| && SeenAreEmpty(s, i)
    requires |s'.queues| == |s.queues| == |s'.workers| && s'.workers[i] == s.workers[i]
    requires s.global == [] ==> s'.global == []
    requires forall j :: 0 <= j < |s.queues| && s.queues[j] == [] ==> s'.queues[j] == []
    ensures SeenAreEmpty(s', i)
  {}

  lemma OwnStepIs(step: Step, i: nat)
    requires ActorOf(step) == i && !Posts(step)
    ensures || step.TakeGlobal? || step == TakeOwn(i) || step == TakeFrom(i)
            || step == FinishTask(i) || step == WorkerAgain(i)
    ensures step.TakeGlobal? ==> step == TakeGlobal(i, step.start)
  {}

  lemma StepKeepsSeen(s: State, step: Step, i: nat)
    requires WellFormed(s) && i < |s.workers| && SeenAreEmpty(s, i) && Enabled(s, step) && !Posts(step)
    ensures |Apply(s, step).workers| == |Apply(s, step).queues| == |s.workers| && SeenAreEmpty(Apply(s, step), i)
  {
    hide StealOrder, Released, WellFormed, Apply, Enabled, SeenAreEmpty, ActorOf, Posts;
    OthersOnlyTake(s, step, i);
    if ActorOf(step) != i {
      OthersKeepSeen(s, Apply(s, step), i);
    } else {
      OwnStepIs(step, i);
      if step.TakeGlobal? {
        AskingGlobalKeepsSeen(s, i, step.start);
      } else {
        OwnStepKeepsSeen(s, step, i);
      }
    }
  }

  lemma RunSnoc(n: nat, p: nat, steps: seq<Step>, step: Step)
    ensures var s := Run(n, p, steps);
            Run(n, p, steps + [step]) == if Enabled(s, step) then Apply(s, step) else s
  {
    assert (steps + [step])[..|steps|] == steps;
  }

  lemma {:induction false} SeenStayEmpty(n: nat, p: nat, steps: seq<Step>, more: seq<Step>, i: nat)
    requires i < n && SeenAreEmpty(Run(n, p, steps), i) && NoPosts(more)
    ensures SeenAreEmpty(Run(n, p, steps + more), i)
  {
    hide Run, SeenAreEmpty, Enabled, Apply;
    if more == [] {
      assert steps + more == steps;
    } else {
      var front, last := more[..|more| - 1], more[|more| - 1];
      assert steps + more == steps + front + [last];
      SeenStayEmpty(n, p, steps, front, i);
      RunSnoc(n, p, steps + front, last);
      var s := Run(n, p, steps + front);
      if Enabled(s, last) {
        StepKeepsSeen(s, last, i);
      }
    }
  }

  /**
   A worker that starts a turn and later finds no job while nobody posts: whatever the others take
   meanwhile, every queue is empty when it goes to rest.
   */
  lemma RestingMeansAllEmpty(n: nat, p: nat, steps: seq<Step>, more: seq<Step>, i: nat)
    requires i < n && Run(n, p, steps).workers[i].AtTop? && NoPosts(more)
    ensures var s := Run(n, p, steps + more);
            && (s.workers[i] == Scanning([]) || s.workers[i].Resting? ==> AllEmpty(s))
            && (s.workers[i].TryGlobal? ==> s.queues[i] == [])
            && (s.workers[i].Scanning? ==>
                s.global == [] && forall j :: 0 <= j < n && j !in s.workers[i].left ==> s.queues[j] == [])
  {
    SeenStayEmpty(n, p, steps, more, i);
  }

  lemma StepFindsNothing(s: State, step: Step, i: nat)
    requires WellFormed(s) && i < |s.workers| && AllEmpty(s) && !s.workers[i].Running?
             && Enabled(s, step) && !Posts(step)
    ensures AllEmpty(Apply(s, step)) && |Apply(s, step).workers| == |s.workers| && !Apply(s, step).workers[i].Running?
  {
    hide StealOrder, Released;
    OthersOnlyTake(s, step, i);
  }

  /** And from empty queues no turn finds a job until somebody posts. */
  lemma {:induction false} EmptyFindsNoJob(n: nat, p: nat, steps: seq<Step>, more: seq<Step>, i: nat)
    requires i < n && AllEmpty(Run(n, p, steps)) && !Run(n, p, steps).workers[i].Running? && NoPosts(more)
    ensures AllEmpty(Run(n, p, steps + more)) && !Run(n, p, steps + more).workers[i].Running?
  {
    hide Run, AllEmpty, Enabled, Apply;
    if more == [] {
      assert steps + more == steps;
    } else {
      var front, last := more[..|more| - 1], more[|more| - 1];
      assert steps + more == steps + front + [last];
      EmptyFindsNoJob(n, p, steps, front, i);
      RunSnoc(n, p, steps + front, last);
      var s := Run(n, p, steps + front);
      if Enabled(s, last) {
        StepFindsNothing(s, last, i);
      }
    }
  }

  // ---------- stopping ----------

  lemma {:induction false} StopedMeans(n: nat, p: nat, steps: seq<Step>)
    ensures Run(n, p, steps).stoped <==> Stop in steps
  {
    if steps != [] {
      var before, last := steps[..|steps| - 1], steps[|steps| - 1];
      StopedMeans(n, p, before);
      assert steps == before + [last];
      var s := Run(n, p, before);
      if Enabled(s, last) {
        StepStops(s, last);
      }
      hide Enabled, Apply;
    }
  }

  lemma StepStops(s: State, step: Step)
    requires WellFormed(s) && Enabled(s, step)
    ensures Apply(s, step).stoped <==> s.stoped || step.Stop?
  {
    hide Released, StealOrder, WellFormed;
  }

  /** At the top of its loop a worker, told to stop, can only leave; not told, it can only ask its queue. */
  lemma WorkerLeavesIff(n: nat, p: nat, steps: seq<Step>, i: nat)
    requires i < n && Run(n, p, steps).workers[i].AtTop?
    ensures var s := Run(n, p, steps);
            && (Enabled(s, TakeOwn(i)) <==> Stop !in steps) && (Enabled(s, WorkerAgain(i)) <==> Stop in steps)
            && (Stop in steps ==> Run(n, p, steps + [WorkerAgain(i)]).workers[i].Exited?)
  {
    hide Run, WellFormed;
    StopedMeans(n, p, steps);
    RunSnoc(n, p, steps, WorkerAgain(i));
  }

  /** So can the main loop. */
  lemma MainLeavesIff(n: nat, p: nat, steps: seq<Step>, now: int, due: seq<Task>, kept: multiset<Task>)
    requires Run(n, p, steps).main.MainTop? && Released(Run(n, p, steps).delayed, now, due, kept)
    ensures var s := Run(n, p, steps);
            && (Enabled(s, MainTakeDue(now, due, kept)) <==> Stop !in steps)
            && (Enabled(s, MainAgain) <==> Stop in steps)
            && (Stop in steps ==> Run(n, p, steps + [MainAgain]).main.MainExited?)
  {
    hide Run, WellFormed, Released;
    StopedMeans(n, p, steps);
    RunSnoc(n, p, steps, MainAgain);
  }

  lemma StepLeaves(s: State, step: Step, i: nat)
    requires WellFormed(s) && Enabled(s, step) && i < |s.workers|
    ensures |Apply(s, step).workers| == |s.workers|
    ensures Apply(s, step).workers[i].Exited? ==> s.workers[i].Exited? || s.stoped
    ensures Apply(s, step).main.MainExited? ==> s.main.MainExited? || s.stoped
  {
    hide Released, StealOrder;
  }

  /** Nobody leaves for another reason. */
  lemma {:induction false} LeavesOnlyAfterStop(n: nat, p: nat, steps: seq<Step>, i: nat)
    requires i < n
    ensures Run(n, p, steps).workers[i].Exited? || Run(n, p, steps).main.MainExited? ==> Stop in steps
  {
    if steps != [] {
      var before, last := steps[..|steps| - 1], steps[|steps| - 1];
      LeavesOnlyAfterStop(n, p, before, i);
      StopedMeans(n, p, before);
      assert steps == before + [last];
      if Enabled(Run(n, p, before), last) {
        StepLeaves(Run(n, p, before), last, i);
      }
      hide Enabled, Apply;
    }
  }

  /** Everybody starts at the top of the loop, with nothing to do. */
  lemma StartsIdle(n: nat, p: nat)
    ensures var s := Run(n, p, []);
            && AllEmpty(s) && s.delayed == multiset{} && s.finished == [] && s.main.MainTop? && !s.stoped
            && (forall i :: 0 <= i < n ==> s.workers[i].AtTop?)
            && (forall j :: 0 <= j < p ==> s.completions[j] == [])
  {}

  /** A worker that has finished a task, or has rested, starts another turn; a sleeping main loop likewise. */
  lemma EveryoneGoesOn(n: nat, p: nat, steps: seq<Step>, i: nat)
    requires i < n
    ensures var s := Run(n, p, steps);
            && (s.workers[i].Running? ==>
                  Run(n, p, steps + [FinishTask(i)]) ==
                  s.(finished := s.finished + [s.workers[i].task], workers := s.workers[i := AtTop]))
            && (s.workers[i].Resting? ==> Run(n, p, steps + [WorkerAgain(i)]) == s.(workers := s.workers[i := AtTop]))
            && (s.main.MainSleeping? ==> Run(n, p, steps + [MainAgain]) == s.(main := MainTop))
  {
    hide Run, WellFormed;
    RunSnoc(n, p, steps, FinishTask(i));
    RunSnoc(n, p, steps, WorkerAgain(i));
    RunSnoc(n, p, steps, MainAgain);
  }

  lemma ExitedStay(s: State, step: Step, i: nat)
    requires WellFormed(s) && Enabled(s, step) && i < |s.workers|
    ensures |Apply(s, step).workers| == |s.workers|
    ensures s.workers[i].Exited? ==> Apply(s, step).workers[i].Exited?
    ensures s.main.MainExited? ==> Apply(s, step).main.MainExited?
  {
    hide Released, StealOrder;
  }

  /** Who has left does not come back. */
  lemma {:induction false} ExitedForever(n: nat, p: nat, steps: seq<Step>, more: seq<Step>, i: nat)
    requires i < n
    ensures Run(n, p, steps).workers[i].Exited? ==> Run(n, p, steps + more).workers[i].Exited?
    ensures Run(n, p, steps).main.MainExited? ==> Run(n, p, steps + more).main.MainExited?
  {
    hide Run, Enabled, Apply, WellFormed;
    if more == [] {
      assert steps + more == steps;
    } else {
      var front, last := more[..|more| - 1], more[|more| - 1];
      assert steps + more == steps + front + [last];
      ExitedForever(n, p, steps, front, i);
      RunSnoc(n, p, steps + front, last);
      if Enabled(Run(n, p, steps + front), last) {
        ExitedStay(Run(n, p, steps + front), last, i);
      }
    }
  }
}
