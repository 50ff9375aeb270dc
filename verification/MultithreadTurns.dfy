/**
 The class and the step system agree: whatever a call on the class does when nothing comes between is
 what a list of steps of the system does, from any reachable state that shows the same queues.
 */
module MultithreadTurns {
  import opened Lists
  import opened DelayQueue
  import opened MultithreadExecutor
  import opened MultithreadRuns

  /** The object holds the queues of the state. */
  ghost predicate Shows(ex: MultithreadExecutor, s: State)
    reads ex, ex.workers, ex.delayTasks
  {
    ex.globalTasks == s.global && ex.Queues() == s.queues && ex.delayTasks.tasks == s.delayed
  }

  // ---------- a worker's turn ----------

  function ScanSteps(i: nat, k: nat): seq<Step> {
    seq(k, _ => TakeFrom(i))
  }

  /** Asking one queue of a scan. */
  lemma AskNext(s: State, i: nat, left: seq<nat>)
    requires WellFormed(s) && i < |s.workers| && s.workers[i] == Scanning(left) && left != []
    ensures left[0] < |s.queues| && Enabled(s, TakeFrom(i))
    ensures Apply(s, TakeFrom(i)) ==
            if s.queues[left[0]] == [] then s.(workers := s.workers[i := Scanning(left[1..])])
            else s.(queues := s.queues[left[0] := s.queues[left[0]][1..]],
                   workers := s.workers[i := Running(s.queues[left[0]][0])])
  {
    hide StealOrder;
  }

  lemma UpdateTwice(s: seq<WorkerPc>, i: nat, a: WorkerPc, b: WorkerPc)
    requires i < |s|
    ensures s[i := a][i := b] == s[i := b] && s[i := s[i]] == s
  {}

  /** Asking queues that are empty only shortens the scan. */
  lemma {:induction false} ScanPassesEmpty(n: nat, p: nat, steps: seq<Step>, i: nat, left: seq<nat>, k: nat)
    requires i < n && Run(n, p, steps).workers[i] == Scanning(left) && k <= |left|
    requires forall j :: 0 <= j < k ==> left[j] < |Run(n, p, steps).queues| && Run(n, p, steps).queues[left[j]] == []
    ensures var s := Run(n, p, steps);
            Run(n, p, steps + ScanSteps(i, k)) == s.(workers := s.workers[i := Scanning(left[k..])])
  {
    hide Run, Enabled, Apply, WellFormed;
    var s := Run(n, p, steps);
    if k == 0 {
      assert steps + ScanSteps(i, 0) == steps;
      assert left[0..] == left;
      UpdateTwice(s.workers, i, Scanning(left), Scanning(left));
    } else {
      ScanPassesEmpty(n, p, steps, i, left, k - 1);
      assert steps + ScanSteps(i, k) == steps + ScanSteps(i, k - 1) + [TakeFrom(i)];
      RunSnoc(n, p, steps + ScanSteps(i, k - 1), TakeFrom(i));
      var mid := Run(n, p, steps + ScanSteps(i, k - 1));
      assert left[k - 1..][1..] == left[k..];
      AskNext(mid, i, left[k - 1..]);
      UpdateTwice(s.workers, i, Scanning(left[k - 1..]), Scanning(left[k..]));
    }
  }

  /** How a turn can end: with the own task, a global one, the one of the k-th worker asked, or without. */
  datatype End = Own | Global | Stolen(k: nat) | Nothing

  /** The queues as the turn must find them to end so. */
  ghost predicate Fits(s: State, i: nat, order: seq<nat>, end: End)
    requires i < |s.queues|
  {
    match end
    case Own => s.queues[i] != []
    case Global => s.queues[i] == [] && s.global != []
    case Stolen(k) =>
      && s.queues[i] == [] && s.global == [] && k < |order|
      && (forall j :: 0 <= j < k ==> order[j] < |s.queues| && s.queues[order[j]] == [])
      && order[k] < |s.queues| && s.queues[order[k]] != []
    case Nothing =>
      s.queues[i] == [] && s.global == []
      && forall j :: 0 <= j < |order| ==> order[j] < |s.queues| && s.queues[order[j]] == []
  }

  function TurnSteps(i: nat, start: nat, size: nat, end: End): seq<Step> {
    match end
    case Own => [TakeOwn(i)]
    case Global => [TakeOwn(i)] + [TakeGlobal(i, start)]
    case Stolen(k) => [TakeOwn(i)] + [TakeGlobal(i, start)] + ScanSteps(i, k) + [TakeFrom(i)]
    case Nothing => [TakeOwn(i)] + [TakeGlobal(i, start)] + ScanSteps(i, size) + [WorkerAgain(i)]
  }

  /** The state after the turn. */
  ghost function AfterTurn(s: State, i: nat, order: seq<nat>, end: End): State
    requires i < |s.workers| == |s.queues| && Fits(s, i, order, end)
  {
    match end
    case Own => s.(queues := s.queues[i := s.queues[i][1..]], workers := s.workers[i := Running(s.queues[i][0])])
    case Global => s.(global := s.global[1..], workers := s.workers[i := Running(s.global[0])])
    case Stolen(k) =>
      var j := order[k];
      s.(queues := s.queues[j := s.queues[j][1..]], workers := s.workers[i := Running(s.queues[j][0])])
    case Nothing => s.(workers := s.workers[i := Resting])
  }

  lemma AskOwn(s: State, i: nat)
    requires WellFormed(s) && i < |s.workers| && s.workers[i].AtTop? && !s.stoped
    ensures i < |s.queues| && Enabled(s, TakeOwn(i))
    ensures Apply(s, TakeOwn(i)) ==
            if s.queues[i] == [] then s.(workers := s.workers[i := TryGlobal])
            else s.(queues := s.queues[i := s.queues[i][1..]], workers := s.workers[i := Running(s.queues[i][0])])
  {}

  lemma AskGlobal(s: State, i: nat, start: nat)
    requires WellFormed(s) && i < |s.workers| && s.workers[i].TryGlobal? && start < |s.workers|
    ensures Enabled(s, TakeGlobal(i, start))
    ensures Apply(s, TakeGlobal(i, start)) ==
            if s.global == [] then s.(workers := s.workers[i := Scanning(StealOrder(|s.workers|, start, i))])
            else s.(global := s.global[1..], workers := s.workers[i := Running(s.global[0])])
  {
    hide StealOrder;
  }

  lemma GiveUp(s: State, i: nat)
    requires WellFormed(s) && i < |s.workers| && s.workers[i] == Scanning([])
    ensures Enabled(s, WorkerAgain(i)) && Apply(s, WorkerAgain(i)) == s.(workers := s.workers[i := Resting])
  {}

  /** The turn when its own queue is empty, up to where it has asked the global one. */
  lemma TurnAsksGlobal(n: nat, p: nat, steps: seq<Step>, i: nat, start: nat)
    requires i < n && start < n && Run(n, p, steps).workers[i].AtTop? && !Run(n, p, steps).stoped
             && i < |Run(n, p, steps).queues|
    requires Run(n, p, steps).queues[i] == []
    ensures var s := Run(n, p, steps);
            Run(n, p, steps + [TakeOwn(i)] + [TakeGlobal(i, start)])
            == if s.global == [] then s.(workers := s.workers[i := Scanning(StealOrder(n, start, i))])
               else s.(global := s.global[1..], workers := s.workers[i := Running(s.global[0])])
  {
    hide Run, StealOrder, Apply, Enabled, WellFormed;
    var s := Run(n, p, steps);
    AskOwn(s, i);
    RunSnoc(n, p, steps, TakeOwn(i));
    AskGlobal(Run(n, p, steps + [TakeOwn(i)]), i, start);
    RunSnoc(n, p, steps + [TakeOwn(i)], TakeGlobal(i, start));
    UpdateTwice(s.workers, i, TryGlobal, Scanning(StealOrder(n, start, i)));
    if s.global != [] {
      UpdateTwice(s.workers, i, TryGlobal, Running(s.global[0]));
    }
  }

  lemma ScanEnds(n: nat, p: nat, steps: seq<Step>, i: nat, start: nat, end: End)
    requires i < n && start < n && Run(n, p, steps).workers[i].AtTop? && !Run(n, p, steps).stoped
             && |Run(n, p, steps).queues| == n
    requires Fits(Run(n, p, steps), i, StealOrder(n, start, i), end) && (end.Stolen? || end.Nothing?)
    ensures Run(n, p, steps + TurnSteps(i, start, |StealOrder(n, start, i)|, end))
            == AfterTurn(Run(n, p, steps), i, StealOrder(n, start, i), end)
  {
    hide Run, StealOrder, Apply, Enabled, WellFormed;
    var s, order := Run(n, p, steps), StealOrder(n, start, i);
    var k := if end.Stolen? then end.k else |order|;
    var scan := steps + [TakeOwn(i)] + [TakeGlobal(i, start)];
    TurnAsksGlobal(n, p, steps, i, start);
    ScanPassesEmpty(n, p, scan, i, order, k);
    UpdateTwice(s.workers, i, Scanning(order), Scanning(order[k..]));
    var mid := Run(n, p, scan + ScanSteps(i, k));
    if end.Stolen? {
      AskNext(mid, i, order[k..]);
      RunSnoc(n, p, scan + ScanSteps(i, k), TakeFrom(i));
      UpdateTwice(s.workers, i, Scanning(order[k..]), Running(s.queues[order[k]][0]));
      assert steps + TurnSteps(i, start, |order|, end) == scan + ScanSteps(i, k) + [TakeFrom(i)];
    } else {
      assert order[k..] == [];
      GiveUp(mid, i);
      RunSnoc(n, p, scan + ScanSteps(i, k), WorkerAgain(i));
      UpdateTwice(s.workers, i, Scanning(order[k..]), Resting);
      assert steps + TurnSteps(i, start, |order|, end) == scan + ScanSteps(i, k) + [WorkerAgain(i)];
    }
  }

  /** The steps of a turn that nobody interrupts. */
  lemma TurnAsSteps(n: nat, p: nat, steps: seq<Step>, i: nat, start: nat, end: End)
    requires i < n && start < n && Run(n, p, steps).workers[i].AtTop? && !Run(n, p, steps).stoped
             && |Run(n, p, steps).queues| == n
    requires Fits(Run(n, p, steps), i, StealOrder(n, start, i), end)
    ensures Run(n, p, steps + TurnSteps(i, start, |StealOrder(n, start, i)|, end))
            == AfterTurn(Run(n, p, steps), i, StealOrder(n, start, i), end)
  {
    hide Run, StealOrder, Apply, Enabled, WellFormed;
    if end.Own? {
      AskOwn(Run(n, p, steps), i);
      RunSnoc(n, p, steps, TakeOwn(i));
    } else if end.Global? {
      TurnAsksGlobal(n, p, steps, i, start);
      assert steps + ([TakeOwn(i)] + [TakeGlobal(i, start)]) == steps + [TakeOwn(i)] + [TakeGlobal(i, start)];
    } else {
      ScanEnds(n, p, steps, i, start, end);
    }
  }

  /** The end of a turn that found a job where `Took` says. */
  lemma EndOf(s: State, i: nat, order: seq<nat>, source: Source, task: Task,
              global': seq<Task>, queues': seq<seq<Task>>)
    returns (end: End)
    requires i < |s.workers| == |s.queues| && Took(s.global, s.queues, source, task, global', queues')
    requires source != FromWorker(i) ==> s.queues[i] == []
    requires source.FromWorker? && source.i != i ==>
               s.global == [] && exists k :: 0 <= k < |order| && order[k] == source.i &&
                                    forall j :: 0 <= j < k ==> order[j] < |s.queues| && s.queues[order[j]] == []
    ensures Fits(s, i, order, end)
    ensures AfterTurn(s, i, order, end) ==
            s.(global := global', queues := queues', workers := s.workers[i := Running(task)])
  {
    if source == FromWorker(i) {
      end := Own;
    } else if source.FromGlobal? {
      end := Global;
    } else {
      var k :| 0 <= k < |order| && order[k] == source.i &&
               forall j :: 0 <= j < k ==> order[j] < |s.queues| && s.queues[order[j]] == [];
      end := Stolen(k);
    }
  }

  /** A call of the class is such a turn. */
  method WorkerTurn(ex: MultithreadExecutor, ghost n: nat, ghost p: nat, ghost steps: seq<Step>, i: nat, start: nat)
    returns (found: bool, task: Task, ghost end: End)
    requires ex.Valid() && |ex.workers| == n && i < n && start < n
    requires Shows(ex, Run(n, p, steps)) && Run(n, p, steps).workers[i].AtTop? && !Run(n, p, steps).stoped
    modifies ex, ex.workers
    ensures Fits(Run(n, p, steps), i, StealOrder(n, start, i), end)
    ensures var s := Run(n, p, steps + TurnSteps(i, start, |StealOrder(n, start, i)|, end));
            && s == AfterTurn(Run(n, p, steps), i, StealOrder(n, start, i), end)
            && Shows(ex, s)
            && s.workers[i] == if found then Running(task) else Resting
  {
    hide Run, StealOrder, Apply, Enabled, WellFormed, TurnSteps, Took;
    ghost var s, order := Run(n, p, steps), StealOrder(n, start, i);
    StealOrderVisitsEachOtherOnce(n, start, i);
    assert forall j :: 0 <= j < n ==> ex.workers[j].tasks == s.queues[j];
    ghost var source;
    found, task, source := ex.DoJob(i, start);
    if found {
      end := EndOf(s, i, order, source, task, ex.globalTasks, ex.Queues());
    } else {
      end := Nothing;
    }
    TurnAsSteps(n, p, steps, i, start, end);
  }

  // ---------- posting, and the main loop ----------

  method Post(ex: MultithreadExecutor, ghost n: nat, ghost p: nat, ghost steps: seq<Step>, from: int, task: Task)
    requires ex.Valid() && |ex.workers| == n && Shows(ex, Run(n, p, steps))
    requires 0 <= from < n ==> Run(n, p, steps).workers[from].Running?
    modifies ex, ex.workers
    ensures Shows(ex, Run(n, p, steps + [if 0 <= from < n then WorkerPost(from, task) else OutsidePost(task)]))
  {
    hide Run;
    ex.Post(from, task);
    RunSnoc(n, p, steps, if 0 <= from < n then WorkerPost(from, task) else OutsidePost(task));
  }

  method PostDelay(ex: MultithreadExecutor, ghost n: nat, ghost p: nat, ghost steps: seq<Step>,
                   id: int, delay: int, now: int)
    requires ex.Valid() && |ex.workers| == n && Shows(ex, Run(n, p, steps))
    modifies ex.delayTasks
    ensures Shows(ex, Run(n, p, steps + [MultithreadRuns.PostDelay(DelayTask(id, delay, now + delay * NS_PER_MS))]))
  {
    hide Run;
    ghost var queues := ex.Queues();
    ex.PostDelay(id, delay, now);
    assert ex.Queues() == queues;
    RunSnoc(n, p, steps, MultithreadRuns.PostDelay(DelayTask(id, delay, now + delay * NS_PER_MS)));
  }

  function DealSteps(next: nat -> nat, n: nat, m: nat): seq<Step>
    requires n > 0
  {
    seq(m, j requires 0 <= j < m => MainDeal(next(j) % n))
  }

  lemma DealNext(s: State, k: nat, hand: seq<Task>)
    requires WellFormed(s) && s.main.Dealing? && k < |s.queues| && MainHand(s.main) == hand && hand != []
    ensures Enabled(s, MainDeal(k))
    ensures var s' := Apply(s, MainDeal(k));
            && s'.main.Dealing? && MainHand(s'.main) == hand[1..]
            && s' == s.(main := s'.main, queues := s.queues[k := s.queues[k] + [hand[0]]])
  {
    HandNonEmpty(s.main);
    DealMoves(s, k);
    hide WellFormed, MainHand;
  }

  /** Dealing m tasks of the hand. */
  lemma {:induction false} DealAsSteps(n: nat, p: nat, steps: seq<Step>, next: nat -> nat, m: nat)
    requires n > 0 && Run(n, p, steps).main.Dealing? && m <= |MainHand(Run(n, p, steps).main)|
             && |Run(n, p, steps).queues| == n
    ensures var s := Run(n, p, steps);
            var s', hand := Run(n, p, steps + DealSteps(next, n, m)), MainHand(s.main);
            && s'.main.Dealing? && MainHand(s'.main) == hand[m..]
            && s' == s.(main := s'.main, queues := Dealt(s.queues, hand[..m], next))
  {
    hide Run, Dealt, MainHand, WellFormed, Apply, Enabled;
    var s, hand := Run(n, p, steps), MainHand(Run(n, p, steps).main);
    if m == 0 {
      assert steps + DealSteps(next, n, 0) == steps;
      assert hand[..0] == [] && hand[0..] == hand;
      DealtNothing(s.queues, next);
    } else {
      DealAsSteps(n, p, steps, next, m - 1);
      var before := steps + DealSteps(next, n, m - 1);
      var mid, k := Run(n, p, before), next(m - 1) % n;
      assert steps + DealSteps(next, n, m) == before + [MainDeal(k)];
      DealNext(mid, k, hand[m - 1..]);
      RunSnoc(n, p, before, MainDeal(k));
      DealtSnoc(s.queues, hand[..m - 1], hand[m - 1], next);
      assert hand[..m] == hand[..m - 1] + [hand[m - 1]] && hand[m - 1..][1..] == hand[m..];
    }
  }

  lemma HandNonEmpty(pc: MainPc)
    requires pc.Dealing?
    ensures MainHand(pc) != [] <==> pc.due != [] || pc.harvested != []
  {}

  // ---------- the harvest ----------

  function HarvestSteps(k: nat): seq<Step> {
    seq(k, _ => MainHarvestOne)
  }

  /** The first k lists emptied. */
  function Cleared(lists: seq<seq<Task>>, k: nat): (r: seq<seq<Task>>)
    requires k <= |lists|
    ensures |r| == |lists|
  {
    seq(k, _ => []) + lists[k..]
  }

  lemma ClearedStep(lists: seq<seq<Task>>, k: nat)
    requires k < |lists|
    ensures Cleared(lists, k)[k := []] == Cleared(lists, k + 1) && Cleared(lists, k)[k] == lists[k]
  {}

  /** The state after harvesting the first k proactors. */
  function AfterHarvest(s: State, k: nat): State
    requires s.main.Harvesting? && k <= |s.completions|
  {
    s.(completions := Cleared(s.completions, k),
       main := s.main.(harvested := s.main.harvested + Concat(s.completions[..k]), next := k))
  }

  lemma HarvestingStep(s: State, k: nat)
    requires s.main.Harvesting? && k < |s.completions|
    ensures var before := AfterHarvest(s, k);
            before.main.Harvesting? && before.main.next < |before.completions|
            && HarvestNext(before) == AfterHarvest(s, k + 1)
  {
    hide Concat, Cleared;
    ConcatSnoc(s.completions, k);
    ClearedStep(s.completions, k);
    Join(s.main.harvested, Concat(s.completions[..k]), s.completions[k]);
  }

  lemma Join(a: seq<Task>, b: seq<Task>, c: seq<Task>)
    ensures a + b + c == a + (b + c)
  {}

  lemma HarvestStart(s: State)
    requires s.main.Harvesting? && s.main.next == 0
    ensures AfterHarvest(s, 0) == s
  {
    assert Cleared(s.completions, 0) == s.completions;
  }

  lemma HarvestRuns(n: nat, p: nat, steps: seq<Step>)
    requires Run(n, p, steps).main.Harvesting? && Run(n, p, steps).main.next < p
    ensures Run(n, p, steps + [MainHarvestOne]) == HarvestNext(Run(n, p, steps))
  {
    hide Run, WellFormed;
    RunSnoc(n, p, steps, MainHarvestOne);
  }

  lemma {:induction false} HarvestAsSteps(n: nat, p: nat, steps: seq<Step>, k: nat)
    requires Run(n, p, steps).main.Harvesting? && Run(n, p, steps).main.next == 0 && k <= p
    ensures Run(n, p, steps + HarvestSteps(k)) == AfterHarvest(Run(n, p, steps), k)
  {
    hide Run, AfterHarvest, WellFormed;
    if k == 0 {
      HarvestStart(Run(n, p, steps));
      assert steps + HarvestSteps(0) == steps;
    } else {
      HarvestAsSteps(n, p, steps, k - 1);
      HarvestingStep(Run(n, p, steps), k - 1);
      HarvestRuns(n, p, steps + HarvestSteps(k - 1));
      assert steps + HarvestSteps(k) == steps + HarvestSteps(k - 1) + [MainHarvestOne];
    }
  }

  // ---------- a round of the main loop ----------

  function TakingSteps(p: nat, now: int, due: seq<Task>, kept: multiset<Task>): seq<Step> {
    [MainTakeDue(now, due, kept)] + HarvestSteps(p) + [MainStartDealing]
  }

  function RoundSteps(n: nat, p: nat, now: int, due: seq<Task>, kept: multiset<Task>,
                      harvested: seq<Task>, next: nat -> nat)
    : seq<Step>
    requires n > 0
  {
    TakingSteps(p, now, due, kept)
    + (if due == [] && harvested == [] then [] else DealSteps(next, n, |due + harvested|)) + [MainAgain]
  }

  function NoTasks(p: nat): seq<seq<Task>> {
    seq(p, _ => [])
  }

  lemma StartsDealing(s: State)
    requires WellFormed(s) && s.main.Harvesting? && s.main.next == |s.completions|
    ensures Enabled(s, MainStartDealing)
    ensures Apply(s, MainStartDealing) ==
            s.(main := if s.main.due == [] && s.main.harvested == [] then MainSleeping
                       else Dealing(s.main.due, s.main.harvested))
  {
    hide WellFormed;
  }

  lemma TakesDue(s: State, now: int, due: seq<Task>, kept: multiset<Task>)
    requires WellFormed(s) && s.main.MainTop? && !s.stoped && Released(s.delayed, now, due, kept)
    ensures Enabled(s, MainTakeDue(now, due, kept))
    ensures Apply(s, MainTakeDue(now, due, kept)) == s.(main := Harvesting(due, [], 0), delayed := kept)
  {
    hide WellFormed, Released;
  }

  lemma RoundEnds(s: State)
    requires WellFormed(s) && (s.main.MainSleeping? || (s.main.Dealing? && MainHand(s.main) == []))
    ensures Enabled(s, MainAgain) && Apply(s, MainAgain) == s.(main := MainTop)
  {
    hide WellFormed;
  }

  lemma HarvestedAll(s: State)
    requires s.main.Harvesting? && s.main.next == 0 && s.main.harvested == []
    ensures AfterHarvest(s, |s.completions|) ==
            s.(completions := NoTasks(|s.completions|),
               main := Harvesting(s.main.due, Concat(s.completions), |s.completions|))
  {
    hide Concat;
    var p := |s.completions|;
    assert Cleared(s.completions, p) == NoTasks(p) && s.completions[..p] == s.completions;
    assert [] + Concat(s.completions) == Concat(s.completions);
  }

  lemma RoundTakes(n: nat, p: nat, steps: seq<Step>, now: int, due: seq<Task>, kept: multiset<Task>)
    requires Run(n, p, steps).main.MainTop? && !Run(n, p, steps).stoped
    requires Released(Run(n, p, steps).delayed, now, due, kept)
    ensures var s := Run(n, p, steps);
            var harvested := Concat(s.completions);
            Run(n, p, steps + TakingSteps(p, now, due, kept)) == s.(delayed := kept, completions := NoTasks(p),
              main := if due == [] && harvested == [] then MainSleeping else Dealing(due, harvested))
  {
    hide Run, Released, WellFormed, Apply, Enabled, AfterHarvest, Concat;
    var took := steps + [MainTakeDue(now, due, kept)];
    TakesDue(Run(n, p, steps), now, due, kept);
    RunSnoc(n, p, steps, MainTakeDue(now, due, kept));
    HarvestAsSteps(n, p, took, p);
    HarvestedAll(Run(n, p, took));
    StartsDealing(Run(n, p, took + HarvestSteps(p)));
    RunSnoc(n, p, took + HarvestSteps(p), MainStartDealing);
    assert steps + TakingSteps(p, now, due, kept) == took + HarvestSteps(p) + [MainStartDealing];
  }

  lemma RoundDeals(n: nat, p: nat, took: seq<Step>, next: nat -> nat)
    requires n > 0 && Run(n, p, took).main.Dealing? && |Run(n, p, took).queues| == n
    ensures var s, hand := Run(n, p, took), MainHand(Run(n, p, took).main);
            Run(n, p, took + DealSteps(next, n, |hand|) + [MainAgain]) ==
            s.(main := MainTop, queues := Dealt(s.queues, hand, next))
  {
    hide Run, WellFormed, Apply, Enabled, Dealt, MainHand;
    var hand := MainHand(Run(n, p, took).main);
    DealAsSteps(n, p, took, next, |hand|);
    assert hand[..|hand|] == hand && hand[|hand|..] == [];
    RoundEnds(Run(n, p, took + DealSteps(next, n, |hand|)));
    RunSnoc(n, p, took + DealSteps(next, n, |hand|), MainAgain);
  }

  lemma RoundAsSteps(n: nat, p: nat, steps: seq<Step>, now: int, due: seq<Task>, kept: multiset<Task>, next: nat -> nat)
    requires n > 0 && Run(n, p, steps).main.MainTop? && !Run(n, p, steps).stoped
    requires Released(Run(n, p, steps).delayed, now, due, kept) && |Run(n, p, steps).queues| == n
    ensures var s := Run(n, p, steps);
            var harvested := Concat(s.completions);
            Run(n, p, steps + RoundSteps(n, p, now, due, kept, harvested, next))
            == s.(delayed := kept, completions := NoTasks(p), queues := Dealt(s.queues, due + harvested, next))
  {
    hide Run, Released, WellFormed, Apply, Enabled, Dealt, DealSteps, Concat, TakingSteps;
    var s := Run(n, p, steps);
    var harvested := Concat(s.completions);
    var took := steps + TakingSteps(p, now, due, kept);
    var all := steps + RoundSteps(n, p, now, due, kept, harvested, next);
    RoundTakes(n, p, steps, now, due, kept);
    if due == [] && harvested == [] {
      RoundEnds(Run(n, p, took));
      RunSnoc(n, p, took, MainAgain);
      assert due + harvested == [];
      DealtNothing(s.queues, next);
      assert all == took + [MainAgain];
    } else {
      RoundDeals(n, p, took, next);
      assert all == took + DealSteps(next, n, |due + harvested|) + [MainAgain];
    }
  }

  /** A round of the class, with what the proactors hold, is a round of the system. */
  method MainRound(ex: MultithreadExecutor, ghost n: nat, ghost p: nat, ghost steps: seq<Step>, now: int,
                   harvested: seq<Task>, next: nat -> nat)
    returns (sleep: int, ghost due: seq<Task>)
    requires ex.Valid() && |ex.workers| == n && Shows(ex, Run(n, p, steps))
    requires harvested == Concat(Run(n, p, steps).completions)
    requires Run(n, p, steps).main.MainTop? && !Run(n, p, steps).stoped
    modifies ex.workers, ex.delayTasks
    ensures Released(old(ex.delayTasks.tasks), now, due, ex.delayTasks.tasks)
            && SleepFor(ex.delayTasks.tasks, now, sleep)
    ensures var s := Run(n, p, steps + RoundSteps(n, p, now, due, ex.delayTasks.tasks, harvested, next));
            Shows(ex, s) && s.main.MainTop? && s.completions == NoTasks(p)
  {
    hide Run, Released, SleepFor, Dealt, Concat;
    sleep, due := ex.MainRound(now, harvested, next);
    RoundAsSteps(n, p, steps, now, due, ex.delayTasks.tasks, next);
  }
}
