/**
 The class `SimpleExecutor` and its step system agree: a round of the class is the list of steps of a
 round, from any reachable state that shows the same queues.
 */
module SimpleRounds {
  import opened Lists
  import opened DelayQueue
  import opened SimpleExecutor
  import opened SimpleRuns

  /** The object holds the queues of the state. */
  ghost predicate Shows(ex: SimpleExecutor, s: State)
    reads ex, ex.delayTasks
  {
    ex.tasks == s.tasks && ex.delayTasks.tasks == s.delayTasks
  }

  method Post(ex: SimpleExecutor, ghost n: nat, ghost steps: seq<Step>, task: Task)
    requires Shows(ex, Run(n, steps))
    modifies ex
    ensures Shows(ex, Run(n, steps + [Step.Post(task)]))
  {
    hide Run;
    ex.Post(task);
    RunSnoc(n, steps, Step.Post(task));
  }

  method PostDelay(ex: SimpleExecutor, ghost n: nat, ghost steps: seq<Step>, id: int, delay: int, now: int)
    requires Shows(ex, Run(n, steps))
    modifies ex.delayTasks
    ensures Shows(ex, Run(n, steps + [Step.PostDelay(DelayTask(id, delay, now + delay * NS_PER_MS))]))
  {
    hide Run;
    ex.PostDelay(id, delay, now);
    RunSnoc(n, steps, Step.PostDelay(DelayTask(id, delay, now + delay * NS_PER_MS)));
  }

  // ---------- a round ----------

  function PostSteps(posts: seq<Task>): seq<Step> {
    seq(|posts|, i requires 0 <= i < |posts| => Step.Post(posts[i]))
  }

  lemma {:induction false} PostsAsSteps(n: nat, steps: seq<Step>, posts: seq<Task>)
    ensures var s := Run(n, steps);
            Run(n, steps + PostSteps(posts)) == s.(tasks := s.tasks + posts, everPosted := s.everPosted + posts)
  {
    hide Run;
    var s := Run(n, steps);
    if posts == [] {
      assert steps + PostSteps(posts) == steps && s.tasks + [] == s.tasks && s.everPosted + [] == s.everPosted;
    } else {
      var front, last := posts[..|posts| - 1], posts[|posts| - 1];
      PostsAsSteps(n, steps, front);
      RunSnoc(n, steps + PostSteps(front), Step.Post(last));
      assert steps + PostSteps(posts) == steps + PostSteps(front) + [Step.Post(last)];
      assert posts == front + [last];
      Append(s.tasks, front, last);
      Append(s.everPosted, front, last);
    }
  }

  lemma Append(a: seq<Task>, b: seq<Task>, x: Task)
    ensures a + b + [x] == a + (b + [x])
  {}

  lemma Join(a: seq<Task>, b: seq<Task>, c: seq<Task>)
    ensures a + b + c == a + (b + c)
  {}

  /** Running tasks, each followed by what it posts. */
  function RanSteps(ran: seq<Job>, script: Task -> seq<Task>): seq<Step> {
    if ran == [] then []
    else RanSteps(ran[..|ran| - 1], script) + [RunOne] + PostSteps(script(ran[|ran| - 1].task))
  }

  lemma RanStepsSnoc(ran: seq<Job>, job: Job, script: Task -> seq<Task>)
    ensures RanSteps(ran + [job], script) == RanSteps(ran, script) + [RunOne] + PostSteps(script(job.task))
  {
    assert (ran + [job])[..|ran|] == ran;
  }

  lemma RestNonEmpty(pc: Pc)
    requires pc.Running?
    ensures Rest(pc) != [] <==> HasNext(pc)
  {}

  lemma RunNextMeans(s: State, rest: seq<Job>)
    requires s.pc.Running? && Rest(s.pc) == rest != []
    ensures Enabled(s, RunOne)
    ensures var s' := Apply(s, RunOne);
            s'.pc.Running? && Rest(s'.pc) == rest[1..] && s' == s.(pc := s'.pc, ran := s.ran + [rest[0]])
  {
    RestNonEmpty(s.pc);
    NextIsFirstOfRest(s.pc);
    hide Rest;
  }

  ghost predicate RanFirst(s: State, s': State, m: nat, script: Task -> seq<Task>)
    requires m <= |Rest(s.pc)|
  {
    var ran := Rest(s.pc)[..m];
    var posts := PostsOf(ran, script);
    && s'.pc.Running? && Rest(s'.pc) == Rest(s.pc)[m..]
    && s' == s.(pc := s'.pc, ran := s.ran + ran, tasks := s.tasks + posts, everPosted := s.everPosted + posts)
  }

  /** The first m tasks of what is in hand. */
  lemma {:induction false} BatchAsSteps(n: nat, steps: seq<Step>, script: Task -> seq<Task>, m: nat)
    requires Run(n, steps).pc.Running? && m <= |Rest(Run(n, steps).pc)|
    ensures RanFirst(Run(n, steps), Run(n, steps + RanSteps(Rest(Run(n, steps).pc)[..m], script)), m, script)
  {
    hide Run, Rest, RanSteps, PostsOf, Apply, Enabled;
    var s := Run(n, steps);
    var rest := Rest(s.pc);
    if m == 0 {
      assert rest[..0] == [] && rest[0..] == rest
             && RanSteps([], script) == [] && PostsOf([], script) == []
             by { Nothing(script); }
      assert steps + [] == steps && s.ran + [] == s.ran && s.tasks + [] == s.tasks && s.everPosted + [] == s.everPosted;
    } else {
      var ran, job := rest[..m - 1], rest[m - 1];
      BatchAsSteps(n, steps, script, m - 1);
      var before := steps + RanSteps(ran, script);
      var mid := Run(n, before);
      assert rest[m - 1..][1..] == rest[m..] && rest[m - 1..][0] == job && rest[..m] == ran + [job];
      RunNextMeans(mid, rest[m - 1..]);
      RunSnoc(n, before, RunOne);
      PostsAsSteps(n, before + [RunOne], script(job.task));
      RanStepsSnoc(ran, job, script);
      PostsSnoc(ran, job, script);
      assert steps + (RanSteps(ran, script) + [RunOne] + PostSteps(script(job.task)))
          == before + [RunOne] + PostSteps(script(job.task));
      Join(s.tasks, PostsOf(ran, script), script(job.task));
      Join(s.everPosted, PostsOf(ran, script), script(job.task));
      assert s.ran + ran + [job] == s.ran + (ran + [job]);
    }
  }

  lemma Nothing(script: Task -> seq<Task>)
    ensures RanSteps([], script) == [] && PostsOf([], script) == []
  {}

  // ---------- the harvest ----------

  /** What a harvest collects: list after list, in the order of the proactors. */
  function Gathered(lists: seq<seq<Task>>): seq<Job> {
    if lists == [] then []
    else Gathered(lists[..|lists| - 1]) + Tag(Harvested(|lists| - 1), lists[|lists| - 1])
  }

  lemma GatheredStep(lists: seq<seq<Task>>, k: nat)
    requires k < |lists|
    ensures Gathered(lists[..k + 1]) == Gathered(lists[..k]) + Tag(Harvested(k), lists[k])
  {
    assert lists[..k + 1][..k] == lists[..k];
  }

  function TasksOf(jobs: seq<Job>): (r: seq<Task>)
    ensures |r| == |jobs| && forall i :: 0 <= i < |r| ==> r[i] == jobs[i].task
  {
    seq(|jobs|, i requires 0 <= i < |jobs| => jobs[i].task)
  }

  /** It is the list the context puts together. */
  lemma {:induction false} GatheredIsConcat(lists: seq<seq<Task>>)
    ensures TasksOf(Gathered(lists)) == Concat(lists)
  {
    if lists != [] {
      var front, last := lists[..|lists| - 1], lists[|lists| - 1];
      GatheredIsConcat(front);
      hide Concat, Gathered;
      GatheredStep(lists, |front|);
      ConcatSnoc(lists, |front|);
      assert lists[..|lists|] == lists;
      assert TasksOf(Gathered(front) + Tag(Harvested(|front|), last)) == TasksOf(Gathered(front)) + last;
    }
  }

  function HarvestSteps(k: nat): seq<Step> {
    seq(k, _ => HarvestOne)
  }

  function Cleared(lists: seq<seq<Task>>, k: nat): seq<seq<Task>>
    requires k <= |lists|
  {
    NoTasks(k) + lists[k..]
  }

  lemma ClearedStep(lists: seq<seq<Task>>, k: nat)
    requires k < |lists|
    ensures Cleared(lists, k)[k := []] == Cleared(lists, k + 1) && Cleared(lists, k)[k] == lists[k]
  {}

  /** The state after harvesting the first k proactors. */
  function AfterHarvest(s: State, k: nat): State
    requires s.pc.Harvesting? && k <= |s.completions|
  {
    var jobs := Gathered(s.completions[..k]);
    s.(completions := Cleared(s.completions, k), everHarvested := s.everHarvested + jobs,
       pc := s.pc.(harvested := s.pc.harvested + jobs, next := k))
  }

  lemma HarvestingStep(s: State, k: nat)
    requires s.pc.Harvesting? && k < |s.completions|
    ensures Enabled(AfterHarvest(s, k), HarvestOne)
    ensures Apply(AfterHarvest(s, k), HarvestOne) == AfterHarvest(s, k + 1)
  {
    hide Gathered, Tag, Cleared;
    ClearedSize(s.completions, k);
    GatheredStep(s.completions, k);
    ClearedStep(s.completions, k);
    var before, jobs := Gathered(s.completions[..k]), Tag(Harvested(k), s.completions[k]);
    JoinJobs(s.everHarvested, before, jobs);
    JoinJobs(s.pc.harvested, before, jobs);
  }

  lemma JoinJobs(a: seq<Job>, b: seq<Job>, c: seq<Job>)
    ensures a + b + c == a + (b + c)
  {}

  lemma ClearedSize(lists: seq<seq<Task>>, k: nat)
    requires k <= |lists|
    ensures |Cleared(lists, k)| == |lists|
  {}

  lemma HarvestStart(s: State)
    requires s.pc.Harvesting? && s.pc.next == 0
    ensures AfterHarvest(s, 0) == s
  {
    assert Cleared(s.completions, 0) == s.completions;
  }

  lemma {:induction false} HarvestAsSteps(n: nat, steps: seq<Step>, k: nat)
    requires Run(n, steps).pc.Harvesting? && Run(n, steps).pc.next == 0 && k <= n
    ensures Run(n, steps + HarvestSteps(k)) == AfterHarvest(Run(n, steps), k)
  {
    hide Run, AfterHarvest, Apply, Enabled;
    if k == 0 {
      HarvestStart(Run(n, steps));
      assert steps + HarvestSteps(0) == steps;
    } else {
      HarvestAsSteps(n, steps, k - 1);
      HarvestingStep(Run(n, steps), k - 1);
      RunSnoc(n, steps + HarvestSteps(k - 1), HarvestOne);
      assert steps + HarvestSteps(k) == steps + HarvestSteps(k - 1) + [HarvestOne];
    }
  }

  // ---------- a whole round ----------

  function RoundSteps(n: nat, now: int, due: seq<Task>, kept: multiset<Task>, ran: seq<Job>, script: Task -> seq<Task>)
    : seq<Step>
  {
    [CheckStop] + [TakeDue(now, due, kept)] + HarvestSteps(n) + [EndHarvest]
    + (if ran == [] then [Wake] else RanSteps(ran, script) + [EndRound])
  }

  lemma TakeBoth(s: State, now: int, due: seq<Task>, kept: multiset<Task>)
    requires s.pc.RoundStart? && !s.stoped && Released(s.delayTasks, now, due, kept)
    ensures Enabled(s, CheckStop)
    ensures var s1 := Apply(s, CheckStop);
            && Enabled(s1, TakeDue(now, due, kept))
            && Apply(s1, TakeDue(now, due, kept)) ==
               s.(tasks := [], delayTasks := kept, pc := Harvesting(s.tasks, due, [], 0))
  {
    hide Released;
  }

  lemma EndOrWake(s: State)
    requires s.pc.Waiting? || (s.pc.Running? && Rest(s.pc) == [])
    ensures var step := if s.pc.Waiting? then Wake else EndRound;
            Enabled(s, step) && Apply(s, step) == s.(pc := RoundStart)
  {
    if s.pc.Running? {
      EmptyOrder(s.pc.due, s.pc.posted, s.pc.harvested);
    }
  }

  /** The state when the round has taken all it takes. */
  ghost function Taken(s: State, due: seq<Task>, kept: multiset<Task>): State {
    var harvested := Gathered(s.completions);
    var pc := Running(s.tasks, due, harvested);
    s.(tasks := [], delayTasks := kept, completions := NoTasks(|s.completions|),
       everHarvested := s.everHarvested + harvested, rounds := s.rounds + [Round(due, s.tasks, harvested)],
       pc := if HasNext(pc) then pc else Waiting)
  }

  lemma HarvestEnds(s: State)
    requires s.pc.Harvesting? && s.pc.next == 0 && s.pc.harvested == []
    ensures var done := AfterHarvest(s, |s.completions|);
            && Enabled(done, EndHarvest)
            && Apply(done, EndHarvest) == Taken(s.(tasks := s.pc.posted), s.pc.due, s.delayTasks).(tasks := s.tasks)
  {
    hide Gathered;
    var n := |s.completions|;
    assert Cleared(s.completions, n) == NoTasks(n) && s.completions[..n] == s.completions;
    assert [] + Gathered(s.completions) == Gathered(s.completions);
  }

  lemma TakingAsSteps(n: nat, steps: seq<Step>, now: int, due: seq<Task>, kept: multiset<Task>)
    requires Run(n, steps).pc.RoundStart? && !Run(n, steps).stoped && Released(Run(n, steps).delayTasks, now, due, kept)
    ensures Run(n, steps + [CheckStop] + [TakeDue(now, due, kept)] + HarvestSteps(n) + [EndHarvest])
            == Taken(Run(n, steps), due, kept)
  {
    hide Run, Released, Apply, Enabled, AfterHarvest;
    var s := Run(n, steps);
    TakeBoth(s, now, due, kept);
    RunSnoc(n, steps, CheckStop);
    RunSnoc(n, steps + [CheckStop], TakeDue(now, due, kept));
    var took := steps + [CheckStop] + [TakeDue(now, due, kept)];
    HarvestAsSteps(n, took, n);
    HarvestEnds(Run(n, took));
    RunSnoc(n, took + HarvestSteps(n), EndHarvest);
  }

  /** The steps of a round that nobody interrupts. */
  lemma RoundAsSteps(n: nat, steps: seq<Step>, now: int, due: seq<Task>, kept: multiset<Task>,
                     script: Task -> seq<Task>)
    requires Run(n, steps).pc.RoundStart? && !Run(n, steps).stoped && Released(Run(n, steps).delayTasks, now, due, kept)
    ensures var s := Run(n, steps);
            var harvested := Gathered(s.completions);
            var ran := RoundOrder(due, s.tasks, harvested);
            var posts := PostsOf(ran, script);
            Run(n, steps + RoundSteps(n, now, due, kept, ran, script))
            == s.(tasks := posts, delayTasks := kept, completions := NoTasks(n), ran := s.ran + ran,
                  rounds := s.rounds + [Round(due, s.tasks, harvested)], everPosted := s.everPosted + posts,
                  everHarvested := s.everHarvested + harvested)
  {
    hide Run, Released, PostsOf, Apply, Enabled, RanSteps, RoundOrder, Gathered;
    var s := Run(n, steps);
    var ran := RoundOrder(due, s.tasks, Gathered(s.completions));
    var took := steps + [CheckStop] + [TakeDue(now, due, kept)] + HarvestSteps(n) + [EndHarvest];
    TakingAsSteps(n, steps, now, due, kept);
    EmptyOrder(due, s.tasks, Gathered(s.completions));
    Nothing(script);
    if ran == [] {
      EndOrWake(Run(n, took));
      RunSnoc(n, took, Wake);
      assert steps + RoundSteps(n, now, due, kept, ran, script) == took + [Wake];
      assert s.ran + [] == s.ran && s.everPosted + [] == s.everPosted;
    } else {
      BatchAsSteps(n, took, script, |ran|);
      assert ran[..|ran|] == ran && ran[|ran|..] == [];
      EndOrWake(Run(n, took + RanSteps(ran, script)));
      RunSnoc(n, took + RanSteps(ran, script), EndRound);
      assert steps + RoundSteps(n, now, due, kept, ran, script) == took + RanSteps(ran, script) + [EndRound];
      assert [] + PostsOf(ran, script) == PostsOf(ran, script);
    }
  }

  /** A round of the class, with what the proactors hold, is a round of the system. */
  method DoRound(ex: SimpleExecutor, ghost n: nat, ghost steps: seq<Step>, now: int, harvested: seq<Job>,
                 script: Task -> seq<Task>)
    returns (idle: bool, sleep: int, ran: seq<Job>, ghost due: seq<Task>)
    requires Shows(ex, Run(n, steps)) && harvested == Gathered(Run(n, steps).completions)
    requires Run(n, steps).pc.RoundStart? && !Run(n, steps).stoped
    modifies ex, ex.delayTasks
    ensures Released(old(ex.delayTasks.tasks), now, due, ex.delayTasks.tasks)
            && SleepFor(ex.delayTasks.tasks, now, sleep)
    ensures var s := Run(n, steps + RoundSteps(n, now, due, ex.delayTasks.tasks, ran, script));
            && Shows(ex, s) && s.pc.RoundStart? && s.completions == NoTasks(n)
            && s.ran == Run(n, steps).ran + ran && s.everHarvested == Run(n, steps).everHarvested + harvested
  {
    hide Run, Released, SleepFor, PostsOf, RoundOrder, RoundSteps, Gathered;
    idle, sleep, ran, due := ex.DoRound(now, harvested, script);
    RoundAsSteps(n, steps, now, due, ex.delayTasks.tasks, script);
  }
}
