/**
 The single-threaded executor. Its loop works in rounds: it takes the posted tasks, the due delayed
 tasks and the completions of its context's proactors, one lock block for each queue, and then runs what
 it took: first the delayed tasks, then the posted ones, then the completions.
 */
module SimpleExecutor {
  import opened DelayQueue

  /** A delayed task is a task with a deadline; for other tasks the deadline is not used. */
  type Task = DelayTask

  /** Where a task that the loop runs comes from; proactors are numbered in the order of the context's map. */
  datatype Kind = Delayed | Posted | Harvested(from: nat)

  datatype Job = Job(kind: Kind, task: Task)

  function Tag(kind: Kind, tasks: seq<Task>): (r: seq<Job>)
    ensures |r| == |tasks| && forall i :: 0 <= i < |r| ==> r[i] == Job(kind, tasks[i])
  {
    seq(|tasks|, i requires 0 <= i < |tasks| => Job(kind, tasks[i]))
  }

  /** A round runs its delayed tasks, then its posted ones, then what it harvested. */
  function RoundOrder(due: seq<Task>, posted: seq<Task>, harvested: seq<Job>): seq<Job> {
    Tag(Delayed, due) + Tag(Posted, posted) + harvested
  }

  lemma EmptyOrder(due: seq<Task>, posted: seq<Task>, harvested: seq<Job>)
    ensures RoundOrder(due, posted, harvested) == [] <==> due == [] && posted == [] && harvested == []
  {}

  /** What the jobs that ran have posted, in order. */
  function PostsOf(ran: seq<Job>, script: Task -> seq<Task>): seq<Task> {
    if ran == [] then [] else PostsOf(ran[..|ran| - 1], script) + script(ran[|ran| - 1].task)
  }

  lemma PostsNone(script: Task -> seq<Task>)
    ensures PostsOf([], script) == []
  {}

  lemma PostsSnoc(ran: seq<Job>, job: Job, script: Task -> seq<Task>)
    ensures PostsOf(ran + [job], script) == PostsOf(ran, script) + script(job.task)
  {
    assert (ran + [job])[..|ran|] == ran;
  }

  class SimpleExecutor {
    var tasks: seq<Task>
    const delayTasks: Queue
    var wakeup: bool

    constructor ()
      ensures tasks == [] && wakeup && fresh(delayTasks) && delayTasks.tasks == multiset{}
    {
      tasks, wakeup := [], true;
      delayTasks := new Queue();
    }

    method Post(task: Task)
      modifies this
      ensures tasks == old(tasks) + [task] && wakeup
    {
      tasks := tasks + [task];
      wakeup := true;
    }

    method PostDelay(id: int, delay: int, now: int)
      modifies delayTasks
      ensures delayTasks.tasks == old(delayTasks.tasks) + multiset{DelayTask(id, delay, now + delay * NS_PER_MS)}
    {
      delayTasks.PostDelay(id, delay, now);
    }

    method GetPendingTasks() returns (taken: seq<Task>)
      modifies this
      ensures taken == old(tasks) && tasks == [] && wakeup == old(wakeup)
    {
      taken := tasks;
      tasks := [];
    }

    method GetTimeupDelayTasks(now: int) returns (out: seq<Task>, sleep: int)
      modifies delayTasks
      ensures Released(old(delayTasks.tasks), now, out, delayTasks.tasks) && SleepFor(delayTasks.tasks, now, sleep)
    {
      out, sleep := delayTasks.GetTimeupDelayTasks(now);
    }

    /** Running a task, which may post others. */
    method RunTask(task: Task, script: Task -> seq<Task>)
      modifies this
      ensures tasks == old(tasks) + script(task)
    {
      var posts := script(task);
      for i := 0 to |posts|
        invariant tasks == old(tasks) + posts[..i]
      {
        Post(posts[i]);
      }
    }

    /** One of the loops over what a round took. */
    method RunAll(batch: seq<Job>, script: Task -> seq<Task>, ran: seq<Job>) returns (ran': seq<Job>)
      requires tasks == PostsOf(ran, script)
      modifies this
      ensures ran' == ran + batch && tasks == PostsOf(ran', script)
    {
      hide PostsOf;
      ran' := ran;
      for i := 0 to |batch|
        invariant ran' == ran + batch[..i] && tasks == PostsOf(ran', script)
      {
        RunTask(batch[i].task, script);
        PostsSnoc(ran', batch[i], script);
        ran' := ran' + [batch[i]];
      }
      assert batch[..|batch|] == batch;
    }

    method RunTaken(due: seq<Task>, posted: seq<Task>, harvested: seq<Job>, script: Task -> seq<Task>)
      returns (ran: seq<Job>)
      requires tasks == []
      modifies this
      ensures ran == RoundOrder(due, posted, harvested) && tasks == PostsOf(ran, script)
    {
      hide PostsOf, Tag;
      PostsNone(script);
      ran := RunAll(Tag(Delayed, due), script, []);
      assert ran == Tag(Delayed, due);
      ran := RunAll(Tag(Posted, posted), script, ran);
      ran := RunAll(harvested, script, ran);
    }

    /**
     One turn of the loop that nobody interrupts: what each task posts waits for the next round.
     `harvested` is what the context collects from its proactors.
     */
    method DoRound(now: int, harvested: seq<Job>, script: Task -> seq<Task>)
      returns (idle: bool, sleep: int, ran: seq<Job>, ghost due: seq<Task>)
      modifies this, delayTasks
      ensures Released(old(delayTasks.tasks), now, due, delayTasks.tasks) && SleepFor(delayTasks.tasks, now, sleep)
      ensures ran == RoundOrder(due, old(tasks), harvested) && (idle <==> ran == [])
      ensures tasks == PostsOf(ran, script) && (idle ==> !wakeup)
    {
      hide Released, SleepFor, PostsOf, RoundOrder;
      var oldTasks := GetPendingTasks();
      var out;
      out, sleep := GetTimeupDelayTasks(now);
      due := out;
      EmptyOrder(out, oldTasks, harvested);
      if oldTasks == [] && out == [] && harvested == [] {
        PostsNone(script);
        wakeup := false;
        idle, ran := true, [];
        return;
      }
      idle := false;
      ran := RunTaken(out, oldTasks, harvested, script);
    }
  }
}
