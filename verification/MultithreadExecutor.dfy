/**
 The work-stealing executor: the queues, and how one worker looks for a job. A worker takes from its
 own queue, then from the global queue, then from the other workers' queues in an order that starts at
 a random index and wraps around.
 */
module MultithreadExecutor {
  import opened DelayQueue

  type Task = DelayTask

  // ---------- the order of stealing ----------

  function Iota(n: nat): (r: seq<nat>)
    ensures |r| == n && forall k :: 0 <= k < n ==> r[k] == k
  {
    seq(n, i => i)
  }

  function Rotate<T>(s: seq<T>, k: nat): seq<T>
    requires k <= |s|
  {
    s[k..] + s[..k]
  }

  function Without(s: seq<nat>, x: nat): seq<nat> {
    if s == [] then [] else (if s[0] == x then [] else [s[0]]) + Without(s[1..], x)
  }

  function StealOrder(n: nat, start: nat, self: nat): seq<nat>
    requires start <= n
  {
    Without(Rotate(Iota(n), start), self)
  }

  lemma RotationVisits(n: nat, start: nat)
    requires start < n
    ensures var r := Rotate(Iota(n), start);
            |r| == n && forall k :: 0 <= k < n ==>
              r[k] == (start + k) % n == if start + k < n then start + k else start + k - n
  {
    var r := Rotate(Iota(n), start);
    forall k | 0 <= k < n
      ensures r[k] == (start + k) % n == if start + k < n then start + k else start + k - n
    {
      WrapsOnce(n, start + k);
    }
  }

  lemma WrapsOnce(n: nat, x: nat)
    requires 0 < n && x < 2 * n
    ensures x % n == if x < n then x else x - n
  {}

  /** Where a worker's own index stands in the rotation. */
  function PlaceOf(n: nat, start: nat, i: nat): nat
    requires start < n && i < n
  {
    if start <= i then i - start else n + i - start
  }

  /** The steal order is the rotation with the worker's own place cut out. */
  lemma StealOrderCutsSelf(n: nat, start: nat, self: nat)
    requires start < n && self < n
    ensures var r, p := Rotate(Iota(n), start), PlaceOf(n, start, self);
            |r| == n && p < n && StealOrder(n, start, self) == r[..p] + r[p + 1..]
  {
    RotationVisits(n, start);
    WithoutAt(Rotate(Iota(n), start), self, PlaceOf(n, start, self));
  }

  /** Every other worker is visited exactly once. */
  lemma StealOrderVisitsEachOtherOnce(n: nat, start: nat, self: nat)
    requires start < n && self < n
    ensures var order := StealOrder(n, start, self);
            && (forall j :: 0 <= j < n && j != self ==> j in order)
            && (forall a :: 0 <= a < |order| ==> order[a] < n && order[a] != self)
            && (forall a, b :: 0 <= a < b < |order| ==> order[a] != order[b])
  {
    hide StealOrder, Rotate, Iota;
    var r, p, order := Rotate(Iota(n), start), PlaceOf(n, start, self), StealOrder(n, start, self);
    RotationVisits(n, start);
    StealOrderCutsSelf(n, start, self);
    assert forall a :: 0 <= a < |order| ==> order[a] == r[if a < p then a else a + 1];
    forall j | 0 <= j < n && j != self
      ensures j in order
    {
      var k := PlaceOf(n, start, j);
      assert order[if k < p then k else k - 1] == j;
    }
  }

  lemma {:induction false} WithoutAbsent(s: seq<nat>, x: nat)
    requires x !in s
    ensures Without(s, x) == s
  {
    if s != [] {
      WithoutAbsent(s[1..], x);
      assert s == [s[0]] + s[1..];
    }
  }

  lemma {:induction false} WithoutAt(s: seq<nat>, x: nat, i: nat)
    requires i < |s| && s[i] == x
    requires forall a, b :: 0 <= a < b < |s| ==> s[a] != s[b]
    ensures Without(s, x) == s[..i] + s[i + 1..]
    decreases |s|
  {
    if i == 0 {
      WithoutAbsent(s[1..], x);
    } else {
      WithoutAt(s[1..], x, i - 1);
      assert s[..i] == [s[0]] + s[1..][..i - 1];
    }
  }

  // ---------- the queues ----------

  class Worker {
    var tasks: seq<Task>

    constructor ()
      ensures tasks == []
    {
      tasks := [];
    }

    method Post(task: Task)
      modifies this
      ensures tasks == old(tasks) + [task]
    {
      tasks := tasks + [task];
    }

    method TakeOne() returns (found: bool, task: Task)
      modifies this
      ensures found <==> old(tasks) != []
      ensures tasks == if found then old(tasks)[1..] else []
      ensures found ==> task == old(tasks)[0]
    {
      found := tasks != [];
      task := if found then tasks[0] else DelayTask(0, 0, 0);
      tasks := if found then tasks[1..] else tasks;
    }
  }

  /** Which queue a job came from. */
  datatype Source = FromGlobal | FromWorker(i: nat)

  class MultithreadExecutor {
    const workers: seq<Worker>
    const delayTasks: Queue
    var globalTasks: seq<Task>

    constructor (threads: nat)
      ensures Valid() && AllEmpty() && delayTasks.tasks == multiset{}
      ensures |workers| == if threads < 1 then 1 else if threads > 1000 then 1000 else threads
    {
      var size := if threads < 1 then 1 else if threads > 1000 then 1000 else threads;
      var made: seq<Worker> := [];
      while |made| < size
        invariant |made| <= size
        invariant forall i :: 0 <= i < |made| ==> fresh(made[i]) && made[i].tasks == []
        invariant forall i, j :: 0 <= i < j < |made| ==> made[i] != made[j]
      {
        var worker := new Worker();
        made := made + [worker];
      }
      workers := made;
      delayTasks := new Queue();
      globalTasks := [];
    }

    ghost predicate Valid()
    {
      workers != [] && forall i, j :: 0 <= i < j < |workers| ==> workers[i] != workers[j]
    }

    ghost function Queues(): (r: seq<seq<Task>>)
      reads workers
      ensures |r| == |workers| && forall i :: 0 <= i < |r| ==> r[i] == workers[i].tasks
    {
      seq(|workers|, i requires 0 <= i < |workers| reads workers => workers[i].tasks)
    }

    ghost predicate AllEmpty()
      reads this, workers
    {
      globalTasks == [] && forall i :: 0 <= i < |workers| ==> workers[i].tasks == []
    }

    /** A poster on a worker thread posts to that worker, any other to the global queue. */
    method Post(from: int, task: Task)
      requires Valid()
      modifies this, workers
      ensures 0 <= from < |workers| ==>
                globalTasks == old(globalTasks) && Queues() == old(Queues())[from := old(workers[from].tasks) + [task]]
      ensures !(0 <= from < |workers|) ==> globalTasks == old(globalTasks) + [task] && Queues() == old(Queues())
    {
      if 0 <= from < |workers| {
        workers[from].Post(task);
      } else {
        globalTasks := globalTasks + [task];
      }
    }

    method PostDelay(id: int, delay: int, now: int)
      modifies delayTasks
      ensures delayTasks.tasks == old(delayTasks.tasks) + multiset{DelayTask(id, delay, now + delay * NS_PER_MS)}
    {
      delayTasks.PostDelay(id, delay, now);
    }

    method DealTo(pick: nat, task: Task)
      requires Valid()
      modifies workers
      ensures Queues() == DealtOne(old(Queues()), pick, task)
    {
      workers[pick % |workers|].Post(task);
    }

    /** Deals tasks to the workers `next` picks, after `from` others. */
    method DealAll(tasks: seq<Task>, next: nat -> nat, from: nat, ghost before: seq<seq<Task>>, ghost done: seq<Task>)
      requires Valid() && before != [] && from == |done| && Queues() == Dealt(before, done, next)
      modifies workers
      ensures Queues() == Dealt(before, done + tasks, next)
    {
      hide Dealt, DealtOne;
      ghost var sofar := done;
      for m := 0 to |tasks|
        invariant sofar == done + tasks[..m] && |sofar| == from + m
        invariant Queues() == Dealt(before, sofar, next)
      {
        DealtSnoc(before, sofar, tasks[m], next);
        DealTo(next(from + m), tasks[m]);
        PrefixSnoc(done, tasks, m);
        sofar := sofar + [tasks[m]];
      }
      assert tasks[..|tasks|] == tasks;
    }

    /** One turn of the main loop: what is due is dealt, then what is harvested. */
    method MainRound(now: int, harvested: seq<Task>, next: nat -> nat) returns (sleep: int, ghost due: seq<Task>)
      requires Valid()
      modifies workers, delayTasks
      ensures Released(old(delayTasks.tasks), now, due, delayTasks.tasks) && SleepFor(delayTasks.tasks, now, sleep)
      ensures Queues() == Dealt(old(Queues()), due + harvested, next)
    {
      hide Released, SleepFor, Dealt;
      ghost var before := Queues();
      var tasks;
      tasks, sleep := delayTasks.GetTimeupDelayTasks(now);
      due := tasks;
      assert Queues() == before;
      DealtNothing(before, next);
      DealAll(tasks, next, 0, before, []);
      assert [] + tasks == tasks;
      DealAll(harvested, next, |tasks|, before, tasks);
    }

    method TakeOne() returns (found: bool, task: Task)
      modifies this
      ensures found <==> old(globalTasks) != []
      ensures globalTasks == if found then old(globalTasks)[1..] else []
      ensures found ==> task == old(globalTasks)[0]
    {
      found := globalTasks != [];
      task := if found then globalTasks[0] else DelayTask(0, 0, 0);
      globalTasks := if found then globalTasks[1..] else globalTasks;
    }

    /** Asks the workers in order; `asked` is how many had nothing. */
    method StealInOrder(order: seq<nat>) returns (found: bool, task: Task, ghost asked: nat)
      requires Valid() && forall k :: 0 <= k < |order| ==> order[k] < |workers|
      modifies workers
      ensures forall j :: 0 <= j < asked <= |order| ==> old(workers[order[j]].tasks) == []
      ensures if found then asked < |order| && Took([], old(Queues()), FromWorker(order[asked]), task, [], Queues())
              else asked == |order| && Queues() == old(Queues())
    {
      asked := 0;
      for k := 0 to |order|
        invariant asked == k && Queues() == old(Queues())
        invariant forall j :: 0 <= j < k ==> old(workers[order[j]].tasks) == []
      {
        var i := order[k];
        assert workers[i].tasks == Queues()[i] == old(workers[i].tasks);
        found, task := workers[i].TakeOne();
        if found {
          assert Queues() == old(Queues())[i := old(Queues())[i][1..]];
          return;
        }
        assert Queues() == old(Queues());
        asked := k + 1;
      }
      found, task := false, DelayTask(0, 0, 0);
    }

    /** The global queue first, then the first non-empty queue in stealing order. */
    method Steal(self: nat, start: nat) returns (found: bool, task: Task, ghost source: Source)
      requires Valid() && self < |workers| && start < |workers|
      modifies this, workers
      ensures found ==> Took(old(globalTasks), old(Queues()), source, task, globalTasks, Queues())
                        && source != FromWorker(self)
      ensures found && source.FromWorker? ==> old(globalTasks) == []
      ensures found && source.FromWorker? ==>
                var order := StealOrder(|workers|, start, self);
                exists k :: 0 <= k < |order| && order[k] == source.i &&
                            forall j :: 0 <= j < k ==> order[j] < |workers| && old(workers[order[j]].tasks) == []
      ensures !found ==> globalTasks == old(globalTasks) == [] && Queues() == old(Queues())
      ensures !found ==> forall i :: 0 <= i < |workers| && i != self ==> workers[i].tasks == []
    {
      hide StealOrder, Took;
      source := FromGlobal;
      found, task := TakeOne();
      if found {
        TookGlobal(old(globalTasks), old(Queues()));
        return;
      }
      var order := StealOrder(|workers|, start, self);
      StealOrderVisitsEachOtherOnce(|workers|, start, self);
      ghost var asked;
      found, task, asked := StealInOrder(order);
      if found {
        source := FromWorker(order[asked]);
      } else {
        forall i | 0 <= i < |workers| && i != self
          ensures workers[i].tasks == []
        {
          assert i in order;
          assert workers[i].tasks == Queues()[i] == old(Queues())[i];
        }
      }
    }

    /** One turn of a worker that runs nothing but what it finds. */
    method DoJob(self: nat, start: nat) returns (found: bool, task: Task, ghost source: Source)
      requires Valid() && self < |workers| && start < |workers|
      modifies this, workers
      ensures found ==> Took(old(globalTasks), old(Queues()), source, task, globalTasks, Queues())
      ensures found && source != FromWorker(self) ==> old(workers[self].tasks) == []
      ensures found && source.FromWorker? && source.i != self ==>
                && old(globalTasks) == []
                && var order := StealOrder(|workers|, start, self);
                   exists k :: 0 <= k < |order| && order[k] == source.i &&
                               forall j :: 0 <= j < k ==> order[j] < |workers| && old(workers[order[j]].tasks) == []
      ensures found <==> !old(AllEmpty())
      ensures !found ==> AllEmpty() && globalTasks == old(globalTasks) && Queues() == old(Queues())
    {
      source := FromWorker(self);
      found, task := workers[self].TakeOne();
      if !found {
        assert Queues() == old(Queues());
        found, task, source := Steal(self, start);
      }
    }

    /** All queued tasks, wherever they are. */
    ghost function Queued(): multiset<Task>
      reads this, workers
    {
      multiset(globalTasks) + Flat(Queues())
    }

    /** One worker alone, with any start indices, runs every queued task once and then finds nothing. */
    method Drain(self: nat, starts: nat -> nat) returns (ran: seq<Task>)
      requires Valid() && self < |workers|
      modifies this, workers
      ensures multiset(ran) == old(Queued()) && |ran| == |old(Queued())|
      ensures AllEmpty()
    {
      hide Flat, Took;
      ran := [];
      var found := true;
      while found
        invariant old(Queued()) == multiset(ran) + Queued()
        invariant !found ==> AllEmpty()
        decreases if found then 1 + |Queued()| else 0
      {
        var task: Task;
        ghost var source: Source;
        ghost var before, queues, global := Queued(), Queues(), globalTasks;
        found, task, source := DoJob(self, starts(|ran|) % |workers|);
        if found {
          TakingCounts(global, queues, source, task, globalTasks, Queues());
          assert before == multiset{task} + Queued();
          ran := ran + [task];
        }
      }
      FlatOfEmpty(Queues());
    }
  }

  function DealtOne(queues: seq<seq<Task>>, pick: nat, task: Task): (r: seq<seq<Task>>)
    requires queues != []
    ensures |r| == |queues|
  {
    var k := pick % |queues|;
    queues[k := queues[k] + [task]]
  }

  /** The queues after dealing tasks one after the other to the picked workers. */
  function Dealt(queues: seq<seq<Task>>, tasks: seq<Task>, next: nat -> nat): (r: seq<seq<Task>>)
    requires queues != []
    ensures |r| == |queues|
  {
    if tasks == [] then queues
    else
      var m := |tasks| - 1;
      DealtOne(Dealt(queues, tasks[..m], next), next(m), tasks[m])
  }

  lemma PrefixSnoc(done: seq<Task>, tasks: seq<Task>, m: nat)
    requires m < |tasks|
    ensures done + tasks[..m + 1] == done + tasks[..m] + [tasks[m]]
  {}

  lemma DealtNothing(queues: seq<seq<Task>>, next: nat -> nat)
    requires queues != []
    ensures Dealt(queues, [], next) == queues
  {}

  lemma DealtSnoc(queues: seq<seq<Task>>, tasks: seq<Task>, task: Task, next: nat -> nat)
    requires queues != []
    ensures Dealt(queues, tasks + [task], next) == DealtOne(Dealt(queues, tasks, next), next(|tasks|), task)
  {
    assert (tasks + [task])[..|tasks|] == tasks;
  }

  /** A job was taken from the front of one queue; nothing else moved. */
  ghost predicate Took(global: seq<Task>, queues: seq<seq<Task>>, source: Source, task: Task,
                       global': seq<Task>, queues': seq<seq<Task>>) {
    match source
    case FromGlobal => global == [task] + global' && queues' == queues
    case FromWorker(i) =>
      i < |queues| && global' == global && queues[i] != [] && task == queues[i][0]
      && queues' == queues[i := queues[i][1..]]
  }

  lemma TookGlobal(global: seq<Task>, queues: seq<seq<Task>>)
    requires global != []
    ensures Took(global, queues, FromGlobal, global[0], global[1..], queues)
  {}

  /** The contents of a list of queues. */
  ghost function Flat(qs: seq<seq<Task>>): multiset<Task> {
    if qs == [] then multiset{} else multiset(qs[0]) + Flat(qs[1..])
  }

  lemma {:induction false} FlatUpdate(qs: seq<seq<Task>>, i: nat, q: seq<Task>)
    requires i < |qs|
    ensures forall x :: Flat(qs[i := q])[x] + multiset(qs[i])[x] == Flat(qs)[x] + multiset(q)[x]
  {
    var qs' := qs[i := q];
    if i == 0 {
      assert qs'[1..] == qs[1..];
    } else {
      FlatUpdate(qs[1..], i - 1, q);
      assert qs'[1..] == qs[1..][i - 1 := q];
    }
  }

  lemma {:induction false} FlatOfEmpty(qs: seq<seq<Task>>)
    requires forall i :: 0 <= i < |qs| ==> qs[i] == []
    ensures Flat(qs) == multiset{}
  {
    if qs != [] {
      FlatOfEmpty(qs[1..]);
    }
  }

  lemma TakingCounts(global: seq<Task>, queues: seq<seq<Task>>, source: Source, task: Task,
                     global': seq<Task>, queues': seq<seq<Task>>)
    requires Took(global, queues, source, task, global', queues')
    ensures multiset(global) + Flat(queues) == multiset{task} + (multiset(global') + Flat(queues'))
  {
    hide Flat;
    if source.FromWorker? {
      var i := source.i;
      var rest := queues[i][1..];
      FlatUpdate(queues, i, rest);
      assert queues[i] == [task] + rest;
    }
  }
}
