/**
 The queue of delayed tasks that both executors keep. It is a `std::priority_queue` of tasks compared
 by their delay, so its top is a task of the longest delay, whichever is due first. Among equal delays
 any may be on top.

 Times are nanoseconds of the steady clock; delays and sleeps are milliseconds.
 */
module DelayQueue {

  datatype DelayTask = DelayTask(id: int, delay: int, runAt: int)

  const NS_PER_MS := 1_000_000
  const IDLE_SLEEP_MS := 10

  ghost predicate IsTop(q: multiset<DelayTask>, t: DelayTask) {
    t in q && forall u :: u in q ==> u.delay <= t.delay
  }

  lemma {:induction false} TopExists(q: multiset<DelayTask>, t: DelayTask)
    requires t in q
    ensures exists top :: IsTop(q, top)
    decreases |q|
  {
    if u :| u in q && u.delay > t.delay {
      var r := q[t := 0];
      assert u in r;
      TopExists(r, u);
      var top :| IsTop(r, top);
      assert forall x :: x in q ==> x == t || x in r;
      assert IsTop(q, top);
    } else {
      assert IsTop(q, t);
    }
  }

  /**
   What one call may return: the queue is split without loss; everything returned is due, comes out by
   non-increasing delay, and is at least as long as everything kept; and if anything is kept, a task
   that is not due has come to the top.
   */
  ghost predicate Released(q: multiset<DelayTask>, now: int, out: seq<DelayTask>, kept: multiset<DelayTask>) {
    && multiset(out) + kept == q
    && (forall i :: 0 <= i < |out| ==> out[i].runAt <= now)
    && (forall i, j :: 0 <= i < j < |out| ==> out[i].delay >= out[j].delay)
    && (forall i, u :: 0 <= i < |out| && u in kept ==> out[i].delay >= u.delay)
    && (kept != multiset{} ==> exists top :: IsTop(kept, top) && now < top.runAt)
  }

  /** Part of a release: what has come out so far. */
  ghost predicate Popped(q: multiset<DelayTask>, now: int, out: seq<DelayTask>, rest: multiset<DelayTask>) {
    && multiset(out) + rest == q
    && (forall i :: 0 <= i < |out| ==> out[i].runAt <= now)
    && (forall i, j :: 0 <= i < j < |out| ==> out[i].delay >= out[j].delay)
    && (forall i, u :: 0 <= i < |out| && u in rest ==> out[i].delay >= u.delay)
  }

  lemma PopStep(q: multiset<DelayTask>, now: int, out: seq<DelayTask>, rest: multiset<DelayTask>, top: DelayTask)
    requires Popped(q, now, out, rest) && IsTop(rest, top) && top.runAt <= now
    ensures Popped(q, now, out + [top], rest - multiset{top})
  {}

  lemma PopNothing(q: multiset<DelayTask>, now: int)
    ensures Popped(q, now, [], q)
  {}

  lemma TopIsIn(q: multiset<DelayTask>, top: DelayTask)
    requires IsTop(q, top)
    ensures top in q && |q - multiset{top}| < |q|
  {}

  lemma PopStop(q: multiset<DelayTask>, now: int, out: seq<DelayTask>, rest: multiset<DelayTask>, top: DelayTask)
    requires Popped(q, now, out, rest)
    requires rest == multiset{} || (IsTop(rest, top) && now < top.runAt)
    ensures Released(q, now, out, rest)
  {}

  /** The sleep is the remaining time of the top task, cut to milliseconds. */
  ghost predicate SleepFor(kept: multiset<DelayTask>, now: int, sleep: int) {
    if kept == multiset{} then sleep == IDLE_SLEEP_MS
    else exists top :: IsTop(kept, top) && now < top.runAt && sleep == (top.runAt - now) / NS_PER_MS
  }

  lemma SleepOf(kept: multiset<DelayTask>, now: int, top: DelayTask)
    requires kept == multiset{} || (IsTop(kept, top) && now < top.runAt)
    ensures SleepFor(kept, now, if kept == multiset{} then IDLE_SLEEP_MS else (top.runAt - now) / NS_PER_MS)
  {}

  class Queue {
    var tasks: multiset<DelayTask>

    constructor ()
      ensures tasks == multiset{}
    {
      tasks := multiset{};
    }

    /** The deadline is fixed when the task is built. */
    method PostDelay(id: int, delay: int, now: int)
      modifies this
      ensures tasks == old(tasks) + multiset{DelayTask(id, delay, now + delay * 1_000_000)}
    {
      tasks := tasks + multiset{DelayTask(id, delay, now + delay * NS_PER_MS)};
    }

    method Top() returns (t: DelayTask)
      requires tasks != multiset{}
      ensures IsTop(tasks, t)
    {
      var any :| any in tasks;
      TopExists(tasks, any);
      t :| t in tasks && forall u :: u in tasks ==> u.delay <= t.delay;
    }

    method GetTimeupDelayTasks(now: int) returns (out: seq<DelayTask>, sleep: int)
      modifies this
      ensures Released(old(tasks), now, out, tasks) && SleepFor(tasks, now, sleep)
    {
      hide Popped, Released, SleepFor, IsTop;
      out := [];
      PopNothing(tasks, now);
      var top := DelayTask(0, 0, 0);
      var done := tasks == multiset{};
      if !done {
        top := Top();
      }
      while !done && top.runAt <= now
        invariant Popped(old(tasks), now, out, tasks)
        invariant done <==> tasks == multiset{}
        invariant !done ==> IsTop(tasks, top)
        decreases |tasks|
      {
        PopStep(old(tasks), now, out, tasks, top);
        TopIsIn(tasks, top);
        out := out + [top];
        tasks := tasks - multiset{top};
        done := tasks == multiset{};
        if !done {
          top := Top();
        }
      }
      PopStop(old(tasks), now, out, tasks, top);
      SleepOf(tasks, now, top);
      sleep := if done then IDLE_SLEEP_MS else (top.runAt - now) / NS_PER_MS;
    }
  }

  /** The sleep is 10 ms for an empty queue; else it never runs past the deadline of the task on top. */
  lemma SleepIsSafe(q: multiset<DelayTask>, now: int, out: seq<DelayTask>, kept: multiset<DelayTask>, sleep: int)
    requires Released(q, now, out, kept) && SleepFor(kept, now, sleep)
    ensures kept == multiset{} ==> sleep == 10
    ensures 0 <= sleep
    ensures kept != multiset{} ==>
            exists top :: IsTop(kept, top) && now < top.runAt && now + sleep * 1_000_000 <= top.runAt
              && top.runAt < now + (sleep + 1) * 1_000_000
  {}

  /** What comes out is due, longest delay first, and never shorter than what stays; nothing is lost or made. */
  lemma ReleasedInOrder(q: multiset<DelayTask>, now: int, out: seq<DelayTask>, kept: multiset<DelayTask>)
    requires Released(q, now, out, kept)
    ensures forall i, j :: 0 <= i < j < |out| ==> out[i].delay >= out[j].delay
    ensures forall i, u :: 0 <= i < |out| && u in kept ==> out[i].delay >= u.delay
    ensures forall i :: 0 <= i < |out| ==> out[i].runAt <= now
    ensures forall t :: q[t] == multiset(out)[t] + kept[t]
  {}

  /** A due task is kept only behind one that is not due and has at least its delay; if all are due all come out. */
  lemma KeptOnlyBehindLongerDelay(q: multiset<DelayTask>, now: int, out: seq<DelayTask>, kept: multiset<DelayTask>)
    requires Released(q, now, out, kept)
    ensures forall t :: t in kept && t.runAt <= now ==> exists u :: u in kept && now < u.runAt && t.delay <= u.delay
    ensures (forall t :: t in q ==> t.runAt <= now) ==> kept == multiset{}
  {}

  /** Every due task has a longer delay than every task that is not due. */
  ghost predicate DueDelaysLongest(q: multiset<DelayTask>, now: int) {
    forall t, u :: t in q && u in q && t.runAt <= now && now < u.runAt ==> t.delay > u.delay
  }

  ghost predicate AllDueReleased(kept: multiset<DelayTask>, now: int) {
    forall t :: t in kept ==> now < t.runAt
  }

  /** A release that goes on from `out0`, preferring a task that is not due when delays are equal. */
  lemma {:induction false} DueMayBeKept(
    q: multiset<DelayTask>, now: int, out0: seq<DelayTask>, rest: multiset<DelayTask>, t: DelayTask, u: DelayTask)
    returns (out: seq<DelayTask>, kept: multiset<DelayTask>)
    requires Popped(q, now, out0, rest)
    requires t in rest && u in rest && t.runAt <= now && now < u.runAt && t.delay <= u.delay
    ensures Released(q, now, out, kept) && t in kept
    decreases |rest|
  {
    if top :| IsTop(rest, top) && now < top.runAt {
      out, kept := out0, rest;
    } else {
      TopExists(rest, u);
      var first :| IsTop(rest, first);
      assert IsTop(rest, u) || first.delay > u.delay;
      PopStep(q, now, out0, rest, first);
      out, kept := DueMayBeKept(q, now, out0 + [first], rest - multiset{first}, t, u);
    }
  }

  /** A call is sure to release every due task exactly when all due delays are longer than all others. */
  lemma AllDueReleasedIff(q: multiset<DelayTask>, now: int)
    ensures (forall out, kept :: Released(q, now, out, kept) ==> AllDueReleased(kept, now))
            <==> DueDelaysLongest(q, now)
  {
    if DueDelaysLongest(q, now) {
      forall out, kept | Released(q, now, out, kept)
        ensures AllDueReleased(kept, now)
      {
        KeptOnlyBehindLongerDelay(q, now, out, kept);
        assert forall t :: t in kept ==> t in q;
      }
    } else {
      var t, u :| t in q && u in q && t.runAt <= now && now < u.runAt && t.delay <= u.delay;
      var out, kept := DueMayBeKept(q, now, [], q, t, u);
      assert Released(q, now, out, kept) && !AllDueReleased(kept, now);
    }
  }

  /** A 10 ms timer set 5 ms after a 100 ms timer is not released at 20 ms, though it is due at 15 ms. */
  lemma ShortTimerWaitsForLongOne(out: seq<DelayTask>, kept: multiset<DelayTask>)
    requires Released(multiset{DelayTask(0, 100, 100 * NS_PER_MS), DelayTask(1, 10, 15 * NS_PER_MS)},
             20 * NS_PER_MS, out, kept)
    ensures out == [] && DelayTask(1, 10, 15 * NS_PER_MS) in kept
  {
    var long, short := DelayTask(0, 100, 100 * NS_PER_MS), DelayTask(1, 10, 15 * NS_PER_MS);
    var q := multiset{long, short};
    assert forall x :: x in q ==> x == long || x == short;
    assert forall i :: 0 <= i < |out| ==> out[i] in multiset(out) + kept;
    assert long in multiset(out) + kept && long in kept;
    if out != [] {
      assert false;
    }
  }
}
