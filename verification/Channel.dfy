/**
 Channels. A receiver that finds no value leaves its task in a queue; a sender that finds a waiting
 task gives it the value and spawns its resumption on the context the receiver came from, if that
 context still lives.
 */
module Channel {
  import opened Tasks

  /** `alive` tells whether the context of the receiver matched by this send was still alive. */
  datatype Event<T> = Sent(value: T, alive: bool) | Received

  /** Receives are numbered; `results` holds what each receive's task holds. */
  datatype View<T> = View(pending: seq<nat>, ready: seq<T>, results: seq<Option<T>>, spawned: seq<nat>)

  function Send<T>(v: View<T>, value: T, alive: bool): View<T>
    requires v.pending != [] ==> v.pending[0] < |v.results|
  {
    if v.pending == [] then v.(ready := v.ready + [value])
    else
      v.(pending := v.pending[1..],
         results := v.results[v.pending[0] := Some(value)],
         spawned := if alive then v.spawned + [v.pending[0]] else v.spawned)
  }

  function Receive<T>(v: View<T>): View<T> {
    if v.ready == [] then v.(pending := v.pending + [|v.results|], results := v.results + [None])
    else v.(ready := v.ready[1..], results := v.results + [Some(v.ready[0])])
  }

  function Run<T>(events: seq<Event<T>>): (v: View<T>)
    ensures forall k :: 0 <= k < |v.pending| ==> v.pending[k] < |v.results|
  {
    if events == [] then View([], [], [], [])
    else
      var v := Run(events[..|events| - 1]);
      match events[|events| - 1]
      case Sent(value, alive) => Send(v, value, alive)
      case Received => Receive(v)
  }

  lemma RunSnoc<T>(events: seq<Event<T>>, e: Event<T>)
    ensures Run(events + [e]) ==
            match e
            case Sent(value, alive) => Send(Run(events), value, alive)
            case Received => Receive(Run(events))
  {}

  // ---------- the matching, without queues ----------

  function Sends<T>(events: seq<Event<T>>): (r: seq<Event<T>>)
    ensures forall i :: 0 <= i < |r| ==> r[i].Sent?
  {
    if events == [] then []
    else
      var last := events[|events| - 1];
      Sends(events[..|events| - 1]) + if last.Sent? then [last] else []
  }

  /** For each receive, whether it came before the send with its number. */
  function Waits<T>(events: seq<Event<T>>): seq<bool> {
    if events == [] then []
    else
      var before := events[..|events| - 1];
      Waits(before) + if events[|events| - 1].Received? then [|Sends(before)| <= |Waits(before)|] else []
  }

  function Min(a: nat, b: nat): nat {
    if a < b then a else b
  }

  ghost predicate Matched<T>(v: View<T>, sends: seq<Event<T>>, waits: seq<bool>)
    requires forall i :: 0 <= i < |sends| ==> sends[i].Sent?
  {
    var s, r := |sends|, |waits|;
    && |v.results| == r
    && (forall i :: 0 <= i < r ==> v.results[i] == if i < s then Some(sends[i].value) else None)
    && |v.pending| == r - Min(s, r) && (forall k :: 0 <= k < |v.pending| ==> v.pending[k] == s + k)
    && |v.ready| == s - Min(s, r) && (forall k :: 0 <= k < |v.ready| ==> v.ready[k] == sends[r + k].value)
    && (forall i :: s <= i < r ==> waits[i])
  }

  /** Each receive that had to wait is resumed once, when it is matched on a live context; no other is. */
  ghost predicate SpawnedRight<T>(v: View<T>, sends: seq<Event<T>>, waits: seq<bool>)
    requires forall i :: 0 <= i < |sends| ==> sends[i].Sent?
  {
    && (forall a, b :: 0 <= a < b < |v.spawned| ==> v.spawned[a] < v.spawned[b])
    && (forall i: nat :: i in v.spawned <==> i < |sends| && i < |waits| && waits[i] && sends[i].alive)
  }

  lemma SendMatches<T>(v: View<T>, sends: seq<Event<T>>, waits: seq<bool>, value: T, alive: bool)
    requires forall i :: 0 <= i < |sends| ==> sends[i].Sent?
    requires Matched(v, sends, waits) && SpawnedRight(v, sends, waits)
    ensures Matched(Send(v, value, alive), sends + [Sent(value, alive)], waits)
    ensures SpawnedRight(Send(v, value, alive), sends + [Sent(value, alive)], waits)
  {
    var v', sends' := Send(v, value, alive), sends + [Sent(value, alive)];
    var s := |sends|;
    forall i: nat
      ensures i in v'.spawned <==> i < |sends'| && i < |waits| && waits[i] && sends'[i].alive
    {
      assert i in v'.spawned <==> i in v.spawned || (v.pending != [] && alive && i == s);
      assert i in v.spawned <==> i < |sends| && i < |waits| && waits[i] && sends[i].alive;
    }
    forall a, b | 0 <= a < b < |v'.spawned|
      ensures v'.spawned[a] < v'.spawned[b]
    {
      assert v'.spawned[a] in v.spawned;
    }
  }

  lemma ReceiveMatches<T>(v: View<T>, sends: seq<Event<T>>, waits: seq<bool>)
    requires forall i :: 0 <= i < |sends| ==> sends[i].Sent?
    requires Matched(v, sends, waits) && SpawnedRight(v, sends, waits)
    ensures Matched(Receive(v), sends, waits + [|sends| <= |waits|])
    ensures SpawnedRight(Receive(v), sends, waits + [|sends| <= |waits|])
  {}

  lemma NothingMatches<T>()
    ensures Matched<T>(View([], [], [], []), [], []) && SpawnedRight<T>(View([], [], [], []), [], [])
  {}

  lemma NeverBoth<T>(v: View<T>, sends: seq<Event<T>>, waits: seq<bool>)
    requires forall i :: 0 <= i < |sends| ==> sends[i].Sent?
    requires Matched(v, sends, waits)
    ensures v.pending == [] || v.ready == []
  {}

  /**
   After any run, the i-th receive holds the i-th sent value as soon as both exist; the waiting tasks
   and the ready values are what is left over, never both; and exactly the receives that waited are
   resumed, once each.
   */
  lemma {:induction false} MatchesInOrder<T>(events: seq<Event<T>>)
    ensures Matched(Run(events), Sends(events), Waits(events))
    ensures SpawnedRight(Run(events), Sends(events), Waits(events))
    ensures Run(events).pending == [] || Run(events).ready == []
  {
    hide Matched, SpawnedRight;
    if events == [] {
      NothingMatches<T>();
    } else {
      var before := events[..|events| - 1];
      MatchesInOrder(before);
      match events[|events| - 1]
      case Sent(value, alive) =>
        SendMatches(Run(before), Sends(before), Waits(before), value, alive);
        assert Sends(events) == Sends(before) + [Sent(value, alive)] && Waits(events) == Waits(before);
      case Received =>
        ReceiveMatches(Run(before), Sends(before), Waits(before));
        assert Sends(events) == Sends(before);
    }
    NeverBoth(Run(events), Sends(events), Waits(events));
  }

  lemma ReadyMeansMoreSends<T>(events: seq<Event<T>>)
    ensures Run(events).ready == [] <==> |Sends(events)| <= |Run(events).results|
  {
    MatchesInOrder(events);
  }

  lemma PendingDistinct<T>(events: seq<Event<T>>)
    ensures forall i, j :: 0 <= i < j < |Run(events).pending| ==> Run(events).pending[i] < Run(events).pending[j]
  {}

  // ---------- the class ----------

  /** Contexts are numbered; `None` is a receiver outside any context. */
  datatype Item<T> = Item(task: Task<T>, ctx: Option<nat>)

  class Channel<T> {
    var pendingTasks: seq<Item<T>>
    var readyValues: seq<T>
    ghost var spawned: seq<Item<T>>  // resumptions posted to the contexts' executors
    ghost var events: seq<Event<T>>
    ghost var issued: seq<Task<T>>   // the task of each receive

    ghost predicate Valid()
      reads this, set task | task in issued
    {
      var v := Run(events);
      && |issued| == |v.results|
      && (forall i, j :: 0 <= i < j < |issued| ==> issued[i] != issued[j])
      && (forall i :: 0 <= i < |issued| ==> issued[i].result == v.results[i])
      && |pendingTasks| == |v.pending|
      && (forall k :: 0 <= k < |pendingTasks| ==> pendingTasks[k].task == issued[v.pending[k]])
      && readyValues == v.ready
      && |spawned| == |v.spawned|
      && (forall k :: 0 <= k < |spawned| ==> v.spawned[k] < |issued| && spawned[k].task == issued[v.spawned[k]])
    }

    constructor ()
      ensures Valid() && events == [] && issued == []
    {
      pendingTasks, readyValues, spawned, events, issued := [], [], [], [], [];
    }

    method Send(value: T, alive: Option<nat> -> bool)
      requires Valid()
      modifies this, set task | task in issued
      ensures Valid() && issued == old(issued)
      ensures events == old(events) + [Sent(value, old(pendingTasks) != [] && alive(old(pendingTasks[0]).ctx))]
      ensures spawned == old(spawned) + (if old(pendingTasks) != [] && alive(old(pendingTasks[0]).ctx)
                        then [old(pendingTasks[0])]
                        else [])
    {
      hide Run;
      PendingDistinct(events);
      ghost var woke := pendingTasks != [] && alive(pendingTasks[0].ctx);
      if pendingTasks == [] {
        readyValues := readyValues + [value];
      } else {
        var item := pendingTasks[0];
        pendingTasks := pendingTasks[1..];
        item.task.SetResult(value);
        if alive(item.ctx) {
          spawned := spawned + [item];
        }
      }
      RunSnoc(events, Sent(value, woke));
      events := events + [Sent(value, woke)];
    }

    method Recv(ctx: Option<nat>) returns (task: Task<T>)
      requires Valid()
      modifies this
      ensures Valid() && fresh(task) && task.callerCoroutine == None
      ensures events == old(events) + [Received] && issued == old(issued) + [task]
      ensures task.result.None? <==> |Sends(old(events))| <= |old(issued)|
      ensures task.result.None? ==> pendingTasks == old(pendingTasks) + [Item(task, ctx)]
      ensures spawned == old(spawned)
    {
      hide Sends, Run;
      ReadyMeansMoreSends(events);
      task := new Task();
      if readyValues == [] {
        pendingTasks := pendingTasks + [Item(task, ctx)];
      } else {
        var value := readyValues[0];
        readyValues := readyValues[1..];
        task.SetResult(value);
      }
      RunSnoc(events, Received);
      events := events + [Received];
      issued := issued + [task];
    }

    /** Exactly the receives that waited and whose sender found their context alive are resumed, in order. */
    lemma WaitersAreResumed()
      requires Valid()
      ensures |spawned| == |Run(events).spawned|
      ensures forall k :: 0 <= k < |spawned| ==>
                var i := Run(events).spawned[k];
                && i < |issued| && spawned[k].task == issued[i]
                && i < |Sends(events)| && i < |Waits(events)| && Waits(events)[i] && Sends(events)[i].alive
      ensures forall i: nat ::
                i < |Sends(events)| && i < |Waits(events)| && Waits(events)[i] && Sends(events)[i].alive ==>
                i < |issued| && exists k :: 0 <= k < |spawned| && spawned[k].task == issued[i]
    {
      MatchesInOrder(events);
      var v := Run(events);
      forall k | 0 <= k < |spawned|
        ensures v.spawned[k] in v.spawned
      {}
      forall i: nat | i < |Sends(events)| && i < |Waits(events)| && Waits(events)[i] && Sends(events)[i].alive
        ensures i < |issued| && exists k :: 0 <= k < |spawned| && spawned[k].task == issued[i]
      {
        assert i in v.spawned;
        var k :| 0 <= k < |v.spawned| && v.spawned[k] == i;
        assert spawned[k].task == issued[i];
      }
    }

    /** What the queues achieve together: receive number i gets the value of send number i. */
    lemma ReceiverGetsItsValue(i: nat)
      requires Valid() && i < |issued|
      ensures issued[i].result == if i < |Sends(events)| then Some(Sends(events)[i].value) else None
    {
      MatchesInOrder(events);
    }
  }
}
