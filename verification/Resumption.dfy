/**
 From a socket call to the resumption of its coroutine. Coroutines run on the one thread of a
 `SimpleExecutor`; a body calls `recv` or `accept` on a socket, which registers an operation with the
 select proactor, and awaits the task at once. The proactor works on any thread, at any time. Its
 completions reach the executor only by `harvest`, which the executor calls between two bodies.
 */
module Resumption {
  import opened Select
  import opened SelectRuns
  import opened SelectLosses
  import opened Tasks

  /** What a callback stores: for `recv` the value, for `accept` the value and the peer's address. */
  datatype Delivery = Delivery(value: int, peer: Peer)

  function DeliveryOf(c: Completion): Delivery {
    Delivery(c.value, c.peer)
  }

  /** One awaited operation: the cell shared with the callback, who awaits it, and how often it resumed. */
  datatype Await = Await(cell: Shared<Delivery>, owner: nat, resumes: nat)

  datatype Phase =
    | Between                     // the executor is between two task bodies
    | Body(c: nat)                // coroutine c is running
    | Calling(c: nat, id: nat)    // c has registered operation id and not yet awaited it

  datatype World = World(
    io: System,
    trace: seq<Step>,             // the proactor's steps so far
    awaits: seq<Await>,           // by operation number
    phase: Phase,
    inHand: seq<Completion>,      // harvested callbacks of this round that have not run
    broken: bool)                 // an empty coroutine handle has been resumed

  datatype Event =
    | Io(step: Step)
    | RunPosted(c: nat)
    | Call(fd: int, action: Action)
    | Suspend
    | BodyEnds
    | Harvest
    | RunCallback

  function Boot(ev: Events): World {
    World(SelectRuns.Boot(ev), [], [], Between, [], false)
  }

  predicate Possible(ev: Events, w: World, e: Event) {
    match e
    case Io(step) => !step.ClientRegister? && !step.ClientHarvest?
    case RunPosted(_) => w.phase.Between?
    case Call(fd, action) =>
      w.phase.Body? && (action.Recv? || action.Accept?) && Enabled(ev, w.io, ClientRegister(fd, action))
    case Suspend => w.phase.Calling? && w.phase.id < |w.awaits|
    case BodyEnds => w.phase.Body?
    case Harvest => w.phase.Between? && w.inHand == []
    case RunCallback => w.phase.Between? && w.inHand != [] && 0 <= w.inHand[0].task.id < |w.awaits|
  }

  function IoStep(ev: Events, w: World, step: Step): World {
    w.(io := Next(ev, w.io, step), trace := w.trace + [step])
  }

  function Happen(ev: Events, w: World, e: Event): World
    requires Possible(ev, w, e)
  {
    match e
    case Io(step) => IoStep(ev, w, step)
    case RunPosted(c) => w.(phase := Body(c))
    case Call(fd, action) =>
      IoStep(ev, w, ClientRegister(fd, action)).(
        awaits := w.awaits + [Await(Shared(None, None), w.phase.c, 0)],
        phase := Calling(w.phase.c, |w.awaits|))
    case Suspend =>
      var a := w.awaits[w.phase.id];
      if a.cell.result.Some? then w.(phase := Body(w.phase.c))
      else w.(awaits := w.awaits[w.phase.id := a.(cell := a.cell.(caller := Some(w.phase.c)))], phase := Between)
    case BodyEnds => w.(phase := Between)
    case Harvest => IoStep(ev, w, ClientHarvest).(inHand := w.io.tables.completed)
    case RunCallback =>
      var done := w.inHand[0];
      var a := w.awaits[done.task.id];
      var rest := w.(inHand := w.inHand[1..]);
      if a.cell.result.None? && a.cell.caller.None? then rest.(broken := true)
      else
        var (cell, resumed) := Complete(a.cell, DeliveryOf(done));
        rest.(awaits := w.awaits[done.task.id := a.(cell := cell, resumes := a.resumes + |resumed|)],
              phase := if resumed == [] then Between else Body(resumed[0]))
  }

  function Go(ev: Events, events: seq<Event>): World {
    if events == [] then Boot(ev)
    else
      var w := Go(ev, events[..|events| - 1]);
      if Possible(ev, w, events[|events| - 1]) then Happen(ev, w, events[|events| - 1]) else w
  }

  /** How many harvested callbacks have run. */
  function Ran(w: World): int {
    |w.io.harvested| - |w.inHand|
  }

  /** The callback of operation `id` has run, as number `j`. */
  ghost predicate RanAs(w: World, id: int, j: int) {
    0 <= j < Ran(w) && j < |w.io.harvested| && w.io.harvested[j].task.id == id
  }

  ghost predicate HasRun(w: World, id: int) {
    exists j :: RanAs(w, id, j)
  }

  ghost predicate AwaitOk(w: World, id: nat)
    requires id < |w.awaits|
  {
    var a := w.awaits[id];
    && (a.cell.result.Some? <==> HasRun(w, id))
    && (forall j :: RanAs(w, id, j) ==> a.cell.result == Some(DeliveryOf(w.io.harvested[j])))
    && a.resumes == (if a.cell.result.Some? then 1 else 0)
    && a.cell.caller == (if w.phase == Calling(a.owner, id) then None else Some(a.owner))
  }

  ghost predicate WorldInv(ev: Events, w: World) {
    && Inv(ev, w.io) && w.io == Run(ev, w.trace)
    && !w.broken
    && |w.awaits| == |w.io.registered|
    && Ran(w) >= 0 && w.inHand == w.io.harvested[Ran(w)..]
    && (w.phase.Calling? ==>
        w.phase.id < |w.awaits| && w.awaits[w.phase.id].owner == w.phase.c && !HasRun(w, w.phase.id))
    && (forall id :: 0 <= id < |w.awaits| ==> AwaitOk(w, id))
  }

  lemma IoKeeps(ev: Events, w: World, step: Step)
    requires WorldInv(ev, w) && Possible(ev, w, Io(step))
    ensures WorldInv(ev, Happen(ev, w, Io(step)))
  {
    var w' := Happen(ev, w, Io(step));
    StepKeepsInv(ev, w.io, step);
    RunStep(ev, w.trace, step, w.io);
    assert w'.io.harvested == w.io.harvested && w'.io.registered == w.io.registered;
    forall id | 0 <= id < |w'.awaits| ensures AwaitOk(w', id) {
      assert AwaitOk(w, id);
      assert forall j :: RanAs(w', id, j) <==> RanAs(w, id, j);
    }
    if w.phase.Calling? {
      assert forall j :: RanAs(w', w.phase.id, j) <==> RanAs(w, w.phase.id, j);
    }
  }

  lemma CallKeeps(ev: Events, w: World, fd: int, action: Action)
    requires WorldInv(ev, w) && Possible(ev, w, Call(fd, action))
    ensures WorldInv(ev, Happen(ev, w, Call(fd, action)))
  {
    var w' := Happen(ev, w, Call(fd, action));
    StepKeepsInv(ev, w.io, ClientRegister(fd, action));
    RunStep(ev, w.trace, ClientRegister(fd, action), w.io);
    assert !HasRun(w', |w.awaits|) by {
      forall j | 0 <= j < |w.io.harvested| ensures w.io.harvested[j].task.id != |w.awaits| {
        assert w.io.harvested[j] == History(w.io)[j];
      }
    }
    forall id | 0 <= id < |w'.awaits| ensures AwaitOk(w', id) {
      if id < |w.awaits| {
        assert AwaitOk(w, id);
        assert forall j :: RanAs(w', id, j) <==> RanAs(w, id, j);
      }
    }
  }

  lemma HarvestKeeps(ev: Events, w: World)
    requires WorldInv(ev, w) && Possible(ev, w, Harvest)
    ensures WorldInv(ev, Happen(ev, w, Harvest))
  {
    var w' := Happen(ev, w, Harvest);
    StepKeepsInv(ev, w.io, ClientHarvest);
    RunStep(ev, w.trace, ClientHarvest, w.io);
    assert Ran(w') == Ran(w);
    forall id | 0 <= id < |w'.awaits| ensures AwaitOk(w', id) {
      assert AwaitOk(w, id);
      assert forall j :: RanAs(w', id, j) <==> RanAs(w, id, j);
    }
  }

  /** The heart: a callback finds no result and a stored caller, since nothing ran it before and nobody is mid-call. */
  lemma CallbackFindsItsCoroutine(ev: Events, w: World)
    requires WorldInv(ev, w) && Possible(ev, w, RunCallback)
    ensures var id := w.inHand[0].task.id;
            w.awaits[id].cell == Shared(None, Some(w.awaits[id].owner)) && w.awaits[id].resumes == 0
  {
    var id, e := w.inHand[0].task.id, Ran(w);
    assert w.inHand[0] == w.io.harvested[e] == History(w.io)[e];
    assert AwaitOk(w, id);
    assert !HasRun(w, id) by {
      forall j | 0 <= j < e ensures !RanAs(w, id, j) {
        assert w.io.harvested[j] == History(w.io)[j];
      }
    }
  }

  lemma CallbackKeeps(ev: Events, w: World)
    requires WorldInv(ev, w) && Possible(ev, w, RunCallback)
    ensures WorldInv(ev, Happen(ev, w, RunCallback))
  {
    var w' := Happen(ev, w, RunCallback);
    var id, e := w.inHand[0].task.id, Ran(w);
    CallbackFindsItsCoroutine(ev, w);
    assert w.inHand[0] == w.io.harvested[e] == History(w.io)[e];
    assert Ran(w') == e + 1;
    assert RanAs(w', id, e);
    forall i | 0 <= i < |w'.awaits| ensures AwaitOk(w', i) {
      assert AwaitOk(w, i);
      assert forall j :: RanAs(w', i, j) <==> RanAs(w, i, j) || (i == id && j == e);
    }
  }

  lemma OtherEventsKeep(ev: Events, w: World, e: Event)
    requires WorldInv(ev, w) && Possible(ev, w, e) && (e.RunPosted? || e.Suspend? || e.BodyEnds?)
    ensures WorldInv(ev, Happen(ev, w, e))
  {
    var w' := Happen(ev, w, e);
    if e.Suspend? {
      assert AwaitOk(w, w.phase.id);
    }
    forall i | 0 <= i < |w'.awaits| ensures AwaitOk(w', i) {
      assert AwaitOk(w, i);
      assert forall j :: RanAs(w', i, j) <==> RanAs(w, i, j);
    }
  }

  lemma {:induction false} AlwaysWorldInv(ev: Events, events: seq<Event>)
    ensures WorldInv(ev, Go(ev, events))
  {
    if events == [] {
      assert Inv(ev, SelectRuns.Boot(ev)) by { AlwaysInv(ev, []); }
    } else {
      var w, e := Go(ev, events[..|events| - 1]), events[|events| - 1];
      AlwaysWorldInv(ev, events[..|events| - 1]);
      if Possible(ev, w, e) {
        match e
        case Io(step) => IoKeeps(ev, w, step);
        case Call(fd, action) => CallKeeps(ev, w, fd, action);
        case Harvest => HarvestKeeps(ev, w);
        case RunCallback => CallbackKeeps(ev, w);
        case _ => OtherEventsKeep(ev, w, e);
      }
    }
  }

  /**
   Whenever a callback is about to run, its task has no result and a stored caller; running it stores
   the completion's value and resumes exactly the coroutine that awaits the task.
   */
  lemma EveryCallbackResumesItsCaller(ev: Events, events: seq<Event>)
    requires Go(ev, events).phase.Between? && Go(ev, events).inHand != []
    ensures var w := Go(ev, events);
            var w' := Go(ev, events + [RunCallback]);
            var done := w.inHand[0]; var id := done.task.id;
            && 0 <= id < |w.awaits| == |w'.awaits|
            && w.awaits[id].cell == Shared(None, Some(w.awaits[id].owner))
            && w'.awaits[id].cell.result == Some(DeliveryOf(done))
            && w'.phase == Body(w.awaits[id].owner) && w'.inHand == w.inHand[1..]
            && w'.awaits == w.awaits[id := w'.awaits[id]] && !w'.broken
  {
    var w := Go(ev, events);
    AlwaysWorldInv(ev, events);
    assert (events + [RunCallback])[..|events|] == events;
    assert w.inHand[0] == History(w.io)[Ran(w)];
    CallbackFindsItsCoroutine(ev, w);
  }

  /** In every reachable world no empty handle was ever resumed and no await resumed twice. */
  lemma ResumedAtMostOnce(ev: Events, events: seq<Event>, id: nat)
    requires id < |Go(ev, events).awaits|
    ensures var w := Go(ev, events); var a := w.awaits[id];
            && !w.broken && a.resumes <= 1
            && (a.resumes == 1 <==> HasRun(w, id)) && (a.resumes == 1 <==> a.cell.result.Some?)
            && (forall j :: RanAs(w, id, j) ==> a.cell.result == Some(DeliveryOf(w.io.harvested[j])))
  {
    AlwaysWorldInv(ev, events);
    assert AwaitOk(Go(ev, events), id);
  }

  /**
   With free slots, once nothing is pending, completed or in hand, every call has resumed its coroutine
   exactly once.
   */
  lemma DrainedMeansAllResumed(ev: Events, events: seq<Event>, id: nat)
    requires var w := Go(ev, events);
             && id < |w.awaits| && AllFree(ev, w.trace)
             && !Pending(w.io, id) && w.io.tables.completed == [] && w.inHand == []
    ensures Go(ev, events).awaits[id].resumes == 1
  {
    var w := Go(ev, events);
    AlwaysWorldInv(ev, events);
    FreeRunsConserve(ev, w.trace);
    assert Completed(w.io, id);
    var j :| 0 <= j < |History(w.io)| && History(w.io)[j].task.id == id;
    assert RanAs(w, id, j);
    assert AwaitOk(w, id);
  }

  /** Nothing is pending, completed or in hand any more. */
  ghost predicate Drained(w: World) {
    && (forall id :: 0 <= id < |w.awaits| ==> !Pending(w.io, id))
    && w.io.tables.completed == [] && w.inHand == []
  }

  lemma DrainedResumes(ev: Events, w: World, id: nat)
    requires WorldInv(ev, w) && Drained(w) && id < |w.awaits|
    ensures w.awaits[id].resumes == if Completed(w.io, id) then 1 else 0
  {
    assert AwaitOk(w, id);
    assert History(w.io) == w.io.harvested;
    if Completed(w.io, id) {
      var j :| 0 <= j < |History(w.io)| && History(w.io)[j].task.id == id;
      assert RanAs(w, id, j);
    }
  }

  /**
   In a drained world every call has resumed its coroutine exactly once, if and only if no call found
   another operation waiting on its descriptor and direction.
   */
  lemma DrainedAllResumedIff(ev: Events, events: seq<Event>)
    requires Drained(Go(ev, events))
    ensures var w := Go(ev, events);
            (forall id :: 0 <= id < |w.awaits| ==> w.awaits[id].resumes == 1) <==> AllFree(ev, w.trace)
  {
    hide Go, AllFree, WorldInv;
    var w := Go(ev, events);
    AlwaysWorldInv(ev, events);
    WorldIsRun(ev, w);
    ConservedAtEndIff(ev, w.trace);
    forall id | 0 <= id < |w.awaits|
      ensures w.awaits[id].resumes == if Completed(w.io, id) then 1 else 0
    {
      DrainedResumes(ev, w, id);
    }
  }

  lemma WorldIsRun(ev: Events, w: World)
    requires WorldInv(ev, w)
    ensures w.io == Run(ev, w.trace) && |w.awaits| == |w.io.registered| && HistoryOk(w.io)
  {}

  // ---------- from the system call to the awaiting coroutine ----------

  /** A call awaits the operation of its own descriptor and kind. */
  lemma CallRegisters(ev: Events, events: seq<Event>, fd: int, action: Action)
    requires Possible(ev, Go(ev, events), Call(fd, action))
    ensures var w, w' := Go(ev, events), Go(ev, events + [Call(fd, action)]); var id := |w.awaits|;
            && |w'.awaits| == |w'.io.registered| == id + 1 && w'.awaits[..id] == w.awaits
            && w'.awaits[id].owner == w.phase.c && w'.awaits[id].resumes == 0
            && w'.io.registered[id].fd == fd && w'.io.registered[id].action == action && Pending(w'.io, id)
  {
    var w := Go(ev, events);
    AlwaysWorldInv(ev, events);
    AlwaysWorldInv(ev, events + [Call(fd, action)]);
    assert (events + [Call(fd, action)])[..|events|] == events;
  }

  lemma CompletionAt(ev: Events, trace: seq<Step>, k: nat)
    requires k < |trace| && trace[k].Handle? && Enabled(ev, Run(ev, trace[..k]), trace[k])
    requires trace[k].o.Done? || trace[k].o.Failed?
    ensures var s, step := Run(ev, trace[..k]), trace[k];
            var task := Side(s.running[step.i].fds, step.read)[step.fd];
            var j := |History(s)|;
            !task.action.Connect? ==>
              && j < |History(Run(ev, trace))| && History(Run(ev, trace))[j].task == task
              && History(Run(ev, trace))[j].value == (if step.o.Done? then step.o.n else 0 - step.o.errno)
              && History(Run(ev, trace))[j].peer ==
                 (if task.action.Accept? || task.action.Recvfrom? then Peer(step.o.peer) else NoPeer)
  {
    var step := trace[k];
    assert trace[..k] + [step] == trace[..k + 1] && trace[..k + 1] + trace[k + 1..] == trace;
    CompletionsCarry(ev, trace[..k], step.i, step.read, step.fd, step.o);
    HistoryGrows(ev, trace[..k + 1], trace[k + 1..]);
    var s, s' := Run(ev, trace[..k]), Run(ev, trace[..k + 1]);
    hide Run, Next, Enabled;
  }

  /** Step k of a run is a `do_io` handling operation `id`. */
  ghost predicate HandledAt(ev: Events, trace: seq<Step>, k: nat, id: nat) {
    && k < |trace| && trace[k].Handle? && Enabled(ev, Run(ev, trace[..k]), trace[k])
    && Side(Run(ev, trace[..k]).running[trace[k].i].fds, trace[k].read)[trace[k].fd].id == id
  }

  /** The result of a plain receive: the count, or the negated error number. */
  ghost predicate HoldsReceived(cell: Shared<Delivery>, o: Outcome) {
    && (o.Done? ==> cell.result == Some(Delivery(o.n, NoPeer)))
    && (o.Failed? ==> cell.result == Some(Delivery(0 - o.errno, NoPeer)))
  }

  /** The result of accepting: the descriptor or the negated error number, and the address the call left. */
  ghost predicate HoldsAccepted(cell: Shared<Delivery>, o: Outcome) {
    && (o.Done? ==> cell.result == Some(Delivery(o.n, Peer(o.peer))))
    && (o.Failed? ==> cell.result == Some(Delivery(0 - o.errno, Peer(o.peer))))
  }

  lemma RanHolds(ev: Events, w: World, id: nat) returns (j: int)
    requires WorldInv(ev, w) && id < |w.awaits| && w.awaits[id].resumes == 1
    ensures 0 <= j < |History(w.io)| && History(w.io)[j].task.id == id
    ensures w.awaits[id].cell.result == Some(Delivery(History(w.io)[j].value, History(w.io)[j].peer))
  {
    assert AwaitOk(w, id);
    j :| RanAs(w, id, j);
    assert History(w.io)[j] == w.io.harvested[j];
  }

  /** The completion that handling produced is in the history. */
  ghost predicate Recorded(io: System, at: int, id: nat, action: Action, o: Outcome) {
    && 0 <= at < |History(io)| && History(io)[at].task.id == id && History(io)[at].task.action == action
    && History(io)[at].value == (if o.Done? then o.n else if o.Failed? then 0 - o.errno else 0)
    && History(io)[at].peer ==
       (if (action.Accept? || action.Recvfrom?) && (o.Done? || o.Failed?) then Peer(o.peer) else NoPeer)
  }

  lemma HandledIsRecorded(ev: Events, trace: seq<Step>, k: nat, id: nat) returns (at: int)
    requires HandledAt(ev, trace, k, id) && !trace[k].o.Again?
    ensures var io := Run(ev, trace);
            && id < |io.registered|
            && (!io.registered[id].action.Connect? ==>
                  Recorded(io, at, id, io.registered[id].action, trace[k].o))
  {
    at := |History(Run(ev, trace[..k]))|;
    CompletionAt(ev, trace, k);
    HandledIsRegistered(ev, trace, k, id);
    hide Run, Enabled;
  }

  lemma RecordedHolds(io: System, at: int, j: int, id: nat, action: Action, o: Outcome, cell: Shared<Delivery>)
    requires HistoryOk(io) && Recorded(io, at, id, action, o) && !o.Again?
    requires 0 <= j < |History(io)| && History(io)[j].task.id == id
    requires cell.result == Some(Delivery(History(io)[j].value, History(io)[j].peer))
    ensures action.Recv? ==> HoldsReceived(cell, o)
    ensures action.Accept? ==> HoldsAccepted(cell, o)
  {
    assert at == j;
  }

  lemma HandledHolds(ev: Events, w: World, k: nat, id: nat)
    requires WorldInv(ev, w) && id < |w.awaits| && w.awaits[id].resumes == 1 && HandledAt(ev, w.trace, k, id)
    requires !w.trace[k].o.Again?
    ensures id < |w.io.registered|
    ensures w.io.registered[id].action.Recv? ==> HoldsReceived(w.awaits[id].cell, w.trace[k].o)
    ensures w.io.registered[id].action.Accept? ==> HoldsAccepted(w.awaits[id].cell, w.trace[k].o)
  {
    InTrace(ev, w.trace, k, id);
    hide WorldInv, Run, HandledAt, Recorded, HoldsReceived, HoldsAccepted, HistoryOk, History;
    WorldIsRun(ev, w);
    var j := RanHolds(ev, w, id);
    var at := HandledIsRecorded(ev, w.trace, k, id);
    var action := w.io.registered[id].action;
    if !action.Connect? {
      RecordedHolds(w.io, at, j, id, action, w.trace[k].o, w.awaits[id].cell);
    }
  }

  lemma InTrace(ev: Events, trace: seq<Step>, k: nat, id: nat)
    requires HandledAt(ev, trace, k, id)
    ensures k < |trace| && trace[k].Handle?
  {}

  /** The handled task is the one registered under its number. */
  lemma HandledIsRegistered(ev: Events, trace: seq<Step>, k: nat, id: nat)
    requires HandledAt(ev, trace, k, id)
    ensures var task := Side(Run(ev, trace[..k]).running[trace[k].i].fds, trace[k].read)[trace[k].fd];
            var registered := Run(ev, trace).registered;
            id < |registered| && registered[id] == task
  {
    var step, s := trace[k], Run(ev, trace[..k]);
    AlwaysInv(ev, trace[..k]);
    assert RunOk(ev, s, s.running[step.i]);
    assert EntryOk(ev, s, step.read, step.fd, Side(s.running[step.i].fds, step.read)[step.fd]);
    RegisteredGrows(ev, trace[..k], trace[k..]);
    assert trace[..k] + trace[k..] == trace;
  }

  lemma {:induction false} RegisteredGrows(ev: Events, steps: seq<Step>, more: seq<Step>)
    ensures Run(ev, steps).registered <= Run(ev, steps + more).registered
  {
    if more == [] {
      assert steps + more == steps;
    } else {
      hide Run, Next;
      RunsConcatenate(ev, steps, more);
      RegisteredGrows(ev, steps, more[..|more| - 1]);
      StepAddsRegistered(ev, Run(ev, steps + more[..|more| - 1]), more[|more| - 1]);
    }
  }

  lemma StepAddsRegistered(ev: Events, s: System, step: Step)
    ensures s.registered <= Next(ev, s, step).registered
  {}

  /**
   What the coroutine gets. When a `do_io` handled its operation with a system call that did not say to
   try again, and the callback has run, the await holds what that call returned.
   */
  lemma AwaitHoldsWhatTheCallReturned(ev: Events, events: seq<Event>, k: nat, id: nat)
    requires id < |Go(ev, events).awaits| && Go(ev, events).awaits[id].resumes == 1
    requires HandledAt(ev, Go(ev, events).trace, k, id) && !Go(ev, events).trace[k].o.Again?
    ensures var w := Go(ev, events);
            && id < |w.io.registered|
            && (w.io.registered[id].action.Recv? ==> HoldsReceived(w.awaits[id].cell, w.trace[k].o))
            && (w.io.registered[id].action.Accept? ==> HoldsAccepted(w.awaits[id].cell, w.trace[k].o))
  {
    AlwaysWorldInv(ev, events);
    WorldIsRun(ev, Go(ev, events));
    HandledHolds(ev, Go(ev, events), k, id);
  }

  /** A coroutine that awaits right after its call always suspends, and its handle is stored. */
  lemma AwaitingSuspends(ev: Events, events: seq<Event>)
    requires Go(ev, events).phase.Calling?
    ensures var w, w' := Go(ev, events), Go(ev, events + [Suspend]);
            var c, id := w.phase.c, w.phase.id;
            && id < |w.awaits| == |w'.awaits| && w'.phase.Between? && w'.io == w.io && w'.inHand == w.inHand
            && w'.awaits[id].cell == Shared(None, Some(c)) && w'.awaits[id].owner == c
            && forall j :: 0 <= j < |w.awaits| && j != id ==> w'.awaits[j] == w.awaits[j]
  {
    var w := Go(ev, events);
    AlwaysWorldInv(ev, events);
    assert AwaitOk(w, w.phase.id);
    assert (events + [Suspend])[..|events|] == events;
  }

  /** Running a callback whose task has neither a result nor a handle would resume an empty handle. */
  lemma EmptyHandleBreaks(ev: Events, w: World)
    requires Possible(ev, w, RunCallback) && w.awaits[w.inHand[0].task.id].cell == Shared(None, None)
    ensures Happen(ev, w, RunCallback).broken
  {}

  lemma GoStep(ev: Events, events: seq<Event>, e: Event)
    requires Possible(ev, Go(ev, events), e)
    ensures Go(ev, events + [e]) == Happen(ev, Go(ev, events), e)
  {
    assert (events + [e])[..|events|] == events;
  }

  /** Coroutine 9 receives from, or accepts on, descriptor 5, and awaits. */
  function AwaitingFive(action: Action): seq<Event> {
    [RunPosted(9)] + [Call(5, action)] + [Suspend]
  }

  function AwaitingWorld(action: Action): World
    requires IsRead(action)
  {
    var task := SelectTask(5, action, 0);
    World(System(Register(Initial(3, 4), task), 0, [], false, false, [task], []), [ClientRegister(5, action)],
          [Await(Shared(None, Some(9)), 9, 0)], Between, [], false)
  }

  lemma AwaitingFiveWorld(action: Action)
    requires action.Recv? || action.Accept?
    ensures Go(Events(3, 4), AwaitingFive(action)) == AwaitingWorld(action)
  {
    var ev := Events(3, 4);
    hide Go;
    GoStart(ev);
    GoStep(ev, [], RunPosted(9));
    assert [] + [RunPosted(9)] == [RunPosted(9)];
    GoStep(ev, [RunPosted(9)], Call(5, action));
    GoStep(ev, [RunPosted(9)] + [Call(5, action)], Suspend);
  }

  lemma GoStart(ev: Events)
    ensures Go(ev, []) == Boot(ev)
  {}

  function ServedTables(action: Action, n: nat, peer: int): Tables
    requires IsRead(action)
  {
    var task := SelectTask(5, action, 0);
    Register(Initial(3, 4), task).(fds := Initial(3, 4).fds,
      completed := [Completion(task, n, if action.Recv? then NoPeer else Peer(peer))])
  }

  /** The proactor while it serves the operation: it has taken its snapshot, and it handles the ready entry. */
  function ServingSystem(action: Action, run: IoRun): System
    requires IsRead(action)
  {
    var task := SelectTask(5, action, 0);
    System(Register(Initial(3, 4), task), 0, [run], true, false, [task], [])
  }

  lemma ServingPoll(action: Action)
    requires action.Recv? || action.Accept?
    ensures var ev, task, poll := Events(3, 4), SelectTask(5, action, 0), Poll(0, false, {5}, {});
            var s := ServingSystem(action, Snapped(Register(Initial(3, 4), task).fds));
            Next(ev, s, poll) == ServingSystem(action, Scanning(Fds(map[5 := task], map[])))
  {
    var task := SelectTask(5, action, 0);
    var fds := Register(Initial(3, 4), task).fds;
    assert Ready(fds.r, {5}, 4) == map[5 := task] && Ready(fds.w, {}, 4) == map[];
  }

  lemma ServingHandle(action: Action, n: nat, peer: int)
    requires action.Recv? || action.Accept?
    ensures var ev, task := Events(3, 4), SelectTask(5, action, 0);
            var s := ServingSystem(action, Scanning(Fds(map[5 := task], map[])));
            var s' := Next(ev, s, Handle(0, true, 5, Done(n, peer)));
            s'.tables == ServedTables(action, n, peer) && s'.harvested == []
  {
    var task := SelectTask(5, action, 0);
    assert IsFirst(map[5 := task], 5);
    assert Register(Initial(3, 4), task).fds.r - {5} == Initial(3, 4).fds.r;
  }

  lemma ServingStarts(action: Action)
    requires action.Recv? || action.Accept?
    ensures var w := Go(Events(3, 4), AwaitingFive(action) + [Io(Start)] + [Io(Begin)]);
            && w.io == ServingSystem(action, Snapped(Register(Initial(3, 4), SelectTask(5, action, 0)).fds))
            && w.awaits == AwaitingWorld(action).awaits && w.phase.Between? && w.inHand == [] && !w.broken
  {
    var ev := Events(3, 4);
    AwaitingFiveWorld(action);
    hide Go;
    GoStep(ev, AwaitingFive(action), Io(Start));
    GoStep(ev, AwaitingFive(action) + [Io(Start)], Io(Begin));
  }

  lemma ServingSteps(action: Action, n: nat, peer: int)
    requires action.Recv? || action.Accept?
    ensures var w := Go(Events(3, 4), AwaitingFive(action) + [Io(Start)] + [Io(Begin)]
                        + [Io(Poll(0, false, {5}, {}))] + [Io(Handle(0, true, 5, Done(n, peer)))]);
            && w.io.tables == ServedTables(action, n, peer) && w.io.harvested == []
            && w.awaits == AwaitingWorld(action).awaits && w.phase.Between? && w.inHand == [] && !w.broken
  {
    var ev := Events(3, 4);
    hide Go, Next, ServingSystem, ServedTables;
    ServingStarts(action);
    ServingPoll(action);
    ServingHandle(action, n, peer);
    var begun := AwaitingFive(action) + [Io(Start)] + [Io(Begin)];
    GoStep(ev, begun, Io(Poll(0, false, {5}, {})));
    GoStep(ev, begun + [Io(Poll(0, false, {5}, {}))], Io(Handle(0, true, 5, Done(n, peer))));
  }

  /** A whole way: the coroutine runs again, with the count, or with the descriptor and the peer's address. */
  lemma ServedCoroutineRuns(action: Action, n: nat, peer: int)
    requires action.Recv? || action.Accept?
    ensures var w := Go(Events(3, 4), AwaitingFive(action) + [Io(Start)] + [Io(Begin)]
                        + [Io(Poll(0, false, {5}, {}))] + [Io(Handle(0, true, 5, Done(n, peer)))]
                        + [Harvest] + [RunCallback]);
            && w.phase == Body(9) && !w.broken && w.inHand == []
            && var delivery := Delivery(n, if action.Recv? then NoPeer else Peer(peer));
               w.awaits == [Await(Shared(Some(delivery), Some(9)), 9, 1)]
  {
    var ev := Events(3, 4);
    var served := AwaitingFive(action) + [Io(Start)] + [Io(Begin)]
                  + [Io(Poll(0, false, {5}, {}))] + [Io(Handle(0, true, 5, Done(n, peer)))];
    ServingSteps(action, n, peer);
    hide Go;
    GoStep(ev, served, Harvest);
    GoStep(ev, served + [Harvest], RunCallback);
  }
}
