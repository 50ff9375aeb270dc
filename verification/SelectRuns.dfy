/**
 The select proactor under concurrency. A run interleaves, one lock block at a time, any number of
 client registrations and harvests with the steps of `do_io`, which keeps working on a snapshot that
 the live maps may have left behind.

 Operations are numbered by registration. The numbering, the list of harvested completions and the
 list of registered operations are history; the code keeps none of them.
 */
module SelectRuns {
  import opened Select

  /** A `do_io` between taking its snapshot and asking `select`, or while working off the ready entries. */
  datatype IoRun = Snapped(fds: Fds) | Scanning(fds: Fds)

  datatype System = System(
    tables: Tables,
    queued: nat,              // `do_io` tasks posted and not yet begun
    running: seq<IoRun>,      // `do_io` tasks begun and not yet ended
    started: bool,
    stopped: bool,            // some `do_io` has seen the stop event
    registered: seq<SelectTask>,
    harvested: seq<Completion>)

  datatype Step =
    | Start
    | ClientRegister(fd: int, action: Action)
    | Begin
    | Poll(i: nat, failed: bool, readyR: set<int>, readyW: set<int>)
    | Handle(i: nat, read: bool, fd: int, o: Outcome)
    | EndScan(i: nat)
    | ClientHarvest

  datatype Events = Events(stop: int, wakeup: int)

  function Boot(ev: Events): System {
    System(Initial(ev.stop, ev.wakeup), 0, [], false, false, [], [])
  }

  /** The descriptor count handed to `select`, computed when it is called. */
  function Nfds(t: Tables): int {
    Max(t.maxR, t.maxW) + 1
  }

  /** Entries that are not ready, and the wakeup event's, are passed over. */
  function Ready(m: map<int, SelectTask>, ready: set<int>, wakeup: int): map<int, SelectTask> {
    map fd | fd in m && fd in ready && fd != wakeup :: m[fd]
  }

  function Remove<T>(s: seq<T>, i: nat): seq<T>
    requires i < |s|
  {
    s[..i] + s[i + 1..]
  }

  /** `start` is called once; clients use their own descriptors. */
  predicate Enabled(ev: Events, s: System, step: Step) {
    match step
    case Start => !s.started
    case ClientRegister(fd, _) => fd != ev.stop && fd != ev.wakeup
    case Begin => s.queued > 0
    case Poll(i, _, readyR, readyW) =>
      i < |s.running| && s.running[i].Snapped? && readyR <= s.running[i].fds.r.Keys && readyW <= s.running[i].fds.w.Keys
    case Handle(i, read, fd, _) =>
      i < |s.running| && s.running[i].Scanning? && IsFirst(Side(s.running[i].fds, read), fd)
      && (read || s.running[i].fds.r == map[])
    case EndScan(i) =>
      i < |s.running| && s.running[i].Scanning? && s.running[i].fds == Fds(map[], map[])
    case ClientHarvest => true
  }

  function Apply(ev: Events, s: System, step: Step): System
    requires Enabled(ev, s, step)
  {
    match step
    case Start => s.(started := true, queued := s.queued + 1)
    case ClientRegister(fd, action) =>
      var task := SelectTask(fd, action, |s.registered|);
      s.(tables := Register(s.tables, task), registered := s.registered + [task])
    case Begin => s.(queued := s.queued - 1, running := s.running + [Snapped(s.tables.fds)])
    case Poll(i, failed, readyR, readyW) =>
      if failed then s.(queued := s.queued + 1, running := Remove(s.running, i))
      else if ev.stop in readyR then s.(stopped := true, running := Remove(s.running, i))
      else
        var fds := s.running[i].fds;
        s.(running := s.running[i := Scanning(Fds(Ready(fds.r, readyR, ev.wakeup), Ready(fds.w, readyW, ev.wakeup)))])
    case Handle(i, read, fd, o) =>
      var fds := s.running[i].fds;
      s.(tables := Finish(s.tables, Side(fds, read)[fd], o), running := s.running[i := Scanning(Drop(fds, read, fd))])
    case EndScan(i) => s.(queued := s.queued + 1, running := Remove(s.running, i))
    case ClientHarvest => s.(tables := s.tables.(completed := []), harvested := s.harvested + s.tables.completed)
  }

  function Next(ev: Events, s: System, step: Step): System {
    if Enabled(ev, s, step) then Apply(ev, s, step) else s
  }

  /** The state after a list of steps; a step that cannot happen is skipped. */
  function Run(ev: Events, steps: seq<Step>): System {
    if steps == [] then Boot(ev) else Next(ev, Run(ev, steps[..|steps| - 1]), steps[|steps| - 1])
  }

  // ---------- the invariant of all runs ----------

  /** Everything completed so far, in completion order. */
  function History(s: System): seq<Completion> {
    s.harvested + s.tables.completed
  }

  ghost predicate Known(s: System, task: SelectTask) {
    0 <= task.id < |s.registered| && s.registered[task.id] == task
  }

  ghost predicate Completed(s: System, id: int) {
    exists j :: 0 <= j < |History(s)| && History(s)[j].task.id == id
  }

  /** An entry of a map: the proactor's own event, or a registered operation that has not completed. */
  ghost predicate EntryOk(ev: Events, s: System, read: bool, fd: int, task: SelectTask) {
    && task.fd == fd && IsRead(task.action) == read
    && (if task.id == NO_CALLBACK then read && (fd == ev.stop || fd == ev.wakeup)
        else Known(s, task) && !Completed(s, task.id))
  }

  ghost predicate FdsOk(ev: Events, s: System, f: Fds) {
    forall read, fd :: fd in Side(f, read) ==>
      EntryOk(ev, s, read, fd, Side(f, read)[fd]) && fd <= (if read then s.tables.maxR else s.tables.maxW)
  }

  ghost predicate RunOk(ev: Events, s: System, run: IoRun) {
    && FdsOk(ev, s, run.fds)
    && (run.Snapped? ==> ev.stop in run.fds.r && ev.wakeup in run.fds.r)
    && (run.Scanning? ==> forall read, fd :: fd in Side(run.fds, read) ==> Side(run.fds, read)[fd].id != NO_CALLBACK)
  }

  ghost predicate HistoryOk(s: System) {
    && (forall j :: 0 <= j < |History(s)| ==> Known(s, History(s)[j].task))
    && (forall j, k :: 0 <= j < k < |History(s)| ==> History(s)[j].task.id != History(s)[k].task.id)
  }

  /** One `do_io` is queued or running, from `start` until one sees the stop event. */
  ghost predicate OneDoIo(s: System) {
    s.queued + |s.running| == if s.started && !s.stopped then 1 else 0
  }

  ghost predicate Inv(ev: Events, s: System) {
    && (forall id :: 0 <= id < |s.registered| ==> s.registered[id].id == id)
    && (forall id :: 0 <= id < |s.registered| ==> s.registered[id].fd != ev.stop && s.registered[id].fd != ev.wakeup)
    && OneDoIo(s)
    && (s.stopped ==> s.started)
    && FdsOk(ev, s, s.tables.fds)
    && ev.stop in s.tables.fds.r && ev.wakeup in s.tables.fds.r
    && (forall i :: 0 <= i < |s.running| ==> RunOk(ev, s, s.running[i]))
    && HistoryOk(s)
  }

  /** Entries stay good while operations are only added and bounds only grow, short of completing them. */
  lemma FdsStayOk(ev: Events, s: System, s': System, f: Fds)
    requires FdsOk(ev, s, f)
    requires s.registered <= s'.registered && s.tables.maxR <= s'.tables.maxR && s.tables.maxW <= s'.tables.maxW
    requires forall read, fd :: fd in Side(f, read) ==>
               Completed(s', Side(f, read)[fd].id) ==> Completed(s, Side(f, read)[fd].id)
    ensures FdsOk(ev, s', f)
  {}

  lemma RunStaysOk(ev: Events, s: System, s': System, run: IoRun)
    requires RunOk(ev, s, run)
    requires s.registered <= s'.registered && s.tables.maxR <= s'.tables.maxR && s.tables.maxW <= s'.tables.maxW
    requires History(s') == History(s)
    ensures RunOk(ev, s', run)
  {}

  lemma RegisterKeepsInv(ev: Events, s: System, fd: int, action: Action)
    requires Inv(ev, s) && Enabled(ev, s, ClientRegister(fd, action))
    ensures Inv(ev, Apply(ev, s, ClientRegister(fd, action)))
  {
    var s' := Apply(ev, s, ClientRegister(fd, action));
    var task := SelectTask(fd, action, |s.registered|);
    assert History(s') == History(s);
    assert EntryOk(ev, s', IsRead(action), fd, task) by {
      assert !Completed(s', task.id);
    }
    FdsStayOk(ev, s, s', s.tables.fds);
    forall r, k | k in Side(s'.tables.fds, r)
      ensures EntryOk(ev, s', r, k, Side(s'.tables.fds, r)[k])
      ensures k <= (if r then s'.tables.maxR else s'.tables.maxW)
    {
      if !(r == IsRead(action) && k == fd) {
        assert k in Side(s.tables.fds, r) && Side(s'.tables.fds, r)[k] == Side(s.tables.fds, r)[k];
      }
    }
    forall i | 0 <= i < |s'.running|
      ensures RunOk(ev, s', s'.running[i])
    {
      RunStaysOk(ev, s, s', s.running[i]);
    }
  }

  /** No other entry of a map holds the operation registered under the same number. */
  lemma DropRemovesTheOperation(ev: Events, s: System, f: Fds, read: bool, fd: int, task: SelectTask)
    requires FdsOk(ev, s, f) && EntryOk(ev, s, read, fd, task) && task.id != NO_CALLBACK
    ensures FdsOk(ev, s, Drop(f, read, fd))
    ensures forall r, k :: k in Side(Drop(f, read, fd), r) ==> Side(Drop(f, read, fd), r)[k].id != task.id
  {
    var g := Drop(f, read, fd);
    forall r, k | k in Side(g, r)
      ensures EntryOk(ev, s, r, k, Side(g, r)[k]) && Side(g, r)[k] == Side(f, r)[k] && Side(g, r)[k].id != task.id
    {
      assert k in Side(f, r) && EntryOk(ev, s, r, k, Side(f, r)[k]);
    }
    assert forall r, k :: k in Side(g, r) ==> k in Side(f, r);
  }

  lemma CompletedAfter(s: System, s': System, c: Completion, id: int)
    requires History(s') == History(s) + [c]
    ensures Completed(s', id) <==> Completed(s, id) || id == c.task.id
  {
    if Completed(s, id) {
      var j :| 0 <= j < |History(s)| && History(s)[j].task.id == id;
      assert History(s')[j].task.id == id;
    }
    assert History(s')[|History(s)|].task.id == c.task.id;
  }

  lemma HandleKeepsInv(ev: Events, s: System, i: nat, read: bool, fd: int, o: Outcome)
    requires Inv(ev, s) && Enabled(ev, s, Handle(i, read, fd, o))
    ensures Inv(ev, Apply(ev, s, Handle(i, read, fd, o)))
  {
    var s' := Apply(ev, s, Handle(i, read, fd, o));
    var run := s.running[i];
    var task := Side(run.fds, read)[fd];
    assert RunOk(ev, s, run) && EntryOk(ev, s, read, fd, task);
    DropRemovesTheOperation(ev, s, run.fds, read, fd, task);
    DropRemovesTheOperation(ev, s, s.tables.fds, read, fd, task);
    forall id | id != task.id
      ensures Completed(s', id) ==> Completed(s, id)
    {
      if Completes(task, o) {
        var c := Bound(task, o);
        assert History(s') == History(s) + [c];
        CompletedAfter(s, s', c, id);
      } else {
        assert History(s') == History(s);
      }
    }
    FdsStayOk(ev, s, s', Drop(run.fds, read, fd));
    FdsStayOk(ev, s, s', Drop(s.tables.fds, read, fd));
    if Completes(task, o) {
      assert History(s') == History(s) + [Bound(task, o)];
      assert HistoryOk(s');
    } else {
      assert History(s') == History(s);
      FdsStayOk(ev, s, s', s.tables.fds);
    }
    assert s'.running == [Scanning(Drop(run.fds, read, fd))];
    assert RunOk(ev, s', s'.running[0]) by {
      forall r, k | k in Side(s'.running[0].fds, r)
        ensures Side(s'.running[0].fds, r)[k].id != NO_CALLBACK
      {
        assert k in Side(run.fds, r);
      }
    }
  }

  lemma OtherStepsKeepInv(ev: Events, s: System, step: Step)
    requires Inv(ev, s) && Enabled(ev, s, step) && !step.ClientRegister? && !step.Handle?
    ensures Inv(ev, Apply(ev, s, step))
  {
    var s' := Apply(ev, s, step);
    assert History(s') == History(s);
    FdsStayOk(ev, s, s', s.tables.fds);
    forall i | 0 <= i < |s.running|
      ensures RunOk(ev, s', s.running[i])
    {
      RunStaysOk(ev, s, s', s.running[i]);
    }
    match step
    case Poll(i, failed, readyR, readyW) =>
      assert RunOk(ev, s', s.running[i]);
      if !failed && ev.stop !in readyR {
        var f, g := s.running[i].fds, s'.running[i].fds;
        forall r, k | k in Side(g, r)
          ensures EntryOk(ev, s', r, k, Side(g, r)[k]) && Side(g, r)[k].id != NO_CALLBACK
        {
          assert k in Side(f, r) && EntryOk(ev, s', r, k, Side(f, r)[k]);
        }
        assert forall r, k :: k in Side(g, r) ==> k in Side(f, r);
        assert RunOk(ev, s', s'.running[i]);
      }
    case _ =>
  }

  lemma StepKeepsInv(ev: Events, s: System, step: Step)
    requires Inv(ev, s)
    ensures Inv(ev, Next(ev, s, step))
  {
    if Enabled(ev, s, step) {
      match step
      case ClientRegister(fd, action) => RegisterKeepsInv(ev, s, fd, action);
      case Handle(i, read, fd, o) => HandleKeepsInv(ev, s, i, read, fd, o);
      case _ => OtherStepsKeepInv(ev, s, step);
    }
  }

  lemma {:induction false} AlwaysInv(ev: Events, steps: seq<Step>)
    ensures Inv(ev, Run(ev, steps))
  {
    if steps != [] {
      AlwaysInv(ev, steps[..|steps| - 1]);
      StepKeepsInv(ev, Run(ev, steps[..|steps| - 1]), steps[|steps| - 1]);
    }
  }

  // ---------- at most once, and one do_io ----------

  /** Whatever the clients overwrite, no operation completes twice, and nothing completes that was not registered. */
  lemma AtMostOnce(ev: Events, steps: seq<Step>)
    ensures var h := History(Run(ev, steps));
            && (forall j :: 0 <= j < |h| ==> Known(Run(ev, steps), h[j].task))
            && (forall j, k :: 0 <= j < k < |h| ==> h[j].task.id != h[k].task.id)
  {
    AlwaysInv(ev, steps);
  }

  lemma {:induction false} RunsConcatenate(ev: Events, steps: seq<Step>, more: seq<Step>)
    requires more != []
    ensures Run(ev, steps + more) == Next(ev, Run(ev, steps + more[..|more| - 1]), more[|more| - 1])
  {
    var all := steps + more;
    assert all[..|all| - 1] == steps + more[..|more| - 1];
  }

  /** There is always exactly one `do_io` after `start`, until the stop event is seen. */
  lemma ExactlyOneDoIo(ev: Events, steps: seq<Step>)
    ensures var s := Run(ev, steps); s.queued + |s.running| == if s.started && !s.stopped then 1 else 0
  {
    AlwaysInv(ev, steps);
  }

  /** Once a `do_io` has seen the stop event there is none any more, and nothing more completes. */
  lemma {:induction false} StoppedForever(ev: Events, steps: seq<Step>, more: seq<Step>)
    requires Run(ev, steps).stopped
    ensures var s := Run(ev, steps + more);
            s.stopped && s.queued == 0 && s.running == [] && History(s) == History(Run(ev, steps))
  {
    AlwaysInv(ev, steps);
    if more == [] {
      assert steps + more == steps;
    } else {
      RunsConcatenate(ev, steps, more);
      StoppedForever(ev, steps, more[..|more| - 1]);
      AlwaysInv(ev, steps + more[..|more| - 1]);
    }
  }

  /** Completions are only ever added. */
  lemma {:induction false} HistoryGrows(ev: Events, steps: seq<Step>, more: seq<Step>)
    ensures History(Run(ev, steps)) <= History(Run(ev, steps + more))
  {
    if more == [] {
      assert steps + more == steps;
    } else {
      hide Run, Next;
      RunsConcatenate(ev, steps, more);
      HistoryGrows(ev, steps, more[..|more| - 1]);
      StepAddsHistory(ev, Run(ev, steps + more[..|more| - 1]), more[|more| - 1]);
    }
  }

  lemma StepAddsHistory(ev: Events, s: System, step: Step)
    ensures History(s) <= History(Next(ev, s, step))
  {}

  // ---------- the same, told by the steps and not by the flags ----------

  /** The step by which a `do_io` sees the stop event. */
  predicate SeesStop(ev: Events, s: System, step: Step) {
    Enabled(ev, s, step) && step.Poll? && !step.failed && ev.stop in step.readyR
  }

  ghost predicate StopSeen(ev: Events, steps: seq<Step>) {
    exists i :: 0 <= i < |steps| && SeesStop(ev, Run(ev, steps[..i]), steps[i])
  }

  lemma StopSeenSnoc(ev: Events, steps: seq<Step>)
    requires steps != []
    ensures var before, last := steps[..|steps| - 1], steps[|steps| - 1];
            StopSeen(ev, steps) <==> StopSeen(ev, before) || SeesStop(ev, Run(ev, before), last)
  {
    hide Run, SeesStop;
    var n := |steps| - 1;
    var before := steps[..n];
    assert forall i :: 0 <= i < n ==> before[..i] == steps[..i] && before[i] == steps[i];
    if i :| 0 <= i < |before| && SeesStop(ev, Run(ev, before[..i]), before[i]) {
      assert SeesStop(ev, Run(ev, steps[..i]), steps[i]);
    }
    if i :| 0 <= i < |steps| && SeesStop(ev, Run(ev, steps[..i]), steps[i]) {
      assert i < n ==> SeesStop(ev, Run(ev, before[..i]), before[i]);
    }
  }

  lemma StepFlags(ev: Events, s: System, step: Step)
    ensures Next(ev, s, step).stopped <==> s.stopped || SeesStop(ev, s, step)
    ensures Next(ev, s, step).started <==> s.started || step.Start?
  {}

  lemma {:induction false} FlagsMean(ev: Events, steps: seq<Step>)
    ensures Run(ev, steps).stopped <==> StopSeen(ev, steps)
    ensures Run(ev, steps).started <==> Start in steps
  {
    if steps != [] {
      var before, last := steps[..|steps| - 1], steps[|steps| - 1];
      FlagsMean(ev, before);
      hide Next, SeesStop, StopSeen;
      StopSeenSnoc(ev, steps);
      StepFlags(ev, Run(ev, before), last);
      assert steps == before + [last];
    }
  }

  /** After `start` exactly one `do_io` is queued or running until one sees the stop event, and none after. */
  lemma OneDoIoUntilStop(ev: Events, steps: seq<Step>)
    ensures var s := Run(ev, steps);
            s.queued + |s.running| == if Start in steps && !StopSeen(ev, steps) then 1 else 0
  {
    ExactlyOneDoIo(ev, steps);
    FlagsMean(ev, steps);
  }

  /** A `do_io` that sees the stop event is the last: whatever follows, none runs and nothing completes. */
  lemma StopEndsDoIo(ev: Events, steps: seq<Step>, i: nat, readyR: set<int>, readyW: set<int>, more: seq<Step>)
    requires Enabled(ev, Run(ev, steps), Poll(i, false, readyR, readyW)) && ev.stop in readyR
    ensures var s := Run(ev, steps + [Poll(i, false, readyR, readyW)] + more);
            s.queued == 0 && s.running == [] && History(s) == History(Run(ev, steps))
  {
    var poll := Poll(i, false, readyR, readyW);
    RunStep(ev, steps, poll, Run(ev, steps));
    assert History(Run(ev, steps + [poll])) == History(Run(ev, steps));
    StepFlags(ev, Run(ev, steps), poll);
    StoppedForever(ev, steps + [poll], more);
  }

  /** A `select` that fails, and a scan worked off, post the next `do_io`. */
  lemma OtherwiseDoIoIsPosted(ev: Events, steps: seq<Step>, step: Step)
    requires Enabled(ev, Run(ev, steps), step) && ((step.Poll? && step.failed) || step.EndScan?)
    ensures var s, s' := Run(ev, steps), Run(ev, steps + [step]);
            && s'.queued == 1 && s'.running == [] && s'.tables == s.tables && s'.harvested == s.harvested
  {
    RunStep(ev, steps, step, Run(ev, steps));
    AlwaysInv(ev, steps);
  }

  // ---------- what completions carry ----------

  /**
   A handled operation completes with the count or descriptor of its system call or with its negated error
   number, and unless it sends or receives plainly with the address the call left; connecting always
   completes, with the descriptor; nothing completes when the call says to try again.
   */
  lemma CompletionsCarry(ev: Events, steps: seq<Step>, i: nat, read: bool, fd: int, o: Outcome)
    requires Enabled(ev, Run(ev, steps), Handle(i, read, fd, o))
    ensures var s, s' := Run(ev, steps), Run(ev, steps + [Handle(i, read, fd, o)]);
            var task := Side(s.running[i].fds, read)[fd];
            && task.fd == fd
            && s'.harvested == s.harvested
            && if task.action.Connect? then s'.tables.completed == s.tables.completed + [Completion(task, fd, NoPeer)]
               else if o.Again? then s'.tables == s.tables
               else
                 var value := if o.Done? then o.n else 0 - o.errno;
                 var peer := if task.action.Accept? || task.action.Recvfrom? then Peer(o.peer) else NoPeer;
                 s'.tables.completed == s.tables.completed + [Completion(task, value, peer)]
  {
    RunStep(ev, steps, Handle(i, read, fd, o), Run(ev, steps));
    AlwaysInv(ev, steps);
    var s := Run(ev, steps);
    assert RunOk(ev, s, s.running[i]) && EntryOk(ev, s, read, fd, Side(s.running[i].fds, read)[fd]);
  }

  // ---------- the descriptors given to select ----------

  /**
   The count given to `select` exceeds every descriptor of the snapshot, though it is computed from
   bounds read later, and the event descriptors are in every snapshot.
   */
  lemma SelectCoversTheSnapshot(ev: Events, steps: seq<Step>, i: nat)
    requires i < |Run(ev, steps).running|
    ensures var s := Run(ev, steps); var f := s.running[i].fds;
            && (forall read, fd :: fd in Side(f, read) ==> fd < Nfds(s.tables))
            && Nfds(s.tables) == 1 + (if s.tables.maxR < s.tables.maxW then s.tables.maxW else s.tables.maxR)
            && (s.running[i].Snapped? ==> ev.stop in f.r && ev.wakeup in f.r)
  {
    AlwaysInv(ev, steps);
    assert RunOk(ev, Run(ev, steps), Run(ev, steps).running[i]);
  }

  lemma StepBounds(ev: Events, s: System, step: Step)
    ensures s.tables.maxR <= Next(ev, s, step).tables.maxR && s.tables.maxW <= Next(ev, s, step).tables.maxW
  {}

  lemma {:induction false} BoundsNeverDecrease(ev: Events, steps: seq<Step>, more: seq<Step>)
    ensures Run(ev, steps).tables.maxR <= Run(ev, steps + more).tables.maxR
    ensures Run(ev, steps).tables.maxW <= Run(ev, steps + more).tables.maxW
  {
    if more == [] {
      assert steps + more == steps;
    } else {
      hide Next;
      RunsConcatenate(ev, steps, more);
      BoundsNeverDecrease(ev, steps, more[..|more| - 1]);
      StepBounds(ev, Run(ev, steps + more[..|more| - 1]), more[|more| - 1]);
    }
  }

  /** Whatever was registered at some point stays below every later count, and the events stay registered. */
  lemma LaterCountsCover(ev: Events, steps: seq<Step>, more: seq<Step>)
    ensures forall read, fd :: fd in Side(Run(ev, steps).tables.fds, read) ==> fd < Nfds(Run(ev, steps + more).tables)
    ensures ev.stop in Run(ev, steps + more).tables.fds.r && ev.wakeup in Run(ev, steps + more).tables.fds.r
  {
    AlwaysInv(ev, steps);
    AlwaysInv(ev, steps + more);
    BoundsNeverDecrease(ev, steps, more);
  }

  // ---------- nothing is lost, exactly when no registration finds its slot taken ----------

  ghost predicate Pending(s: System, id: int) {
    && 0 <= id < |s.registered|
    && var task := s.registered[id];
       task.fd in Side(s.tables.fds, IsRead(task.action)) && Side(s.tables.fds, IsRead(task.action))[task.fd] == task
  }

  /** Every registered operation is in exactly one place: a live map, the completions, or the harvest. */
  ghost predicate Conserved(s: System) {
    && HistoryOk(s)
    && forall id :: 0 <= id < |s.registered| ==> (Pending(s, id) <==> !Completed(s, id))
  }

  /** What a client can check before the call: no operation waits on this descriptor in this direction. */
  predicate FreeSlot(ev: Events, s: System, step: Step) {
    step.ClientRegister? && Enabled(ev, s, step) ==> step.fd !in Side(s.tables.fds, IsRead(step.action))
  }

  ghost predicate AllFree(ev: Events, steps: seq<Step>) {
    forall i :: 0 <= i < |steps| ==> FreeSlot(ev, Run(ev, steps[..i]), steps[i])
  }

  /** What a `do_io` is working on is still what the live maps hold. */
  ghost predicate Current(s: System) {
    forall i, read, fd :: 0 <= i < |s.running| && fd in Side(s.running[i].fds, read) ==>
      fd in Side(s.tables.fds, read) && Side(s.tables.fds, read)[fd] == Side(s.running[i].fds, read)[fd]
  }

  lemma DropMeans(f: Fds, read: bool, fd: int, r: bool, k: int)
    ensures k in Side(Drop(f, read, fd), r) <==> k in Side(f, r) && !(r == read && k == fd)
    ensures k in Side(Drop(f, read, fd), r) ==> Side(Drop(f, read, fd), r)[k] == Side(f, r)[k]
  {}

  lemma HandleKeepsCurrent(ev: Events, s: System, i: nat, read: bool, fd: int, o: Outcome)
    requires Inv(ev, s) && Enabled(ev, s, Handle(i, read, fd, o)) && Current(s)
    ensures Current(Apply(ev, s, Handle(i, read, fd, o)))
  {
    var s', f := Apply(ev, s, Handle(i, read, fd, o)), s.running[i].fds;
    var task := Side(f, read)[fd];
    assert RunOk(ev, s, s.running[i]) && EntryOk(ev, s, read, fd, task);
    assert s'.tables.fds == if Completes(task, o) then Drop(s.tables.fds, read, fd) else s.tables.fds;
    assert i == 0 && s'.running == [Scanning(Drop(f, read, fd))];
    hide Drop, Inv, Apply, Enabled;
    forall r, k | k in Side(s'.running[0].fds, r)
      ensures k in Side(s'.tables.fds, r) && Side(s'.tables.fds, r)[k] == Side(s'.running[0].fds, r)[k]
    {
      DropMeans(f, read, fd, r, k);
      DropMeans(s.tables.fds, read, fd, r, k);
    }
  }

  lemma HandleConserves(ev: Events, s: System, i: nat, read: bool, fd: int, o: Outcome)
    requires Inv(ev, s) && Enabled(ev, s, Handle(i, read, fd, o)) && Conserved(s) && Current(s)
    ensures Conserved(Apply(ev, s, Handle(i, read, fd, o))) && Current(Apply(ev, s, Handle(i, read, fd, o)))
  {
    var s' := Apply(ev, s, Handle(i, read, fd, o));
    var task := Side(s.running[i].fds, read)[fd];
    HandleKeepsInv(ev, s, i, read, fd, o);
    HandleKeepsCurrent(ev, s, i, read, fd, o);
    assert RunOk(ev, s, s.running[i]) && EntryOk(ev, s, read, fd, task);
    if Completes(task, o) {
      var c := Bound(task, o);
      assert History(s') == History(s) + [c];
      forall id | 0 <= id < |s'.registered|
        ensures Pending(s', id) <==> !Completed(s', id)
      {
        CompletedAfter(s, s', c, id);
        if id != task.id && Pending(s, id) {
          var other := s.registered[id];
          assert !(other.fd == fd && IsRead(other.action) == read);
        }
      }
    } else {
      SameTablesConserved(s, s');
    }
  }

  /** Whatever else a step does. */
  lemma SameTablesConserved(s: System, s': System)
    requires Conserved(s) && s'.tables.fds == s.tables.fds && s'.registered == s.registered && History(s') == History(s)
    ensures Conserved(s')
  {
    forall id | 0 <= id < |s'.registered|
      ensures Pending(s', id) <==> !Completed(s', id)
    {
      assert Pending(s', id) <==> Pending(s, id);
      assert Completed(s', id) <==> Completed(s, id);
    }
  }

  lemma RegisterKeepsCurrent(ev: Events, s: System, step: Step)
    requires Current(s) && step.ClientRegister? && Enabled(ev, s, step) && FreeSlot(ev, s, step)
    ensures Current(Next(ev, s, step))
  {
    var s' := Next(ev, s, step);
    forall i, r, k | 0 <= i < |s'.running| && k in Side(s'.running[i].fds, r)
      ensures k in Side(s'.tables.fds, r) && Side(s'.tables.fds, r)[k] == Side(s'.running[i].fds, r)[k]
    {
      assert k in Side(s.tables.fds, r) && !(r == IsRead(step.action) && k == step.fd);
    }
  }

  lemma RegisterConserves(ev: Events, s: System, step: Step)
    requires Inv(ev, s) && Conserved(s) && Current(s)
    requires step.ClientRegister? && Enabled(ev, s, step) && FreeSlot(ev, s, step)
    ensures Conserved(Next(ev, s, step)) && Current(Next(ev, s, step))
  {
    var s' := Next(ev, s, step);
    RegisterKeepsCurrent(ev, s, step);
    RegisterKeepsInv(ev, s, step.fd, step.action);
    assert History(s') == History(s);
    forall id | 0 <= id < |s'.registered|
      ensures Pending(s', id) <==> !Completed(s', id)
    {
      assert Completed(s', id) <==> Completed(s, id);
      if id < |s.registered| {
        var task := s.registered[id];
        assert s'.registered[id] == task && Known(s, task);
        if IsRead(task.action) == IsRead(step.action) && task.fd == step.fd {
          assert !Pending(s, id) && !Pending(s', id);
        } else {
          assert Pending(s, id) <==> Pending(s', id);
        }
      } else {
        assert !Completed(s, id);
      }
    }
    hide Current, Enabled;
  }

  lemma StepConserves(ev: Events, s: System, step: Step)
    requires Inv(ev, s) && Conserved(s) && Current(s) && FreeSlot(ev, s, step)
    ensures Conserved(Next(ev, s, step)) && Current(Next(ev, s, step))
  {
    if Enabled(ev, s, step) {
      match step
      case ClientRegister(_, _) => RegisterConserves(ev, s, step);
      case Handle(i, read, fd, o) => HandleConserves(ev, s, i, read, fd, o);
      case _ => OtherStepsConserve(ev, s, step);
    }
  }

  lemma PollKeepsCurrent(ev: Events, s: System, step: Step)
    requires Inv(ev, s) && Current(s) && step.Poll? && Enabled(ev, s, step)
    ensures Current(Apply(ev, s, step))
  {
    var s', f := Apply(ev, s, step), s.running[step.i].fds;
    assert step.i == 0 && |s.running| == 1;
    assert s'.tables == s.tables;
    assert s'.running == [] ||
           s'.running == [Scanning(Fds(Ready(f.r, step.readyR, ev.wakeup), Ready(f.w, step.readyW, ev.wakeup)))];
    hide Inv, Apply, Enabled;
    forall r, k | s'.running != [] && k in Side(s'.running[0].fds, r)
      ensures k in Side(s'.tables.fds, r) && Side(s'.tables.fds, r)[k] == Side(s'.running[0].fds, r)[k]
    {
      assert k in Side(s.running[0].fds, r);
    }
  }

  /** The number of running `do_io` tasks is at most one. */
  lemma OtherStepsRun(ev: Events, s: System, step: Step)
    requires Inv(ev, s) && Enabled(ev, s, step) && !step.ClientRegister? && !step.Handle? && !step.Poll?
    ensures var s' := Apply(ev, s, step);
            && s'.tables.fds == s.tables.fds
            && (s'.running == s.running || s'.running == [] || s'.running == [Snapped(s.tables.fds)])
  {}

  lemma OtherStepsKeepCurrent(ev: Events, s: System, step: Step)
    requires Inv(ev, s) && Current(s)
    requires Enabled(ev, s, step) && !step.ClientRegister? && !step.Handle?
    ensures Current(Next(ev, s, step))
  {
    hide Inv, Enabled, Apply;
    if step.Poll? {
      PollKeepsCurrent(ev, s, step);
    } else {
      OtherStepsRun(ev, s, step);
    }
  }

  lemma OtherStepsConserve(ev: Events, s: System, step: Step)
    requires Inv(ev, s) && Conserved(s) && Current(s)
    requires Enabled(ev, s, step) && !step.ClientRegister? && !step.Handle?
    ensures Conserved(Next(ev, s, step)) && Current(Next(ev, s, step))
  {
    hide Conserved, Current, Inv;
    OtherStepsKeepCurrent(ev, s, step);
    assert History(Next(ev, s, step)) == History(s);
    SameTablesConserved(s, Next(ev, s, step));
  }

  lemma {:induction false} FreeRunsConserve(ev: Events, steps: seq<Step>)
    requires AllFree(ev, steps)
    ensures Conserved(Run(ev, steps)) && Current(Run(ev, steps))
  {
    if steps != [] {
      var before := steps[..|steps| - 1];
      assert AllFree(ev, before) by {
        forall i | 0 <= i < |before| ensures FreeSlot(ev, Run(ev, before[..i]), before[i]) {
          assert before[..i] == steps[..i];
        }
      }
      FreeRunsConserve(ev, before);
      AlwaysInv(ev, before);
      StepConserves(ev, Run(ev, before), steps[|steps| - 1]);
    }
  }

  /** Registering on a taken slot drops the operation that was waiting there. */
  lemma OverwritingLoses(ev: Events, s: System, step: Step)
    requires Inv(ev, s) && !FreeSlot(ev, s, step)
    ensures !Conserved(Next(ev, s, step))
  {
    var s' := Next(ev, s, step);
    var read := IsRead(step.action);
    var displaced := Side(s.tables.fds, read)[step.fd];
    assert EntryOk(ev, s, read, step.fd, displaced);
    assert History(s') == History(s);
    assert !Completed(s', displaced.id) && !Pending(s', displaced.id);
  }

  /**
   In all states of a run every operation is accounted for, if and only if no registration of the run
   finds another operation waiting on its descriptor and direction.
   */
  lemma ConservedIffSlotsFree(ev: Events, steps: seq<Step>)
    ensures (forall i :: 0 <= i <= |steps| ==> Conserved(Run(ev, steps[..i]))) <==> AllFree(ev, steps)
  {
    if AllFree(ev, steps) {
      forall i | 0 <= i <= |steps|
        ensures Conserved(Run(ev, steps[..i]))
      {
        forall j | 0 <= j < i ensures FreeSlot(ev, Run(ev, steps[..i][..j]), steps[..i][j]) {
          assert steps[..i][..j] == steps[..j];
        }
        FreeRunsConserve(ev, steps[..i]);
      }
    } else {
      var i :| 0 <= i < |steps| && !FreeSlot(ev, Run(ev, steps[..i]), steps[i]);
      AlwaysInv(ev, steps[..i]);
      OverwritingLoses(ev, Run(ev, steps[..i]), steps[i]);
      assert steps[..i + 1][..i] == steps[..i];
      assert !Conserved(Run(ev, steps[..i + 1]));
    }
  }

  /** Then each erase removes exactly the operation it completes, however stale the snapshot. */
  lemma EraseIsExact(ev: Events, steps: seq<Step>, i: nat, read: bool, fd: int, o: Outcome)
    requires AllFree(ev, steps) && Enabled(ev, Run(ev, steps), Handle(i, read, fd, o))
    ensures var s := Run(ev, steps); var task := Side(s.running[i].fds, read)[fd];
            && fd in Side(s.tables.fds, read) && Side(s.tables.fds, read)[fd] == task
            && (Completes(task, o) ==>
                 var s' := Run(ev, steps + [Handle(i, read, fd, o)]);
                 && History(s') == History(s) + [Bound(task, o)]
                 && forall id :: Pending(s', id) <==> Pending(s, id) && id != task.id)
  {
    var s, step := Run(ev, steps), Handle(i, read, fd, o);
    var task := Side(s.running[i].fds, read)[fd];
    FreeRunsConserve(ev, steps);
    AlwaysInv(ev, steps);
    assert RunOk(ev, s, s.running[i]) && EntryOk(ev, s, read, fd, task);
    if Completes(task, o) {
      assert (steps + [step])[..|steps|] == steps;
      var s' := Run(ev, steps + [step]);
      assert s' == Apply(ev, s, step);
      assert History(s') == History(s) + [Bound(task, o)];
      forall id | Pending(s, id) && id != task.id
        ensures Pending(s', id)
      {
        var other := s.registered[id];
        assert !(other.fd == fd && IsRead(other.action) == read);
      }
    }
  }

  lemma RunStep(ev: Events, steps: seq<Step>, step: Step, s: System)
    requires Run(ev, steps) == s
    ensures Run(ev, steps + [step]) == Next(ev, s, step)
  {}

  const SCAN_OF_FIVE := [Start, ClientRegister(5, Recv), Begin, Poll(0, false, {5}, {})]

  lemma ScanOfFiveState()
    ensures var first := SelectTask(5, Recv, 0); var t := Initial(3, 4);
            Run(Events(3, 4), SCAN_OF_FIVE) ==
            System(Register(t, first), 0, [Scanning(Fds(map[5 := first], map[]))], true, false, [first], [])
  {
    var ev, first := Events(3, 4), SelectTask(5, Recv, 0);
    var t := Register(Initial(3, 4), first);
    RunStep(ev, [], Start, Boot(ev));
    RunStep(ev, [Start], ClientRegister(5, Recv), Boot(ev).(started := true, queued := 1));
    RunStep(ev, [Start] + [ClientRegister(5, Recv)], Begin, System(t, 1, [], true, false, [first], []));
    RunStep(ev, [Start] + [ClientRegister(5, Recv)] + [Begin], Poll(0, false, {5}, {}),
            System(t, 0, [Snapped(t.fds)], true, false, [first], []));
    assert [] + [Start] == [Start];
    assert SCAN_OF_FIVE == [Start] + [ClientRegister(5, Recv)] + [Begin] + [Poll(0, false, {5}, {})];
    assert Ready(t.fds.r, {5}, 4) == map[5 := first] && Ready(t.fds.w, {}, 4) == map[];
  }

  /**
   A run where overwriting loses an operation: a second receive is registered on descriptor 5 while
   the first is being completed from the snapshot, and is erased in its place.
   */
  lemma StaleEraseExample()
    ensures var s := Run(Events(3, 4), SCAN_OF_FIVE + [ClientRegister(5, Recv), Handle(0, true, 5, Done(1, 0))]);
            |s.registered| == 2 && Completed(s, 0) && !Pending(s, 1) && !Completed(s, 1)
  {
    var ev, first, second := Events(3, 4), SelectTask(5, Recv, 0), SelectTask(5, Recv, 1);
    var t := Register(Initial(3, 4), first);
    var s4 := System(t, 0, [Scanning(Fds(map[5 := first], map[]))], true, false, [first], []);
    var s5 := s4.(tables := Register(t, second), registered := [first, second]);
    ScanOfFiveState();
    RunStep(ev, SCAN_OF_FIVE, ClientRegister(5, Recv), s4);
    assert IsFirst(map[5 := first], 5);
    RunStep(ev, SCAN_OF_FIVE + [ClientRegister(5, Recv)], Handle(0, true, 5, Done(1, 0)), s5);
    assert SCAN_OF_FIVE + [ClientRegister(5, Recv)] + [Handle(0, true, 5, Done(1, 0))]
        == SCAN_OF_FIVE + [ClientRegister(5, Recv), Handle(0, true, 5, Done(1, 0))];
    var s6 := Next(ev, s5, Handle(0, true, 5, Done(1, 0)));
    assert History(s6)[0] == Completion(first, 1, NoPeer) && |History(s6)| == 1;
  }
}
