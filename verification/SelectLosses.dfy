/**
 What registering on a taken slot costs: an operation that is lost for ever. The operation that was
 displaced may still complete from a stale snapshot; then the one erased in its place is lost.
 */
module SelectLosses {
  import opened Select
  import opened SelectRuns

  ghost predicate InSnapshot(s: System, id: int) {
    exists i, read, fd ::
      0 <= i < |s.running| && fd in Side(s.running[i].fds, read) && Side(s.running[i].fds, read)[fd].id == id
  }

  /** Registered, and neither in a live map, nor completed, nor in the snapshot of a running `do_io`. */
  ghost predicate Lost(s: System, id: int) {
    0 <= id < |s.registered| && !Pending(s, id) && !Completed(s, id) && !InSnapshot(s, id)
  }

  /** A running `do_io` still has to handle an operation whose slot another one has taken. */
  ghost predicate Displaced(s: System, read: bool, fd: int) {
    && |s.running| == 1 && fd in Side(s.running[0].fds, read) && fd in Side(s.tables.fds, read)
    && var old_, new_ := Side(s.running[0].fds, read)[fd], Side(s.tables.fds, read)[fd];
       old_ != new_ && old_.id != NO_CALLBACK && new_.id != NO_CALLBACK
  }

  ghost predicate Loss(s: System) {
    (exists id :: Lost(s, id)) || (exists read, fd :: Displaced(s, read, fd))
  }

  /** Operations in maps and snapshots are the registered ones, at their own descriptor and direction. */
  lemma LiveIsKnown(ev: Events, s: System, read: bool, fd: int)
    requires Inv(ev, s) && fd in Side(s.tables.fds, read) && Side(s.tables.fds, read)[fd].id != NO_CALLBACK
    ensures var t := Side(s.tables.fds, read)[fd];
            t.fd == fd && IsRead(t.action) == read && Known(s, t) && !Completed(s, t.id) && Pending(s, t.id)
  {
    assert EntryOk(ev, s, read, fd, Side(s.tables.fds, read)[fd]);
  }

  lemma SnapshotIsKnown(ev: Events, s: System, i: nat, read: bool, fd: int)
    requires Inv(ev, s) && i < |s.running| && fd in Side(s.running[i].fds, read)
    requires Side(s.running[i].fds, read)[fd].id != NO_CALLBACK
    ensures var t := Side(s.running[i].fds, read)[fd];
            t.fd == fd && IsRead(t.action) == read && Known(s, t) && !Completed(s, t.id)
  {
    assert RunOk(ev, s, s.running[i]) && EntryOk(ev, s, read, fd, Side(s.running[i].fds, read)[fd]);
  }

  /** A registered operation is in a snapshot only at its own descriptor and direction. */
  lemma OnlyAtItsSlot(ev: Events, s: System, i: nat, read: bool, fd: int, task: SelectTask)
    requires Inv(ev, s) && i < |s.running| && fd in Side(s.running[i].fds, read) && Known(s, task)
    ensures Side(s.running[i].fds, read)[fd].id == task.id ==> fd == task.fd && read == IsRead(task.action)
  {
    assert RunOk(ev, s, s.running[i]) && EntryOk(ev, s, read, fd, Side(s.running[i].fds, read)[fd]);
  }

  lemma LiveIsPending(ev: Events, s: System, read: bool, fd: int)
    requires Inv(ev, s) && fd in Side(s.tables.fds, read)
    ensures Side(s.tables.fds, read)[fd].id != NO_CALLBACK ==> Pending(s, Side(s.tables.fds, read)[fd].id)
  {
    assert EntryOk(ev, s, read, fd, Side(s.tables.fds, read)[fd]);
  }

  lemma LossIsNotConserved(ev: Events, s: System)
    requires Inv(ev, s) && Loss(s)
    ensures !Conserved(s)
  {
    if read, fd :| Displaced(s, read, fd) {
      SnapshotIsKnown(ev, s, 0, read, fd);
      var id := Side(s.running[0].fds, read)[fd].id;
      assert !Pending(s, id) && !Completed(s, id);
    }
  }

  // ---------- what is lost stays lost ----------

  lemma RegisterKeepsLost(ev: Events, s: System, step: Step, id: int)
    requires Inv(ev, s) && Lost(s, id) && step.ClientRegister? && Enabled(ev, s, step)
    ensures Lost(Next(ev, s, step), id)
  {
    var s' := Next(ev, s, step);
    assert History(s') == History(s);
    assert Completed(s', id) <==> Completed(s, id);
    assert s'.running == s.running && (InSnapshot(s', id) <==> InSnapshot(s, id));
  }

  lemma HandleKeepsLost(ev: Events, s: System, step: Step, id: int)
    requires Inv(ev, s) && Lost(s, id) && step.Handle? && Enabled(ev, s, step)
    ensures Lost(Next(ev, s, step), id)
  {
    var s', f := Next(ev, s, step), s.running[step.i].fds;
    var task := Side(f, step.read)[step.fd];
    assert InSnapshot(s, task.id);
    if Completes(task, step.o) {
      assert History(s') == History(s) + [Bound(task, step.o)];
      CompletedAfter(s, s', Bound(task, step.o), id);
    } else {
      assert History(s') == History(s);
      assert Completed(s', id) <==> Completed(s, id);
    }
    assert s'.running == s.running[step.i := Scanning(Drop(f, step.read, step.fd))];
    SnapshotsShrink(s, s', id);
    assert !Pending(s', id);
  }

  lemma SnapshotsShrink(s: System, s': System, id: int)
    requires forall i, read, fd :: 0 <= i < |s'.running| && fd in Side(s'.running[i].fds, read) ==>
               exists k :: 0 <= k < |s.running| && fd in Side(s.running[k].fds, read) &&
                           Side(s.running[k].fds, read)[fd] == Side(s'.running[i].fds, read)[fd]
    ensures InSnapshot(s', id) ==> InSnapshot(s, id)
  {}

  lemma OthersKeepLost(ev: Events, s: System, step: Step, id: int)
    requires Inv(ev, s) && Lost(s, id) && Enabled(ev, s, step) && !step.ClientRegister? && !step.Handle?
    ensures Lost(Next(ev, s, step), id)
  {
    var s' := Next(ev, s, step);
    assert History(s') == History(s);
    assert Completed(s', id) <==> Completed(s, id);
    assert s'.tables.fds == s.tables.fds && s'.registered == s.registered;
    assert Pending(s', id) <==> Pending(s, id);
    if step.Begin? {
      assert s.running == [] && s'.running == [Snapped(s.tables.fds)];
      forall read, fd | fd in Side(s.tables.fds, read)
        ensures Side(s.tables.fds, read)[fd].id != id
      {
        LiveIsPending(ev, s, read, fd);
      }
    } else {
      OthersShrink(ev, s, step);
      SnapshotsShrink(s, s', id);
    }
  }

  lemma OthersShrink(ev: Events, s: System, step: Step)
    requires Inv(ev, s) && Enabled(ev, s, step) && !step.ClientRegister? && !step.Handle? && !step.Begin?
    ensures var s' := Next(ev, s, step);
            forall i, read, fd :: 0 <= i < |s'.running| && fd in Side(s'.running[i].fds, read) ==>
              exists k :: 0 <= k < |s.running| && fd in Side(s.running[k].fds, read) &&
                          Side(s.running[k].fds, read)[fd] == Side(s'.running[i].fds, read)[fd]
  {
    var s' := Next(ev, s, step);
    forall i, read, fd | 0 <= i < |s'.running| && fd in Side(s'.running[i].fds, read)
      ensures exists k :: 0 <= k < |s.running| && fd in Side(s.running[k].fds, read) &&
                          Side(s.running[k].fds, read)[fd] == Side(s'.running[i].fds, read)[fd]
    {
      assert i == 0 && fd in Side(s.running[0].fds, read);
    }
  }

  lemma LostStays(ev: Events, s: System, step: Step, id: int)
    requires Inv(ev, s) && Lost(s, id)
    ensures Lost(Next(ev, s, step), id)
  {
    if Enabled(ev, s, step) {
      if step.ClientRegister? {
        RegisterKeepsLost(ev, s, step, id);
      } else if step.Handle? {
        HandleKeepsLost(ev, s, step, id);
      } else {
        OthersKeepLost(ev, s, step, id);
      }
    }
  }

  // ---------- a displaced operation leaves a loss behind ----------

  /** When its own slot is gone from the snapshot, a displaced operation that has not completed is lost. */
  lemma DroppedIsLost(ev: Events, s: System, s': System, read: bool, fd: int)
    requires Inv(ev, s) && Displaced(s, read, fd)
    requires s'.tables.fds == s.tables.fds && s'.registered == s.registered && History(s') == History(s)
    requires |s'.running| <= 1
    requires forall r, k :: s'.running != [] && k in Side(s'.running[0].fds, r) ==>
               !(r == read && k == fd) && k in Side(s.running[0].fds, r) &&
               Side(s'.running[0].fds, r)[k] == Side(s.running[0].fds, r)[k]
    ensures Loss(s')
  {
    var t := Side(s.running[0].fds, read)[fd];
    SnapshotIsKnown(ev, s, 0, read, fd);
    assert Completed(s', t.id) <==> Completed(s, t.id);
    forall r, k | s'.running != [] && k in Side(s'.running[0].fds, r)
      ensures Side(s'.running[0].fds, r)[k].id != t.id
    {
      OnlyAtItsSlot(ev, s, 0, r, k, t);
    }
    assert Lost(s', t.id);
  }

  /** When it completes, the operation erased in its place is lost. */
  lemma ErasedIsLost(ev: Events, s: System, read: bool, fd: int, o: Outcome)
    requires Inv(ev, s) && Displaced(s, read, fd) && Enabled(ev, s, Handle(0, read, fd, o))
    requires Completes(Side(s.running[0].fds, read)[fd], o)
    ensures Loss(Next(ev, s, Handle(0, read, fd, o)))
  {
    var s' := Next(ev, s, Handle(0, read, fd, o));
    var old_, new_ := Side(s.running[0].fds, read)[fd], Side(s.tables.fds, read)[fd];
    LiveIsKnown(ev, s, read, fd);
    SnapshotIsKnown(ev, s, 0, read, fd);
    assert History(s') == History(s) + [Bound(old_, o)];
    CompletedAfter(s, s', Bound(old_, o), new_.id);
    assert s'.running == [Scanning(Drop(s.running[0].fds, read, fd))];
    forall r, k | k in Side(s'.running[0].fds, r)
      ensures Side(s'.running[0].fds, r)[k].id != new_.id
    {
      DropMeans(s.running[0].fds, read, fd, r, k);
      OnlyAtItsSlot(ev, s, 0, r, k, new_);
    }
    assert Lost(s', new_.id);
  }

  lemma HandleKeepsLoss(ev: Events, s: System, step: Step, read: bool, fd: int)
    requires Inv(ev, s) && Displaced(s, read, fd) && step.Handle? && Enabled(ev, s, step)
    ensures Loss(Next(ev, s, step))
  {
    var s', f := Next(ev, s, step), s.running[0].fds;
    var task := Side(f, step.read)[step.fd];
    assert step.i == 0 && s'.running == [Scanning(Drop(f, step.read, step.fd))];
    SnapshotIsKnownHere(ev, s, step);
    if step.read == read && step.fd == fd {
      if Completes(task, step.o) {
        ErasedIsLost(ev, s, read, fd, step.o);
      } else {
        forall r, k | k in Side(s'.running[0].fds, r)
          ensures !(r == read && k == fd) && k in Side(f, r) && Side(s'.running[0].fds, r)[k] == Side(f, r)[k]
        {
          DropMeans(f, read, fd, r, k);
        }
        assert History(s') == History(s);
        DroppedIsLost(ev, s, s', read, fd);
      }
    } else {
      DropMeans(f, step.read, step.fd, read, fd);
      DropMeans(s.tables.fds, step.read, step.fd, read, fd);
      assert Displaced(s', read, fd);
    }
  }

  lemma SnapshotIsKnownHere(ev: Events, s: System, step: Step)
    requires Inv(ev, s) && step.Handle? && Enabled(ev, s, step)
    ensures var task := Side(s.running[step.i].fds, step.read)[step.fd];
            task.fd == step.fd && IsRead(task.action) == step.read
  {
    assert RunOk(ev, s, s.running[step.i]);
    assert EntryOk(ev, s, step.read, step.fd, Side(s.running[step.i].fds, step.read)[step.fd]);
  }

  lemma PollKeepsLoss(ev: Events, s: System, step: Step, read: bool, fd: int)
    requires Inv(ev, s) && Displaced(s, read, fd) && step.Poll? && Enabled(ev, s, step)
    ensures Loss(Next(ev, s, step))
  {
    var s', f := Next(ev, s, step), s.running[0].fds;
    assert step.i == 0 && s'.tables == s.tables && History(s') == History(s);
    if s'.running != [] && fd in Side(s'.running[0].fds, read) {
      assert Displaced(s', read, fd);
    } else {
      forall r, k | s'.running != [] && k in Side(s'.running[0].fds, r)
        ensures !(r == read && k == fd) && k in Side(f, r) && Side(s'.running[0].fds, r)[k] == Side(f, r)[k]
      {}
      DroppedIsLost(ev, s, s', read, fd);
    }
  }

  lemma RegisterKeepsLoss(ev: Events, s: System, step: Step, read: bool, fd: int)
    requires Inv(ev, s) && Displaced(s, read, fd) && step.ClientRegister? && Enabled(ev, s, step)
    ensures Loss(Next(ev, s, step))
  {
    SnapshotIsKnown(ev, s, 0, read, fd);
    assert Displaced(Next(ev, s, step), read, fd);
  }

  lemma StepKeepsLoss(ev: Events, s: System, step: Step)
    requires Inv(ev, s) && Loss(s)
    ensures Loss(Next(ev, s, step))
  {
    if id :| Lost(s, id) {
      LostStays(ev, s, step, id);
    } else if Enabled(ev, s, step) {
      var read, fd :| Displaced(s, read, fd);
      if step.ClientRegister? {
        RegisterKeepsLoss(ev, s, step, read, fd);
      } else if step.Handle? {
        HandleKeepsLoss(ev, s, step, read, fd);
      } else if step.Poll? {
        PollKeepsLoss(ev, s, step, read, fd);
      } else {
        NothingElseRuns(ev, s, step, read, fd);
        assert Displaced(Next(ev, s, step), read, fd);
      }
    }
  }

  /** While a `do_io` has entries to handle, neither can it end nor can another begin. */
  lemma NothingElseRuns(ev: Events, s: System, step: Step, read: bool, fd: int)
    requires Inv(ev, s) && Displaced(s, read, fd) && Enabled(ev, s, step)
    requires step.Start? || step.Begin? || step.EndScan? || step.ClientHarvest?
    ensures Next(ev, s, step).running == s.running && Next(ev, s, step).tables.fds == s.tables.fds
  {}

  /** Registering on a taken slot is a loss. */
  lemma OverwritingIsLoss(ev: Events, s: System, step: Step)
    requires Inv(ev, s) && !FreeSlot(ev, s, step)
    ensures Loss(Next(ev, s, step))
  {
    var s', read, fd := Next(ev, s, step), IsRead(step.action), step.fd;
    var displaced := Side(s.tables.fds, read)[fd];
    assert EntryOk(ev, s, read, fd, displaced);
    assert History(s') == History(s) && s'.running == s.running;
    if s.running != [] && fd in Side(s.running[0].fds, read) {
      assert |s.running| == 1 && RunOk(ev, s, s.running[0]);
      assert EntryOk(ev, s, read, fd, Side(s.running[0].fds, read)[fd]);
      assert Displaced(s', read, fd);
    } else {
      forall i, r, k | 0 <= i < |s.running| && k in Side(s.running[i].fds, r)
        ensures Side(s.running[i].fds, r)[k].id != displaced.id
      {
        assert i == 0;
        OnlyAtItsSlot(ev, s, i, r, k, displaced);
      }
      assert Completed(s', displaced.id) <==> Completed(s, displaced.id);
      assert Lost(s', displaced.id);
    }
  }

  lemma AllFreeSnoc(ev: Events, steps: seq<Step>)
    requires steps != []
    ensures var before, last := steps[..|steps| - 1], steps[|steps| - 1];
            AllFree(ev, steps) <==> AllFree(ev, before) && FreeSlot(ev, Run(ev, before), last)
  {
    hide Run, FreeSlot;
    var before := steps[..|steps| - 1];
    assert forall i :: 0 <= i < |before| ==> before[..i] == steps[..i] && before[i] == steps[i];
  }

  lemma {:induction false} OverwritingRunsLose(ev: Events, steps: seq<Step>)
    requires !AllFree(ev, steps)
    ensures Loss(Run(ev, steps))
  {
    hide Loss, FreeSlot, Next, Inv;
    AllFreeSnoc(ev, steps);
    var before, last := steps[..|steps| - 1], steps[|steps| - 1];
    AlwaysInv(ev, before);
    if AllFree(ev, before) {
      OverwritingIsLoss(ev, Run(ev, before), last);
    } else {
      OverwritingRunsLose(ev, before);
      StepKeepsLoss(ev, Run(ev, before), last);
    }
  }

  /**
   At the end of a run every operation is accounted for, if and only if no registration of the run found
   another operation waiting on its descriptor and direction: what overwriting loses never comes back.
   */
  lemma ConservedAtEndIff(ev: Events, steps: seq<Step>)
    ensures Conserved(Run(ev, steps)) <==> AllFree(ev, steps)
  {
    if AllFree(ev, steps) {
      FreeRunsConserve(ev, steps);
    } else {
      OverwritingRunsLose(ev, steps);
      AlwaysInv(ev, steps);
      LossIsNotConserved(ev, Run(ev, steps));
    }
  }
}
