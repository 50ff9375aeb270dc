/**
 The steps of one `do_io`, taken without interruption, are the two calls of `on_io_event` that the
 class `Select` proves in loop form.
 */
module SelectScan {
  import opened Select
  import opened SelectRuns

  /** The entries a scan acts on. */
  function Chosen(todo: map<int, SelectTask>, act: set<int>): map<int, SelectTask> {
    map fd | fd in todo && fd in act :: todo[fd]
  }

  /** The lock blocks of a scan of `todo` by the i-th running `do_io`. */
  ghost function HandleSteps(i: nat, read: bool, todo: map<int, SelectTask>, act: set<int>,
                             outcomes: int -> Outcome): seq<Step>
    decreases |todo|
  {
    if todo == map[] then []
    else
      FirstExists(todo);
      var fd :| IsFirst(todo, fd);
      (if fd in act then [Handle(i, read, fd, outcomes(fd))] else []) + HandleSteps(i, read, todo - {fd}, act, outcomes)
  }

  ghost predicate AtScan(s: System, i: nat, read: bool, m: map<int, SelectTask>) {
    && i < |s.running| && s.running[i].Scanning?
    && Side(s.running[i].fds, read) == m
    && (read || s.running[i].fds.r == map[])
  }

  /** The scan has worked off this side and has touched no other part of the system. */
  ghost predicate Scanned(s: System, s': System, i: nat, read: bool, tables: Tables)
    requires i < |s.running| && s.running[i].Scanning?
  {
    var rest := if read then Fds(map[], s.running[i].fds.w) else Fds(s.running[i].fds.r, map[]);
    s' == s.(tables := tables, running := s.running[i := Scanning(rest)])
  }

  lemma ChosenFirst(todo: map<int, SelectTask>, act: set<int>, fd: int)
    requires IsFirst(todo, fd)
    ensures fd in act ==> IsFirst(Chosen(todo, act), fd) && Chosen(todo, act)[fd] == todo[fd]
    ensures fd in act ==> Chosen(todo, act) - {fd} == Chosen(todo - {fd}, act)
    ensures fd !in act ==> Chosen(todo, act) == Chosen(todo - {fd}, act)
  {}

  /** One lock block of a scan. */
  lemma HandleOne(ev: Events, s: System, i: nat, read: bool, m: map<int, SelectTask>, fd: int, o: Outcome)
    requires AtScan(s, i, read, m) && IsFirst(m, fd)
    ensures var s' := Next(ev, s, Handle(i, read, fd, o));
            && AtScan(s', i, read, m - {fd})
            && s' == s.(tables := Finish(s.tables, m[fd], o),
                       running := s.running[i := Scanning(Drop(s.running[i].fds, read, fd))])
  {
    hide Finish;
  }

  lemma {:induction false} ScanAsSteps(
    ev: Events, steps: seq<Step>, i: nat, read: bool, todo: map<int, SelectTask>, act: set<int>,
    outcomes: int -> Outcome)
    requires AtScan(Run(ev, steps), i, read, Chosen(todo, act))
    ensures Scanned(Run(ev, steps), Run(ev, steps + HandleSteps(i, read, todo, act, outcomes)), i, read,
                    Scan(Run(ev, steps).tables, todo, act, outcomes))
    decreases |todo|
  {
    hide Run, Finish, Next;
    var s := Run(ev, steps);
    if todo == map[] {
      assert steps + HandleSteps(i, read, todo, act, outcomes) == steps;
      assert s.running[i := s.running[i]] == s.running;
    } else {
      FirstExists(todo);
      var fd :| IsFirst(todo, fd);
      ChosenFirst(todo, act, fd);
      var rest := HandleSteps(i, read, todo - {fd}, act, outcomes);
      if fd in act {
        var step := Handle(i, read, fd, outcomes(fd));
        RunStep(ev, steps, step, s);
        HandleOne(ev, s, i, read, Chosen(todo, act), fd, outcomes(fd));
        ScanAsSteps(ev, steps + [step], i, read, todo - {fd}, act, outcomes);
        assert steps + ([step] + rest) == steps + [step] + rest;
      } else {
        ScanAsSteps(ev, steps, i, read, todo - {fd}, act, outcomes);
        assert [] + rest == rest;
      }
    }
  }

  /**
   A `do_io` that nobody interrupts: when `select` has succeeded and the stop event is not ready, the
   tables become what `on_io_event` makes of the read snapshot and then of the write snapshot, and the
   next `do_io` is posted.
   */
  lemma DoIoIsTwoScans(ev: Events, steps: seq<Step>, i: nat,
                       readyR: set<int>, readyW: set<int>, outcomesR: int -> Outcome,
                       outcomesW: int -> Outcome)
    requires Enabled(ev, Run(ev, steps), Poll(i, false, readyR, readyW)) && ev.stop !in readyR
    ensures var s := Run(ev, steps);
            var f := s.running[i].fds;
            var actR, actW := readyR - {ev.wakeup}, readyW - {ev.wakeup};
            Run(ev, steps + [Poll(i, false, readyR, readyW)] + HandleSteps(i, true, f.r, actR, outcomesR)
                    + HandleSteps(i, false, f.w, actW, outcomesW) + [EndScan(i)])
            == s.(tables := Scan(Scan(s.tables, f.r, actR, outcomesR), f.w, actW, outcomesW),
                  queued := s.queued + 1, running := Remove(s.running, i))
  {
    hide Run, Finish, Scan, HandleSteps;
    var s := Run(ev, steps);
    var f := s.running[i].fds;
    var actR, actW := readyR - {ev.wakeup}, readyW - {ev.wakeup};
    var poll := Poll(i, false, readyR, readyW);
    RunStep(ev, steps, poll, s);
    var polled := steps + [poll];
    assert Ready(f.r, readyR, ev.wakeup) == Chosen(f.r, actR) && Ready(f.w, readyW, ev.wakeup) == Chosen(f.w, actW);
    ScanAsSteps(ev, polled, i, true, f.r, actR, outcomesR);
    var read := polled + HandleSteps(i, true, f.r, actR, outcomesR);
    ScanAsSteps(ev, read, i, false, f.w, actW, outcomesW);
    var written := read + HandleSteps(i, false, f.w, actW, outcomesW);
    RunStep(ev, written, EndScan(i), Run(ev, written));
    assert Remove(Run(ev, written).running, i) == Remove(s.running, i);
  }

  /** A `do_io` that begins takes the maps as they are. */
  lemma BeginsOnLive(ev: Events, steps: seq<Step>)
    requires Run(ev, steps).queued > 0
    ensures var s := Run(ev, steps);
            && s.queued == 1 && s.running == []
            && Run(ev, steps + [Begin]) == s.(queued := 0, running := [Snapped(s.tables.fds)])
  {
    AlwaysInv(ev, steps);
    RunStep(ev, steps, Begin, Run(ev, steps));
  }

  /**
   A whole `do_io` that nobody interrupts, from the queue: it works on the maps as they are when it begins.
   */
  lemma DoIoFromTheQueue(ev: Events, steps: seq<Step>, readyR: set<int>, readyW: set<int>,
                         outcomesR: int -> Outcome, outcomesW: int -> Outcome)
    requires Run(ev, steps).queued > 0 && ev.stop !in readyR
    requires readyR <= Run(ev, steps).tables.fds.r.Keys && readyW <= Run(ev, steps).tables.fds.w.Keys
    ensures var s := Run(ev, steps);
            var r, w := s.tables.fds.r, s.tables.fds.w;
            var actR, actW := readyR - {ev.wakeup}, readyW - {ev.wakeup};
            Run(ev, steps + [Begin] + [Poll(0, false, readyR, readyW)] + HandleSteps(0, true, r, actR, outcomesR)
                    + HandleSteps(0, false, w, actW, outcomesW) + [EndScan(0)])
            == s.(tables := Scan(Scan(s.tables, r, actR, outcomesR), w, actW, outcomesW))
  {
    var s := Run(ev, steps);
    BeginsOnLive(ev, steps);
    hide Run, Scan, HandleSteps;
    DoIoIsTwoScans(ev, steps + [Begin], 0, readyR, readyW, outcomesR, outcomesW);
    assert Remove([Snapped(s.tables.fds)], 0) == [];
  }

  /** Starting posts one `do_io`; harvesting hands over what has completed and leaves none. */
  lemma StartAndHarvest(ev: Events, steps: seq<Step>)
    ensures var s := Run(ev, steps);
            && (!s.started ==> Run(ev, steps + [Start]) == s.(started := true, queued := 1))
            && Run(ev, steps + [ClientHarvest]) ==
               s.(harvested := s.harvested + s.tables.completed, tables := s.tables.(completed := []))
  {
    RunStep(ev, steps, Start, Run(ev, steps));
    RunStep(ev, steps, ClientHarvest, Run(ev, steps));
    AlwaysInv(ev, steps);
  }
}
