/**
 The `select` proactor. Clients register operations in two maps keyed by descriptor; `do_io` works on
 a snapshot of the maps, lets `select` say which descriptors are ready, and completes the ready
 operations one by one; `harvest` hands the completions to an executor.

 Every block under the proactor's lock is one function on `Tables`. The class `Select` keeps the
 fields and is proved against these functions; module `SelectRuns` lets the same functions interleave.
 */
module Select {

  datatype Action = Recv | Send | Recvfrom | Accept | Connect

  predicate IsRead(a: Action) {
    a.Recv? || a.Recvfrom? || a.Accept?
  }

  /** `id` stands for the buffer and the callback of the call that made the task. */
  datatype SelectTask = SelectTask(fd: int, action: Action, id: int)

  /** The tasks of the proactor's own event descriptors have no callback. */
  const NO_CALLBACK := -1

  /** What a non-blocking system call says: a count or descriptor, "try again", or an error number. */
  datatype Outcome = Done(n: nat, peer: int) | Again | Failed(errno: int, peer: int)

  /** The address argument of accepting and receiving-from callbacks: what the call left in its buffer. */
  datatype Peer = NoPeer | Peer(addr: int)

  /** A callback bound to the arguments it will be called with. */
  datatype Completion = Completion(task: SelectTask, value: int, peer: Peer)

  datatype Fds = Fds(r: map<int, SelectTask>, w: map<int, SelectTask>)

  datatype Tables = Tables(fds: Fds, maxR: int, maxW: int, completed: seq<Completion>)

  function Side(f: Fds, read: bool): map<int, SelectTask> {
    if read then f.r else f.w
  }

  function Put(f: Fds, task: SelectTask): Fds {
    if IsRead(task.action) then f.(r := f.r[task.fd := task]) else f.(w := f.w[task.fd := task])
  }

  function Drop(f: Fds, read: bool, fd: int): Fds {
    if read then f.(r := f.r - {fd}) else f.(w := f.w - {fd})
  }

  function Max(a: int, b: int): int {
    if a < b then b else a
  }

  function Register(t: Tables, task: SelectTask): Tables {
    if IsRead(task.action)
    then t.(fds := Put(t.fds, task), maxR := Max(t.maxR, task.fd))
    else t.(fds := Put(t.fds, task), maxW := Max(t.maxW, task.fd))
  }

  /** The callback's argument: a length, a descriptor, or a negated error number. */
  function Value(task: SelectTask, o: Outcome): int {
    if task.action.Connect? then task.fd
    else match o case Done(n, _) => n case Again => 0 case Failed(e, _) => -e
  }

  /** A ready task completes unless the system call says to try again; connecting never does. */
  predicate Completes(task: SelectTask, o: Outcome) {
    task.action.Connect? || !o.Again?
  }

  function Bound(task: SelectTask, o: Outcome): Completion {
    Completion(task, Value(task, o),
               if (task.action.Accept? || task.action.Recvfrom?) && !o.Again? then Peer(o.peer) else NoPeer)
  }

  /** Completing erases whatever is registered for the descriptor now. */
  function Finish(t: Tables, task: SelectTask, o: Outcome): Tables {
    if Completes(task, o) then
      t.(fds := Drop(t.fds, IsRead(task.action), task.fd),
         completed := t.completed + [Bound(task, o)])
    else t
  }

  function EventTask(fd: int): SelectTask {
    SelectTask(fd, Recv, NO_CALLBACK)
  }

  function Initial(stopFd: int, wakeupFd: int): Tables {
    Tables(Fds(map[stopFd := EventTask(stopFd)][wakeupFd := EventTask(wakeupFd)], map[]), Max(stopFd, wakeupFd), 0, [])
  }

  /** The first descriptor of a map in iteration order. */
  predicate IsFirst(m: map<int, SelectTask>, fd: int) {
    fd in m && forall k :: k in m ==> fd <= k
  }

  lemma {:induction false} LeastExists(s: set<int>, k: int)
    requires k in s
    ensures exists x :: x in s && forall y :: y in s ==> x <= y
    decreases s
  {
    if y :| y in s && y < k {
      assert y in s - {k};
      LeastExists(s - {k}, y);
      assert forall z :: z in s ==> z == k || z in s - {k};
    }
  }

  lemma EmptyOrNot(m: map<int, SelectTask>)
    ensures m == map[] || exists k :: k in m
  {
    if forall k :: k !in m {
      assert m == map[];
    }
  }

  lemma FirstExists(m: map<int, SelectTask>)
    requires m != map[]
    ensures exists fd :: IsFirst(m, fd)
  {
    EmptyOrNot(m);
    var k :| k in m;
    LeastExists(m.Keys, k);
    var fd :| fd in m.Keys && forall y :: y in m.Keys ==> fd <= y;
    assert IsFirst(m, fd);
  }

  /** A scan of `todo` in map order, with no other thread in between; it acts on the entries in `act`. */
  ghost function Scan(t: Tables, todo: map<int, SelectTask>, act: set<int>, outcomes: int -> Outcome): Tables
    decreases |todo|
  {
    if todo == map[] then t
    else
      FirstExists(todo);
      var fd :| IsFirst(todo, fd);
      Scan(if fd in act then Finish(t, todo[fd], outcomes(fd)) else t, todo - {fd}, act, outcomes)
  }

  class Select {
    const stopFd: int
    const wakeupFd: int
    var maxRfd: int
    var maxWfd: int
    var pendingRfds: map<int, SelectTask>
    var pendingWfds: map<int, SelectTask>
    var completedTask: seq<Completion>

    ghost function View(): Tables
      reads this
    {
      Tables(Fds(pendingRfds, pendingWfds), maxRfd, maxWfd, completedTask)
    }

    constructor (stopFd: int, wakeupFd: int)
      ensures this.stopFd == stopFd && this.wakeupFd == wakeupFd
      ensures View() == Initial(stopFd, wakeupFd)
      ensures pendingRfds == map[stopFd := SelectTask(stopFd, Action.Recv, -1)]
                                [wakeupFd := SelectTask(wakeupFd, Action.Recv, -1)] && pendingWfds == map[]
      ensures maxRfd == (if stopFd < wakeupFd then wakeupFd else stopFd) && maxWfd == 0 && completedTask == []
    {
      this.stopFd, this.wakeupFd := stopFd, wakeupFd;
      maxRfd := Max(stopFd, wakeupFd);
      maxWfd := 0;
      pendingRfds := map[stopFd := EventTask(stopFd)][wakeupFd := EventTask(wakeupFd)];
      pendingWfds := map[];
      completedTask := [];
    }

    method Recv(s: int, id: int)
      modifies this
      ensures View() == Register(old(View()), SelectTask(s, Action.Recv, id))
    {
      if s > maxRfd {
        maxRfd := s;
      }
      pendingRfds := pendingRfds[s := SelectTask(s, Action.Recv, id)];
    }

    method Recvfrom(s: int, id: int)
      modifies this
      ensures View() == Register(old(View()), SelectTask(s, Action.Recvfrom, id))
    {
      if s > maxRfd {
        maxRfd := s;
      }
      pendingRfds := pendingRfds[s := SelectTask(s, Action.Recvfrom, id)];
    }

    method Accept(s: int, id: int)
      modifies this
      ensures View() == Register(old(View()), SelectTask(s, Action.Accept, id))
    {
      if s > maxRfd {
        maxRfd := s;
      }
      pendingRfds := pendingRfds[s := SelectTask(s, Action.Accept, id)];
    }

    method SendAsync(s: int, id: int)
      modifies this
      ensures View() == Register(old(View()), SelectTask(s, Action.Send, id))
    {
      if s > maxWfd {
        maxWfd := s;
      }
      pendingWfds := pendingWfds[s := SelectTask(s, Action.Send, id)];
    }

    /** A send on the proactor's own executor tries the system call first. */
    method Send(s: int, id: int, isCurrentExecutor: bool, o: Outcome) returns (r: int)
      modifies this
      ensures isCurrentExecutor && !o.Again? ==> View() == old(View()) && r == (if o.Done? then o.n else -o.errno)
      ensures !isCurrentExecutor || o.Again? ==>
              View() == Register(old(View()), SelectTask(s, Action.Send, id)) && r == 0
    {
      if isCurrentExecutor {
        match o
        case Done(n, _) => return n;
        case Failed(e, _) => return -e;
        case Again =>
      }
      SendAsync(s, id);
      return 0;
    }

    method Connect(s: int, id: int, errno: int) returns (r: int)
      modifies this
      ensures errno != 0 ==> View() == old(View()) && r == -errno
      ensures errno == 0 ==> View() == Register(old(View()), SelectTask(s, Action.Connect, id)) && r == 0
    {
      if errno != 0 {
        return -errno;
      }
      if s > maxWfd {
        maxWfd := s;
      }
      pendingWfds := pendingWfds[s := SelectTask(s, Action.Connect, id)];
      return 0;
    }

    method GetPendingIo() returns (r: map<int, SelectTask>, w: map<int, SelectTask>)
      ensures Fds(r, w) == View().fds
    {
      r, w := pendingRfds, pendingWfds;
    }

    method DoAccept(task: SelectTask, o: Outcome)
      requires task.action.Accept?
      modifies this
      ensures View() == Finish(old(View()), task, o)
    {
      if !o.Again? {
        pendingRfds := pendingRfds - {task.fd};
        var value := if o.Done? then o.n else -o.errno;
        completedTask := completedTask + [Completion(task, value, Peer(o.peer))];
      }
    }

    method DoRecv(task: SelectTask, o: Outcome)
      requires task.action.Recv?
      modifies this
      ensures View() == Finish(old(View()), task, o)
    {
      if !o.Again? {
        pendingRfds := pendingRfds - {task.fd};
        var value := if o.Done? then o.n else -o.errno;
        completedTask := completedTask + [Completion(task, value, NoPeer)];
      }
    }

    method DoRecvfrom(task: SelectTask, o: Outcome)
      requires task.action.Recvfrom?
      modifies this
      ensures View() == Finish(old(View()), task, o)
    {
      if !o.Again? {
        pendingRfds := pendingRfds - {task.fd};
        var value := if o.Done? then o.n else -o.errno;
        completedTask := completedTask + [Completion(task, value, Peer(o.peer))];
      }
    }

    method DoSend(task: SelectTask, o: Outcome)
      requires task.action.Send?
      modifies this
      ensures View() == Finish(old(View()), task, o)
    {
      if !o.Again? {
        pendingWfds := pendingWfds - {task.fd};
        var value := if o.Done? then o.n else -o.errno;
        completedTask := completedTask + [Completion(task, value, NoPeer)];
      }
    }

    method OnConnected(task: SelectTask, ghost o: Outcome)
      requires task.action.Connect?
      modifies this
      ensures View() == Finish(old(View()), task, o)
    {
      pendingWfds := pendingWfds - {task.fd};
      completedTask := completedTask + [Completion(task, task.fd, NoPeer)];
    }

    method OnIoEvent(tasks: map<int, SelectTask>, ready: set<int>, outcomes: int -> Outcome)
      modifies this
      ensures View() == Scan(old(View()), tasks, ready - {wakeupFd}, outcomes)
    {
      ghost var act := ready - {wakeupFd};
      var todo := tasks;
      while todo != map[]
        invariant Scan(old(View()), tasks, act, outcomes) == Scan(View(), todo, act, outcomes)
        decreases |todo|
      {
        FirstExists(todo);
        var fd :| IsFirst(todo, fd);
        var task := todo[fd];
        if fd != wakeupFd && fd in ready {
          var o := outcomes(fd);
          match task.action
          case Accept => DoAccept(task, o);
          case Recv => DoRecv(task, o);
          case Recvfrom => DoRecvfrom(task, o);
          case Send => DoSend(task, o);
          case Connect => OnConnected(task, o);
        }
        todo := todo - {fd};
      }
    }

    method Harvest() returns (tasks: seq<Completion>)
      modifies this
      ensures tasks == old(View()).completed
      ensures View() == old(View()).(completed := [])
    {
      tasks := completedTask;
      completedTask := [];
    }
  }
}
