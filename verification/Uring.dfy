/**
 The two rings shared with the kernel by the io_uring proactor. Head and tail are free-running 32-bit
 counters; a slot is a counter masked with the ring size minus one.
 */
module Uring {

  const TWO_TO_32 := 0x1_0000_0000

  // ---------- masks and wrapping counters ----------

  function Pow2(k: nat): (r: nat)
    ensures r >= 1
  {
    if k == 0 then 1 else 2 * Pow2(k - 1)
  }

  /** Bitwise and of unsigned numbers. */
  function And(x: nat, y: nat): nat {
    if x == 0 || y == 0 then 0 else 2 * And(x / 2, y / 2) + (x % 2) * (y % 2)
  }

  /** The k lowest bits of x. */
  function Low(x: nat, k: nat): (r: nat)
    ensures r < Pow2(k)
  {
    if k == 0 then 0 else 2 * Low(x / 2, k - 1) + x % 2
  }

  lemma AndOdd(x: nat, half: nat)
    requires half > 0
    ensures And(x, 2 * half - 1) == 2 * And(x / 2, half - 1) + x % 2
  {
    assert (2 * half - 1) / 2 == half - 1 && (2 * half - 1) % 2 == 1;
    if x == 0 {
      assert And(0, half - 1) == 0;
    }
  }

  lemma {:induction false} MaskIsLow(x: nat, k: nat)
    ensures And(x, Pow2(k) - 1) == Low(x, k)
  {
    hide And;
    if k == 0 {
      AndZero(x);
    } else {
      AndOdd(x, Pow2(k - 1));
      MaskIsLow(x / 2, k - 1);
    }
  }

  lemma AndZero(x: nat)
    ensures And(x, 0) == 0
  {}

  lemma LowStep(x: nat, k: nat)
    requires k > 0
    ensures Low(x, k) == 2 * Low(x / 2, k - 1) + x % 2
    ensures Low(x, k) / 2 == Low(x / 2, k - 1) && Low(x, k) % 2 == x % 2
  {}

  lemma {:induction false} LowOfLow(x: nat, m: nat, k: nat)
    requires k <= m
    ensures Low(Low(x, m), k) == Low(x, k)
  {
    if k > 0 {
      LowOfLow(x / 2, m - 1, k - 1);
      LowStep(x, m);
      LowStep(x, k);
      LowStep(Low(x, m), k);
      hide Low;
    }
  }

  /** Counters less than 2^k apart differ in their k lowest bits. */
  lemma {:induction false} LowsDiffer(x: nat, y: nat, k: nat)
    requires x < y < x + Pow2(k)
    ensures Low(x, k) != Low(y, k)
  {
    if k > 0 && x % 2 == y % 2 {
      LowsDiffer(x / 2, y / 2, k - 1);
    }
  }

  lemma MulBounds(e: int, d: int)
    requires e > 0
    ensures d >= 1 ==> e * d >= e
    ensures d <= -1 ==> e * d <= -e
  {}

  lemma ModIsUnique(x: int, e: int, q: int, r: int)
    requires 0 <= r < e && x == e * q + r
    ensures x % e == r
  {
    var d := x / e - q;
    assert e * d == e * (x / e) - e * q;
    MulBounds(e, d);
  }

  lemma ModHalf(x: nat, c: nat)
    requires c > 0
    ensures x % (2 * c) == 2 * ((x / 2) % c) + x % 2
  {
    var y := x / 2;
    var q := y / c;
    assert y == c * q + y % c;
    assert (2 * c) * q == 2 * (c * q);
    ModIsUnique(x, 2 * c, q, 2 * (y % c) + x % 2);
  }

  lemma {:induction false} LowIsMod(x: nat, k: nat)
    ensures Low(x, k) == x % Pow2(k)
  {
    if k > 0 {
      LowIsMod(x / 2, k - 1);
      ModHalf(x, Pow2(k - 1));
    }
  }

  lemma {:induction false} Pow2Grows(k: nat, m: nat)
    requires k < m
    ensures 2 * Pow2(k) <= Pow2(m)
    decreases m
  {
    if k < m - 1 {
      Pow2Grows(k, m - 1);
    }
  }

  lemma WordSize()
    ensures Pow2(32) == TWO_TO_32
  {
    assert Pow2(3) == 8;
    assert Pow2(6) == 64;
    assert Pow2(9) == 512;
    assert Pow2(12) == 4096;
    assert Pow2(15) == 32768;
    assert Pow2(18) == 262144;
    assert Pow2(21) == 2097152;
    assert Pow2(24) == 16777216;
    assert Pow2(27) == 134217728;
    assert Pow2(30) == 1073741824;
  }

  lemma RingFits(k: nat)
    requires k <= 31
    ensures 2 * Pow2(k) <= TWO_TO_32
  {
    WordSize();
    Pow2Grows(k, 32);
  }

  /** The slot of counter value x in a ring of 2^k entries; the counter wraps at 32 bits. */
  function Slot(x: nat, k: nat): nat {
    And(x % TWO_TO_32, Pow2(k) - 1)
  }

  /** Wrapping the counter does not move a slot. */
  lemma SlotIsLow(x: nat, k: nat)
    requires k <= 31
    ensures Slot(x, k) == Low(x, k) == x % Pow2(k)
  {
    WordSize();
    MaskIsLow(x % TWO_TO_32, k);
    LowIsMod(x, 32);
    LowOfLow(x, 32, k);
    LowIsMod(x, k);
  }

  lemma SlotsDiffer(x: nat, y: nat, k: nat)
    requires k <= 31 && x < y < x + Pow2(k)
    ensures Slot(x, k) != Slot(y, k)
  {
    SlotIsLow(x, k);
    SlotIsLow(y, k);
    LowsDiffer(x, y, k);
  }

  /** How many entries lie between two counters: their unsigned difference. */
  function Between(head: nat, tail: nat): nat
    requires head < TWO_TO_32 && tail < TWO_TO_32
  {
    if head <= tail then tail - head else tail + TWO_TO_32 - head
  }

  /** Incrementing an unsigned counter. */
  function Bump(counter: nat): (r: nat)
    requires counter < TWO_TO_32
    ensures r == (counter + 1) % TWO_TO_32 < TWO_TO_32
  {
    if counter + 1 == TWO_TO_32 then 0 else counter + 1
  }

  function Wrap(x: nat): nat {
    x % TWO_TO_32
  }

  lemma BumpWraps(x: nat)
    ensures Wrap(x) < TWO_TO_32 && Bump(Wrap(x)) == Wrap(x + 1)
    ensures x < TWO_TO_32 ==> Wrap(x) == x
  {}

  lemma TailFromHead(head: nat, tail: nat)
    requires head < TWO_TO_32 && tail < TWO_TO_32
    ensures tail == (head + Between(head, tail)) % TWO_TO_32
    ensures Between(head, tail) + 1 < TWO_TO_32 ==> Between(head, Bump(tail)) == Between(head, tail) + 1
    ensures head != tail ==> Between(Bump(head), tail) == Between(head, tail) - 1
    ensures Between(head, tail) == 0 <==> head == tail
    ensures Between(head, tail) == (tail - head) % TWO_TO_32
  {}

  // ---------- the submission ring ----------

  datatype Sqe = Sqe(fd: int, opcode: int, addr: int, len: int, userData: nat)

  class SubmissionRing {
    const k: nat
    const sqes: array<Sqe>
    const indices: array<nat>
    var head: nat   // moved by the kernel
    var tail: nat

    /** The slot of counter x points to the entry of the same number. */
    ghost predicate Linked(x: nat)
      requires indices.Length == Pow2(k)
      reads indices
    {
      var slot := Slot(x, k);
      slot < Pow2(k) && indices[slot] == slot
    }

    ghost predicate Valid()
      reads this, sqes, indices
    {
      && k <= 31 && sqes.Length == Pow2(k) && indices.Length == Pow2(k)
      && head < TWO_TO_32 && tail < TWO_TO_32
      && forall x :: head <= x < head + Between(head, tail) ==> Linked(x)
    }

    ghost function At(x: nat): Sqe
      requires sqes.Length == Pow2(k) && indices.Length == Pow2(k) && Linked(x)
      reads sqes, indices
    {
      sqes[indices[Slot(x, k)]]
    }

    /** What the kernel still has to read, in order, through the index array. */
    ghost function Unconsumed(): (r: seq<Sqe>)
      requires Valid()
      reads this, sqes, indices
      ensures |r| == Between(head, tail)
      ensures forall i :: 0 <= i < |r| ==> Linked(head + i) && r[i] == At(head + i)
    {
      seq(Between(head, tail), i requires Valid() && 0 <= i < Between(head, tail) reads this, sqes, indices =>
        assert Linked(head + i);
        At(head + i))
    }

    constructor (k: nat, start: nat)
      requires k <= 31 && start < TWO_TO_32
      ensures Valid() && Unconsumed() == [] && this.k == k
    {
      this.k := k;
      sqes := new Sqe[Pow2(k)](_ => Sqe(0, 0, 0, 0, 0));
      indices := new nat[Pow2(k)](_ => 0);
      head, tail := start, start;
    }

    /** There is no check for room: a full ring overwrites what the kernel has not read. */
    method SubmitSqe(sqe: Sqe)
      requires Valid()
      modifies this`tail, sqes, indices
      ensures Valid() && head == old(head)
      ensures Unconsumed() == Submitted(old(Unconsumed()), sqe, Pow2(k))
    {
      hide Slot, Between, And, Bump, Pow2, Submitted;
      ghost var n := Between(head, tail);
      ghost var before := Unconsumed();
      SubmitSlot(head, tail, k);
      var nextTail := Bump(tail);
      var index := And(tail, Pow2(k) - 1);
      sqes[index] := sqe;
      indices[index] := index;
      tail := nextTail;
      forall x | head <= x < head + n
        ensures Linked(x) && (Slot(x, k) == index <==> (head + n - x) % Pow2(k) == 0)
      {
        SameSlotIff(x, head + n, k);
        assert old(Linked(x));
      }
      SubmittedMeans(before, sqe, Pow2(k));
      if n + 1 < TWO_TO_32 {
        assert Linked(head + n);
        assert Unconsumed() == Submitted(before, sqe, Pow2(k));
      }
    }

    /** The kernel takes the entry at the head. */
    method Consume() returns (sqe: Sqe)
      requires Valid() && head != tail
      modifies this`head
      ensures Valid() && [sqe] + Unconsumed() == old(Unconsumed())
    {
      hide Slot, Between, And, Bump;
      ghost var before, h, n := Unconsumed(), head, Between(head, tail);
      ConsumeSlot(head, tail, k);
      assert Linked(head);
      var slot := And(head, Pow2(k) - 1);
      sqe := sqes[indices[slot]];
      head := Bump(head);
      forall x | head <= x < head + (n - 1)
        ensures Slot(x, k) == Slot(x - head + h + 1, k) && Linked(x)
      {
        BumpKeepsSlots(h, x - head, k);
        assert Linked(x - head + h + 1);
      }
      assert [sqe] + Unconsumed() == before;
    }

    /** Entries the kernel has not read never share a slot. */
    lemma LiveEntriesApart(x: nat, y: nat)
      requires Valid() && Between(head, tail) <= Pow2(k) && head <= x < y < head + Between(head, tail)
      ensures Linked(x) && Linked(y) && indices[Slot(x, k)] != indices[Slot(y, k)]
    {
      SlotsDiffer(x, y, k);
    }
  }

  lemma SubmitSlot(head: nat, tail: nat, k: nat)
    requires k <= 31 && head < TWO_TO_32 && tail < TWO_TO_32
    ensures And(tail, Pow2(k) - 1) == Slot(head + Between(head, tail), k) < Pow2(k)
    ensures Bump(tail) < TWO_TO_32 && Between(head, tail) < TWO_TO_32
    ensures Between(head, Bump(tail)) == if Between(head, tail) + 1 < TWO_TO_32 then Between(head, tail) + 1 else 0
  {
    hide And, Low, Pow2;
    TailFromHead(head, tail);
    SlotIsLow(head + Between(head, tail), k);
  }

  lemma SameModIff(x: nat, y: nat, e: nat)
    requires x <= y && e > 0
    ensures x % e == y % e <==> (y - x) % e == 0
  {
    var qx, qy, d := x / e, y / e, y / e - x / e;
    assert x == e * qx + x % e && y == e * qy + y % e && e * d == e * qy - e * qx;
    if x % e == y % e {
      ModIsUnique(y - x, e, d, 0);
    } else if x % e < y % e {
      ModIsUnique(y - x, e, d, y % e - x % e);
    } else {
      assert e * (d - 1) == e * d - e;
      ModIsUnique(y - x, e, d - 1, y % e - x % e + e);
    }
  }

  lemma SameSlotIff(x: nat, y: nat, k: nat)
    requires k <= 31 && x <= y
    ensures Slot(x, k) == Slot(y, k) <==> (y - x) % Pow2(k) == 0
  {
    hide Pow2, Slot, Low;
    SlotIsLow(x, k);
    SlotIsLow(y, k);
    SameModIff(x, y, Pow2(k));
  }

  /**
   What the kernel still has to read after a submission: entries a whole number of rings behind the new
   one share its slot, and a tail that has gone round all counters reads as an empty ring.
   */
  function Submitted(unread: seq<Sqe>, sqe: Sqe, size: nat): seq<Sqe>
    requires size > 0
  {
    if |unread| + 1 >= TWO_TO_32 then []
    else seq(|unread|, i requires 0 <= i < |unread| => if (|unread| - i) % size == 0 then sqe else unread[i]) + [sqe]
  }

  lemma SubmittedMeans(unread: seq<Sqe>, sqe: Sqe, size: nat)
    requires size > 0
    ensures var r := Submitted(unread, sqe, size);
            && |r| == (if |unread| + 1 < TWO_TO_32 then |unread| + 1 else 0)
            && (r != [] ==> r[|unread|] == sqe
                            && forall i :: 0 <= i < |unread| ==>
                               r[i] == if (|unread| - i) % size == 0 then sqe else unread[i])
  {}

  lemma SmallMod(d: nat, size: nat)
    requires 0 < d < size
    ensures d % size != 0
  {}

  /** A submission leaves the entries not yet read alone, whatever it submits, exactly when there is room. */
  lemma SubmitKeepsUnreadIff(unread: seq<Sqe>, size: nat)
    requires 0 < size < TWO_TO_32
    ensures (forall sqe :: Submitted(unread, sqe, size) == unread + [sqe]) <==> |unread| < size
  {
    hide Submitted;
    var n := |unread|;
    if n < size {
      forall sqe
        ensures Submitted(unread, sqe, size) == unread + [sqe]
      {
        SubmittedMeans(unread, sqe, size);
        forall i | 0 <= i < n
          ensures Submitted(unread, sqe, size)[i] == unread[i]
        {
          SmallMod(n - i, size);
        }
        assert Submitted(unread, sqe, size) == unread + [sqe];
      }
    } else {
      var sqe := unread[n - size].(userData := unread[n - size].userData + 1);
      SubmittedMeans(unread, sqe, size);
      assert (unread + [sqe])[n - size] != sqe;
      ModIsUnique(size, size, 1, 0);
      assert Submitted(unread, sqe, size) != unread + [sqe];
    }
  }

  /** Submitting one entry after the other. */
  function SubmittedAll(unread: seq<Sqe>, batch: seq<Sqe>, size: nat): seq<Sqe>
    requires size > 0
  {
    if batch == [] then unread
    else Submitted(SubmittedAll(unread, batch[..|batch| - 1], size), batch[|batch| - 1], size)
  }

  lemma SubmittedSnoc(unread: seq<Sqe>, batch: seq<Sqe>, sqe: Sqe, size: nat)
    requires size > 0
    ensures SubmittedAll(unread, batch + [sqe], size) == Submitted(SubmittedAll(unread, batch, size), sqe, size)
  {
    assert (batch + [sqe])[..|batch|] == batch;
  }

  /** With room for the whole batch the ring is a queue. */
  lemma {:induction false} BatchIsQueued(unread: seq<Sqe>, batch: seq<Sqe>, size: nat)
    requires 0 < size < TWO_TO_32 && |unread| + |batch| <= size
    ensures SubmittedAll(unread, batch, size) == unread + batch
  {
    hide Submitted;
    if batch != [] {
      var front, last := batch[..|batch| - 1], batch[|batch| - 1];
      BatchIsQueued(unread, front, size);
      SubmitKeepsUnreadIff(unread + front, size);
      assert Submitted(unread + front, last, size) == unread + front + [last];
      assert unread + batch == unread + front + [last];
    }
  }

  lemma ConsumeSlot(head: nat, tail: nat, k: nat)
    requires k <= 31 && head < TWO_TO_32 && tail < TWO_TO_32 && head != tail
    ensures And(head, Pow2(k) - 1) == Slot(head, k) < Pow2(k)
    ensures Bump(head) < TWO_TO_32 && Between(Bump(head), tail) == Between(head, tail) - 1 && Between(head, tail) > 0
  {
    hide And, Low, Pow2;
    SlotIsLow(head, k);
  }

  lemma BumpKeepsSlots(head: nat, i: nat, k: nat)
    requires head < TWO_TO_32
    ensures Slot(Bump(head) + i, k) == Slot(head + 1 + i, k)
  {}

  // ---------- operations and their completions ----------

  datatype Action = Recv | Send | Recvfrom | Accept | Connect

  const SENDMSG := 9
  const RECVMSG := 10
  const ACCEPT := 13
  const CONNECT := 16

  function ActionToOpcode(action: Action): int {
    match action
    case Recv => RECVMSG
    case Recvfrom => RECVMSG
    case Send => SENDMSG
    case Connect => CONNECT
    case Accept => ACCEPT
  }

  /** `operand` and `len` stand for the memory the kernel is pointed to, `addr` for the peer address. */
  datatype UringTask = UringTask(id: nat, fd: int, action: Action, operand: int, len: int, addr: int)

  function SqeOf(t: UringTask): Sqe {
    Sqe(t.fd, ActionToOpcode(t.action), t.operand, t.len, t.id)
  }

  function SqesOf(tasks: seq<UringTask>): seq<Sqe> {
    seq(|tasks|, i requires 0 <= i < |tasks| => SqeOf(tasks[i]))
  }

  datatype Cqe = Cqe(userData: nat, res: int)

  /** A callback bound to its arguments: accepting and receiving-from callbacks also take the peer. */
  datatype Completion = Result(id: nat, res: int) | ResultFrom(id: nat, res: int, addr: int)

  /** What an entry appends: nothing unless its operation is in flight. */
  function CompletionOf(cqe: Cqe, flying: map<nat, UringTask>): (r: seq<Completion>)
    ensures |r| <= 1
    ensures r != [] <==> cqe.userData in flying
    ensures r != [] ==> r[0].id == cqe.userData && r[0].res == cqe.res
  {
    if cqe.userData !in flying then []
    else
      var task := flying[cqe.userData];
      if task.action.Recvfrom? || task.action.Accept? then [ResultFrom(cqe.userData, cqe.res, task.addr)]
      else [Result(cqe.userData, cqe.res)]
  }

  /** The completions of the entries, in entry order. */
  function Completions(entries: seq<Cqe>, flying: map<nat, UringTask>): seq<Completion> {
    if entries == [] then []
    else Completions(entries[..|entries| - 1], flying) + CompletionOf(entries[|entries| - 1], flying)
  }

  function EntriesFor(entries: seq<Cqe>, id: nat): nat {
    if entries == [] then 0
    else EntriesFor(entries[..|entries| - 1], id) + if entries[|entries| - 1].userData == id then 1 else 0
  }

  function CallsOf(completions: seq<Completion>, id: nat): nat {
    if completions == [] then 0
    else CallsOf(completions[..|completions| - 1], id) + if completions[|completions| - 1].id == id then 1 else 0
  }

  lemma CallsSnoc(completions: seq<Completion>, c: Completion, id: nat)
    ensures CallsOf(completions + [c], id) == CallsOf(completions, id) + if c.id == id then 1 else 0
  {}

  lemma {:induction false} CallsConcat(a: seq<Completion>, b: seq<Completion>, id: nat)
    ensures CallsOf(a + b, id) == CallsOf(a, id) + CallsOf(b, id)
  {
    if b == [] {
      assert a + b == a;
    } else {
      var front, last := b[..|b| - 1], b[|b| - 1];
      CallsConcat(a, front, id);
      CallsSnoc(a + front, last, id);
      assert a + b == a + front + [last];
    }
  }

  /** An operation is called back once per entry that names it when it is in flight, and never otherwise. */
  lemma {:induction false} CalledOncePerEntry(entries: seq<Cqe>, flying: map<nat, UringTask>, id: nat)
    ensures CallsOf(Completions(entries, flying), id) == if id in flying then EntriesFor(entries, id) else 0
  {
    if entries != [] {
      var front, last := entries[..|entries| - 1], entries[|entries| - 1];
      CalledOncePerEntry(front, flying, id);
      var c := CompletionOf(last, flying);
      if c == [] {
        assert Completions(front, flying) + c == Completions(front, flying);
      } else {
        assert c == [c[0]];
        CallsSnoc(Completions(front, flying), c[0], id);
      }
    }
  }

  /** The pending operations as an ordered map lists them. */
  ghost predicate Ascending(tasks: seq<UringTask>) {
    forall i, j :: 0 <= i < j < |tasks| ==> tasks[i].id < tasks[j].id
  }

  /** Inserting into a map leaves a key that is there alone. */
  function Insert(flying: map<nat, UringTask>, t: UringTask): map<nat, UringTask> {
    if t.id in flying then flying else flying[t.id := t]
  }

  /** The kernel's numbers for sending, receiving, accepting and connecting. */
  predicate HasOpcode(action: Action, opcode: int) {
    match action
    case Send => opcode == 9
    case Recv => opcode == 10
    case Recvfrom => opcode == 10
    case Accept => opcode == 13
    case Connect => opcode == 16
  }

  /** With room, the i-th new entry carries the descriptor, the number, the memory and the opcode of task i. */
  lemma EntriesCarryTasks(unread: seq<Sqe>, tasks: seq<UringTask>, size: nat)
    requires 0 < size < TWO_TO_32 && |unread| + |tasks| <= size
    ensures var r := SubmittedAll(unread, SqesOf(tasks), size);
            && |r| == |unread| + |tasks| && r[..|unread|] == unread
            && forall i :: 0 <= i < |tasks| ==>
                 var e := r[|unread| + i];
                 && e.fd == tasks[i].fd && e.userData == tasks[i].id && HasOpcode(tasks[i].action, e.opcode)
                 && e.addr == tasks[i].operand && e.len == tasks[i].len
  {
    hide SubmittedAll;
    BatchIsQueued(unread, SqesOf(tasks), size);
    var r := unread + SqesOf(tasks);
    assert r[..|unread|] == unread;
    forall i | 0 <= i < |tasks|
      ensures r[|unread| + i] == SqeOf(tasks[i])
    {}
  }

  /** Entries of different operations of a batch are told apart by their number. */
  lemma EntriesDiffer(unread: seq<Sqe>, tasks: seq<UringTask>, size: nat, i: nat, j: nat)
    requires 0 < size < TWO_TO_32 && |unread| + |tasks| <= size && Ascending(tasks) && i < j < |tasks|
    ensures var r := SubmittedAll(unread, SqesOf(tasks), size);
            |r| == |unread| + |tasks| && r[|unread| + i].userData != r[|unread| + j].userData
  {
    hide SubmittedAll;
    EntriesCarryTasks(unread, tasks, size);
    var r := SubmittedAll(unread, SqesOf(tasks), size);
    assert tasks[i].id < tasks[j].id;
    assert r[|unread| + i].userData == tasks[i].id && r[|unread| + j].userData == tasks[j].id;
  }

  /**
   From submission to callback: when the kernel answers the entry of the first operation of a batch, just
   that operation's callback is bound, to the kernel's result and for accepting and receiving-from also
   to the operation's address.
   */
  lemma AnswerFindsItsOperation(
    unread: seq<Sqe>, tasks: seq<UringTask>, size: nat, flying: map<nat, UringTask>, res: int)
    requires 0 < size < TWO_TO_32 && |unread| + |tasks| <= size && tasks != [] && tasks[0].id !in flying
    ensures var r := SubmittedAll(unread, SqesOf(tasks), size);
            && |r| == |unread| + |tasks|
            && CompletionOf(Cqe(r[|unread|].userData, res), Insert(flying, tasks[0])) ==
               match tasks[0].action
               case Recv => [Result(tasks[0].id, res)]
               case Send => [Result(tasks[0].id, res)]
               case Connect => [Result(tasks[0].id, res)]
               case Recvfrom => [ResultFrom(tasks[0].id, res, tasks[0].addr)]
               case Accept => [ResultFrom(tasks[0].id, res, tasks[0].addr)]
  {
    hide SubmittedAll;
    EntriesCarryTasks(unread, tasks, size);
    assert SubmittedAll(unread, SqesOf(tasks), size)[|unread| + 0].userData == tasks[0].id;
  }

  // ---------- the proactor over both rings ----------

  class IOUring {
    const submission: SubmissionRing
    const k: nat
    const cqes: array<Cqe>
    var head: nat
    var tail: nat    // moved by the kernel
    var flyingTasks: map<nat, UringTask>
    var completedTask: seq<Completion>

    ghost predicate Valid()
      reads this`head, this`tail
    {
      k <= 31 && cqes.Length == Pow2(k) && head < TWO_TO_32 && tail < TWO_TO_32
    }

    /** The first n completion entries from the head, in ring order. */
    ghost function Entries(n: nat): (r: seq<Cqe>)
      requires Valid()
      reads this`head, this`tail, cqes
    {
      var h, ring := head, cqes[..];
      seq(n, i requires 0 <= i < n => var slot := Slot(h + i, k); if slot < |ring| then ring[slot] else Cqe(0, 0))
    }

    constructor (submission: SubmissionRing, k: nat, start: nat)
      requires k <= 31 && start < TWO_TO_32
      ensures Valid() && head == tail == start && flyingTasks == map[] && completedTask == []
      ensures this.submission == submission && this.k == k && fresh(cqes)
    {
      this.submission, this.k := submission, k;
      cqes := new Cqe[Pow2(k)](_ => Cqe(0, 0));
      head, tail, flyingTasks, completedTask := start, start, map[], [];
    }

    /** One entry after the other. */
    method SubmitEach(tasks: seq<UringTask>)
      requires submission.Valid()
      modifies submission`tail, submission.sqes, submission.indices
      ensures submission.Valid()
      ensures submission.Unconsumed() == SubmittedAll(old(submission.Unconsumed()), SqesOf(tasks), Pow2(submission.k))
    {
      hide Slot, Between, Pow2, Submitted, SqeOf;
      ghost var before, size := submission.Unconsumed(), Pow2(submission.k);
      for i := 0 to |tasks|
        invariant submission.Valid() && submission.Unconsumed() == SubmittedAll(before, SqesOf(tasks[..i]), size)
      {
        submission.SubmitSqe(SqeOf(tasks[i]));
        assert SqesOf(tasks[..i + 1]) == SqesOf(tasks[..i]) + [SqeOf(tasks[i])];
        SubmittedSnoc(before, SqesOf(tasks[..i]), SqeOf(tasks[i]), size);
      }
      assert tasks[..|tasks|] == tasks;
    }

    /**
     Submits every pending operation; of these only the one with the least id becomes in flight. Without
     any, the source extracts the first node of an empty map, which C++ leaves undefined.
     */
    method SubmitTasks(tasks: seq<UringTask>) returns (defined: bool)
      requires Ascending(tasks) && submission.Valid()
      modifies this`flyingTasks, submission`tail, submission.sqes, submission.indices
      ensures submission.Valid() && (defined <==> tasks != [])
      ensures submission.Unconsumed() == SubmittedAll(old(submission.Unconsumed()), SqesOf(tasks), Pow2(submission.k))
      ensures |old(submission.Unconsumed())| + |tasks| <= Pow2(submission.k) ==>
                var n, unread := |old(submission.Unconsumed())|, submission.Unconsumed();
                && |unread| == n + |tasks| && unread[..n] == old(submission.Unconsumed())
                && forall i :: 0 <= i < |tasks| ==>
                     unread[n + i].fd == tasks[i].fd && unread[n + i].userData == tasks[i].id
                     && HasOpcode(tasks[i].action, unread[n + i].opcode)
      ensures flyingTasks == if defined then Insert(old(flyingTasks), tasks[0]) else old(flyingTasks)
      ensures forall id :: id in old(flyingTasks) ==> id in flyingTasks && flyingTasks[id] == old(flyingTasks)[id]
      ensures defined ==> flyingTasks.Keys == old(flyingTasks).Keys + {tasks[0].id}
    {
      hide Slot, Between, Pow2, SubmittedAll, SqesOf, HasOpcode, Ascending;
      ghost var before, size := submission.Unconsumed(), Pow2(submission.k);
      SubmitEach(tasks);
      if |before| + |tasks| <= size {
        RingFits(submission.k);
        EntriesCarryTasks(before, tasks, size);
      }
      if tasks == [] {
        return false;
      }
      flyingTasks := Insert(flyingTasks, tasks[0]);
      return true;
    }

    method HandleCompleteTask(cqe: Cqe)
      modifies this`completedTask
      ensures completedTask == old(completedTask) + CompletionOf(cqe, flyingTasks)
    {
      if cqe.userData !in flyingTasks {
        return;
      }
      var task := flyingTasks[cqe.userData];
      match task.action
      case Recv | Send | Connect =>
        completedTask := completedTask + [Result(cqe.userData, cqe.res)];
      case Recvfrom | Accept =>
        completedTask := completedTask + [ResultFrom(cqe.userData, cqe.res, task.addr)];
    }

    /** One pass, with the tail fixed. It ends after as many rounds as there are entries. */
    method HandleCompleteTasks() returns (ghost rounds: nat)
      requires Valid()
      modifies this`completedTask
      ensures Valid() && rounds == Between(head, tail)
      ensures completedTask == old(completedTask) + Completions(Entries(Between(head, tail)), flyingTasks)
    {
      hide Slot, And, Completions, Bump, Between, Pow2, Wrap;
      var h := head;
      rounds := 0;
      TailFromHead(head, tail);
      BumpWraps(head);
      NoCompletions(flyingTasks);
      assert Entries(0) == [];
      while h != tail
        invariant h < TWO_TO_32 && h == Wrap(head + rounds)
        invariant rounds <= Between(head, tail) && Between(h, tail) == Between(head, tail) - rounds
        invariant completedTask == old(completedTask) + Completions(Entries(rounds), flyingTasks)
        decreases Between(h, tail)
      {
        ConsumeSlot(h, tail, k);
        BumpWraps(head + rounds);
        SlotOfWrapped(head + rounds, k);
        var cqe := cqes[And(h, Pow2(k) - 1)];
        HandleCompleteTask(cqe);
        assert Entries(rounds + 1) == Entries(rounds) + [cqe];
        CompletionsSnoc(Entries(rounds), cqe, flyingTasks);
        h := Bump(h);
        rounds := rounds + 1;
      }
      TailFromHead(h, tail);
    }

    /** The pass does not store its head back, so the next one completes the same entries again. */
    method TwoPasses()
      requires Valid()
      modifies this`completedTask
      ensures var c := Completions(Entries(Between(head, tail)), flyingTasks);
              completedTask == old(completedTask) + c + c
    {
      ghost var entries := Entries(Between(head, tail));
      ghost var first := HandleCompleteTasks();
      assert Entries(Between(head, tail)) == entries;
      ghost var second := HandleCompleteTasks();
      assert Entries(Between(head, tail)) == entries;
    }
  }

  lemma OneEntry(id: nat, res: int, task: UringTask, flying: map<nat, UringTask>)
    requires id in flying && flying[id] == task && task.action.Recv?
    ensures Completions([Cqe(id, res)], flying) == [Result(id, res)]
  {
    NoCompletions(flying);
    CompletionsSnoc([], Cqe(id, res), flying);
  }

  /** One entry of one operation in flight, and two passes: its callback is bound twice. */
  method CompletedTwice() returns (completed: seq<Completion>)
    ensures completed == [Result(7, 100), Result(7, 100)]
  {
    var submission := new SubmissionRing(0, 0);
    var uring := new IOUring(submission, 0, 0);
    assert uring.cqes.Length == 1;
    uring.cqes[0], uring.tail := Cqe(7, 100), 1;
    uring.flyingTasks := map[7 := UringTask(7, 3, Recv, 0, 0, 0)];
    SlotIsLow(0, 0);
    assert uring.Entries(1) == [Cqe(7, 100)];
    OneEntry(7, 100, uring.flyingTasks[7], uring.flyingTasks);
    hide Slot, And, Low, Completions;
    uring.TwoPasses();
    return uring.completedTask;
  }

  lemma SlotOfWrapped(x: nat, k: nat)
    ensures Slot(Wrap(x), k) == Slot(x, k)
  {}

  lemma NoCompletions(flying: map<nat, UringTask>)
    ensures Completions([], flying) == []
  {}

  lemma CompletionsSnoc(entries: seq<Cqe>, cqe: Cqe, flying: map<nat, UringTask>)
    ensures Completions(entries + [cqe], flying) == Completions(entries, flying) + CompletionOf(cqe, flying)
  {}
}
