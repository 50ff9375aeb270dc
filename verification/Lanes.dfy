/**
 The sharded counter of the test runner: increments go to one of several lanes, and a load adds the
 lanes up one after the other while other threads keep incrementing.
 */
module Lanes {

  function Sum(s: seq<int>): int {
    if s == [] then 0 else Sum(s[..|s| - 1]) + s[|s| - 1]
  }

  lemma {:induction false} SumUpdate(s: seq<int>, i: nat, x: int)
    requires i < |s|
    ensures Sum(s[i := x]) == Sum(s) - s[i] + x
  {
    var n := |s| - 1;
    if i < n {
      assert s[i := x][..n] == s[..n][i := x];
      SumUpdate(s[..n], i, x);
    } else {
      assert s[i := x][..n] == s[..n];
    }
  }

  lemma SumSnoc(s: seq<int>, i: nat)
    requires i < |s|
    ensures Sum(s[..i + 1]) == Sum(s[..i]) + s[i]
  {
    assert s[..i + 1][..i] == s[..i];
  }

  lemma {:induction false} SumOfZeros(s: seq<int>)
    requires forall i :: 0 <= i < |s| ==> s[i] == 0
    ensures Sum(s) == 0
  {
    if s != [] {
      SumOfZeros(s[..|s| - 1]);
    }
  }

  // ---------- 32-bit arithmetic ----------

  const TWO_TO_31 := 0x8000_0000
  const TWO_TO_32 := 0x1_0000_0000

  /** The signed 32-bit number with the same low bits. */
  function Wrap(x: int): (r: int)
    ensures -TWO_TO_31 <= r < TWO_TO_31
    ensures -TWO_TO_31 <= x < TWO_TO_31 ==> r == x
  {
    (x + TWO_TO_31) % TWO_TO_32 - TWO_TO_31
  }

  lemma WrapShift(x: int, q: int)
    ensures Wrap(x + TWO_TO_32 * q) == Wrap(x)
  {
    var y, d := x + TWO_TO_31, (x + TWO_TO_31) / TWO_TO_32;
    assert y + TWO_TO_32 * q == TWO_TO_32 * (d + q) + y % TWO_TO_32;
  }

  lemma WrapAdd(a: int, b: int)
    ensures Wrap(Wrap(a) + b) == Wrap(a + Wrap(b)) == Wrap(a + b)
  {
    WrapShift(a + b, -((a + TWO_TO_31) / TWO_TO_32));
    WrapShift(a + b, -((b + TWO_TO_31) / TWO_TO_32));
  }

  lemma WrapAgain(a: int)
    ensures Wrap(Wrap(a)) == Wrap(a)
  {}

  lemma WrapStep(a: int, exact: int, b: int)
    requires Wrap(a) == Wrap(exact)
    ensures Wrap(a + Wrap(b)) == Wrap(exact + b)
  {
    hide Wrap;
    WrapAdd(a, b);
    WrapAdd(exact, b);
  }

  /** What the lanes hold together. */
  function Total(lanes: seq<int>): int {
    Wrap(Sum(lanes))
  }

  ghost predicate WrapsTo(exact: seq<int>, lanes: seq<int>) {
    |exact| == |lanes| && forall i :: 0 <= i < |lanes| ==> lanes[i] == Wrap(exact[i])
  }

  lemma {:induction false} WrapSum(exact: seq<int>, lanes: seq<int>)
    requires WrapsTo(exact, lanes)
    ensures Total(lanes) == Total(exact)
  {
    if lanes != [] {
      var n := |lanes| - 1;
      WrapSum(exact[..n], lanes[..n]);
      hide Wrap;
      WrapStep(Sum(lanes[..n]), Sum(exact[..n]), exact[n]);
    }
  }

  class MultiLaneAtomic {
    const atomics: array<int>

    constructor (lanes: nat)
      ensures fresh(atomics) && atomics.Length == lanes && Total(atomics[..]) == 0
    {
      atomics := new int[lanes](_ => 0);
      new;
      SumOfZeros(atomics[..]);
    }

    /** The lane is the calling thread's own. */
    method FetchAdd(lane: nat, arg: int) returns (old_: int)
      requires lane < atomics.Length
      modifies atomics
      ensures old_ == old(atomics[lane]) && atomics[..] == old(atomics[..])[lane := Wrap(old_ + arg)]
      ensures Total(atomics[..]) == Wrap(old(Total(atomics[..])) + arg)
      ensures arg == 1 ==> forall next, result ::
                State(atomics[..], next, result) == Apply(State(old(atomics[..]), next, result), Increment(lane))
    {
      hide Wrap;
      old_ := atomics[lane];
      ghost var rest := Sum(atomics[..]) - old_;
      SumUpdate(atomics[..], lane, Wrap(old_ + arg));
      atomics[lane] := Wrap(old_ + arg);
      assert atomics[..] == old(atomics[..])[lane := Wrap(old_ + arg)];
      WrapAdd(rest, old_ + arg);
      WrapAdd(rest + old_, arg);
    }

    /** Undisturbed, a load is the total; it reads the lanes one after the other. */
    method Load() returns (result: int)
      ensures result == Total(atomics[..])
      ensures State(atomics[..], atomics.Length, result) == Run(atomics[..], Reads(atomics.Length))
    {
      hide Wrap;
      result := 0;
      WrapsZero();
      for i := 0 to atomics.Length
        invariant result == Wrap(Sum(atomics[..][..i]))
        invariant State(atomics[..], i, result) == Run(atomics[..], Reads(i))
      {
        SumSnoc(atomics[..], i);
        WrapAdd(Sum(atomics[..][..i]), atomics[i]);
        assert Reads(i + 1)[..i] == Reads(i);
        result := Wrap(result + atomics[i]);
      }
      assert atomics[..][..atomics.Length] == atomics[..];
    }

    /** The first lane takes the whole value. */
    method Store(desired: int)
      requires atomics.Length > 0
      modifies atomics
      ensures Total(atomics[..]) == Wrap(desired)
      ensures forall i :: 0 <= i < atomics.Length ==> atomics[i] == if i == 0 then desired else 0
    {
      var rest := desired;
      for i := 0 to atomics.Length
        invariant rest == if i == 0 then desired else 0
        invariant Sum(atomics[..][..i]) == if i == 0 then 0 else desired
        invariant forall j :: 0 <= j < i ==> atomics[j] == if j == 0 then desired else 0
      {
        ghost var before := atomics[..][..i];
        atomics[i] := rest;
        assert atomics[..][..i] == before;
        SumSnoc(atomics[..], i);
        rest := 0;
      }
      assert atomics[..][..atomics.Length] == atomics[..];
    }
  }

  lemma WrapsZero()
    ensures Wrap(Sum([])) == 0
  {}

  // ---------- a load among increments ----------

  datatype Step = Increment(lane: nat) | ReadLane

  /** A load that has added up the lanes below `next`. */
  datatype State = State(lanes: seq<int>, next: nat, result: int)

  function Reads(n: nat): seq<Step> {
    seq(n, _ => ReadLane)
  }

  function Apply(s: State, step: Step): State {
    match step
    case Increment(lane) => if lane < |s.lanes| then s.(lanes := s.lanes[lane := Wrap(s.lanes[lane] + 1)]) else s
    case ReadLane =>
      if s.next < |s.lanes| then s.(next := s.next + 1, result := Wrap(s.result + s.lanes[s.next])) else s
  }

  function Run(lanes: seq<int>, steps: seq<Step>): State {
    if steps == [] then State(lanes, 0, 0) else Apply(Run(lanes, steps[..|steps| - 1]), steps[|steps| - 1])
  }

  // ---------- the same with exact numbers ----------

  function ApplyExact(s: State, step: Step): State {
    match step
    case Increment(lane) => if lane < |s.lanes| then s.(lanes := s.lanes[lane := s.lanes[lane] + 1]) else s
    case ReadLane => if s.next < |s.lanes| then s.(next := s.next + 1, result := s.result + s.lanes[s.next]) else s
  }

  function RunExact(lanes: seq<int>, steps: seq<Step>): State {
    if steps == [] then State(lanes, 0, 0) else ApplyExact(RunExact(lanes, steps[..|steps| - 1]), steps[|steps| - 1])
  }

  /** The 32-bit run is the exact one with every number wrapped. */
  lemma {:induction false} RunWraps(lanes: seq<int>, steps: seq<Step>)
    requires WrapsTo(lanes, lanes)
    ensures var s, exact := Run(lanes, steps), RunExact(lanes, steps);
            WrapsTo(exact.lanes, s.lanes) && s.next == exact.next && s.result == Wrap(exact.result)
  {
    if steps == [] {
      assert Wrap(0) == 0;
    } else {
      var before, step := steps[..|steps| - 1], steps[|steps| - 1];
      RunWraps(lanes, before);
      hide Wrap;
      var s, exact := Run(lanes, before), RunExact(lanes, before);
      if step.Increment? && step.lane < |s.lanes| {
        WrapAdd(exact.lanes[step.lane], 1);
      } else if step.ReadLane? && s.next < |s.lanes| {
        WrapAgain(exact.result);
        WrapStep(s.result, exact.result, exact.lanes[s.next]);
      }
    }
  }

  /** What was read so far lies between what these lanes held at the start and what they hold now. */
  ghost predicate Bounded(lanes: seq<int>, s: State) {
    && |s.lanes| == |lanes| && s.next <= |lanes|
    && Sum(lanes[..s.next]) <= s.result <= Sum(s.lanes[..s.next])
    && (forall i :: 0 <= i < |lanes| ==> lanes[i] <= s.lanes[i])
  }

  lemma {:induction false} AlwaysBounded(lanes: seq<int>, steps: seq<Step>)
    ensures Bounded(lanes, RunExact(lanes, steps))
  {
    if steps != [] {
      AlwaysBounded(lanes, steps[..|steps| - 1]);
      var s, step := RunExact(lanes, steps[..|steps| - 1]), steps[|steps| - 1];
      match step
      case ReadLane =>
        if s.next < |lanes| {
          SumSnoc(lanes, s.next);
          SumSnoc(s.lanes, s.next);
        }
      case Increment(lane) =>
        if lane < s.next {
          var s' := ApplyExact(s, step);
          assert s'.lanes[..s.next] == s.lanes[..s.next][lane := s.lanes[lane] + 1];
          SumUpdate(s.lanes[..s.next], lane, s.lanes[lane] + 1);
        } else {
          assert ApplyExact(s, step).lanes[..s.next] == s.lanes[..s.next];
        }
    }
  }

  /** A load lies between the exact totals at its start and at its end, wrapped only in the end. */
  lemma LoadBetweenTotals(lanes: seq<int>, steps: seq<Step>)
    requires WrapsTo(lanes, lanes) && Run(lanes, steps).next == |lanes|
    ensures var exact := RunExact(lanes, steps);
            Sum(lanes) <= exact.result <= Sum(exact.lanes) && Run(lanes, steps).result == Wrap(exact.result)
  {
    RunWraps(lanes, steps);
    AlwaysBounded(lanes, steps);
    var s := RunExact(lanes, steps);
    assert lanes[..|lanes|] == lanes && s.lanes[..|lanes|] == s.lanes;
  }

  /** Exact totals move by single increments, so they pass through every value in between. */
  lemma {:induction false} TotalsPassThrough(lanes: seq<int>, steps: seq<Step>, v: int) returns (i: nat)
    requires Sum(lanes) <= v <= Sum(RunExact(lanes, steps).lanes)
    ensures i <= |steps| && Sum(RunExact(lanes, steps[..i]).lanes) == v
  {
    if v == Sum(RunExact(lanes, steps).lanes) {
      i := |steps|;
      assert steps[..i] == steps;
    } else {
      var before := steps[..|steps| - 1];
      var s, step := RunExact(lanes, before), steps[|steps| - 1];
      if step.Increment? && step.lane < |s.lanes| {
        SumUpdate(s.lanes, step.lane, s.lanes[step.lane] + 1);
      }
      i := TotalsPassThrough(lanes, before, v);
      assert before[..i] == steps[..i];
    }
  }

  /** A load returns a total the counter really had at some moment while the load ran. */
  lemma LoadIsSomeTotal(lanes: seq<int>, steps: seq<Step>)
    requires WrapsTo(lanes, lanes) && Run(lanes, steps).next == |lanes|
    ensures exists i: nat :: i <= |steps| && Run(lanes, steps).result == Total(Run(lanes, steps[..i]).lanes)
  {
    hide Run, RunExact, Wrap, Sum;
    LoadBetweenTotals(lanes, steps);
    var i := TotalsPassThrough(lanes, steps, RunExact(lanes, steps).result);
    RunWraps(lanes, steps[..i]);
    WrapSum(RunExact(lanes, steps[..i]).lanes, Run(lanes, steps[..i]).lanes);
  }
}
