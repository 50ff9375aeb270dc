/**
 Subcase enumeration of the test runner. A test body runs again and again; in each run the
 `Subcase` constructors and destructors decide, from the stack of entered subcases, the set of
 finished stacks and two more fields, which subcases are entered.

 The body of a test is the forest of subcases it meets, in order. Subcases that the filters
 reject behave as if they, and everything inside them, were not there.
 */
module Subcases {
  import opened Wildcard
  import opened SubcaseForest

  datatype Filters = Filters(only: seq<string>, exclude: seq<string>, caseSensitive: bool, levels: int)

  /** A negative number of levels wraps to a huge unsigned one. */
  function SizeT(n: int): int {
    if n >= 0 then n else n + 0x1_0000_0000_0000_0000
  }

  ghost predicate Kept(f: Filters, name: string, depth: nat) {
    depth < SizeT(f.levels) ==>
      && MatchesSome(name, f.only, true, f.caseSensitive)
      && !MatchesSome(name, f.exclude, false, f.caseSensitive)
  }

  /** The forest without the rejected subcases. */
  ghost function Prune(f: Filters, ts: seq<Tree>, depth: nat): seq<Tree>
    decreases ts
  {
    if ts == [] then []
    else
      var rest := Prune(f, ts[1..], depth);
      if Kept(f, ts[0].sig.name, depth)
      then [Node(ts[0].sig, Prune(f, ts[0].children, depth + 1))] + rest
      else rest
  }

  /**
   The filters apply above the given number of levels. A negative number is converted to an unsigned one,
   so they then apply on all levels but the last few of 2^64. Where they apply, a subcase is kept if it
   matches a filter, or there are none, and matches no exclusion.
   */
  lemma KeptIff(f: Filters, name: string, depth: nat)
    requires -0x8000_0000 <= f.levels < 0x8000_0000
    ensures Kept(f, name, depth) <==>
            || 0 <= f.levels <= depth
            || (f.levels < 0 && 18446744073709551616 + f.levels <= depth)
            || ((f.only == [] || exists w <- f.only :: Matches(f.caseSensitive, name, w))
                && forall w <- f.exclude :: !Matches(f.caseSensitive, name, w))
  {}

  lemma PruneStep(f: Filters, ts: seq<Tree>, depth: nat)
    requires ts != []
    ensures var rest := Prune(f, ts[1..], depth);
            Prune(f, ts, depth) ==
            if Kept(f, ts[0].sig.name, depth) then [Node(ts[0].sig, Prune(f, ts[0].children, depth + 1))] + rest
            else rest
  {}

  // ---------- how the subcases of a body lie among the visits ----------

  /** A kept subcase that repeats an earlier sibling has been visited to its end. */
  ghost predicate Repeats(f: Filters, t: Tree, g: seq<Stack>, p: Stack, seen: set<Signature>, b: nat) {
    Kept(f, t.sig.name, |p|) && t.sig in seen && Ended(g, p + [t.sig], b)
  }

  /** Any other subcase: rejected and without visits, or kept with `n` of them. */
  ghost predicate SubcaseLaid(f: Filters, t: Tree, g: seq<Stack>, p: Stack, b: nat, n: nat) {
    var kids, q := Prune(f, t.children, |p| + 1), p + [t.sig];
    if Kept(f, t.sig.name, |p|) then
      && n == (if kids == [] then 1 else |Visits(kids, {})|) > 0
      && (kids == [] ==> Visits(kids, {}) == [] && |g| > b && g[b] == q)
      && Spans(g, q, b, b + n) && Laid(g, q, kids, {}, b)
    else n == 0
  }

  function SeenAfter(t: Tree, kept: bool, seen: set<Signature>): set<Signature> {
    if kept then seen + {t.sig} else seen
  }

  lemma KeptStep(f: Filters, ts: seq<Tree>, g: seq<Stack>, p: Stack, seen: set<Signature>, b: nat) returns (n: nat)
    requires ts != [] && Laid(g, p, Prune(f, ts, |p|), seen, b)
    requires Kept(f, ts[0].sig.name, |p|) && ts[0].sig !in seen
    ensures SubcaseLaid(f, ts[0], g, p, b, n)
    ensures Laid(g, p, Prune(f, ts[1..], |p|), seen + {ts[0].sig}, b + n)
    ensures |Visits(Prune(f, ts, |p|), seen)| == n + |Visits(Prune(f, ts[1..], |p|), seen + {ts[0].sig})|
  {
    var kids, rest := Prune(f, ts[0].children, |p| + 1), Prune(f, ts[1..], |p|);
    var first := Node(ts[0].sig, kids);
    PruneStep(f, ts, |p|);
    hide Prune, Kept, Spans;
    FirstLaid(g, p, first, rest, seen, b);
    VisitsOfCount(first);
    n := |VisitsOf(first)|;
    hide Laid, VisitsOf;
  }

  lemma FirstLaid(g: seq<Stack>, p: Stack, first: Tree, rest: seq<Tree>, seen: set<Signature>, b: nat)
    requires Laid(g, p, [first] + rest, seen, b) && first.sig !in seen
    ensures var q, n := p + [first.sig], |VisitsOf(first)|;
            && Spans(g, q, b, b + n) && Laid(g, q, first.children, {}, b) && (first.children == [] ==> g[b] == q)
            && Laid(g, p, rest, seen + {first.sig}, b + n)
            && |Visits([first] + rest, seen)| == n + |Visits(rest, seen + {first.sig})|
  {
    var all := [first] + rest;
    assert all[0] == first && all[1..] == rest;
    hide Spans, VisitsOf;
  }

  lemma VisitsOfCount(t: Tree)
    ensures |VisitsOf(t)| == (if t.children == [] then 1 else |Visits(t.children, {})|) > 0
    ensures t.children == [] ==> Visits(t.children, {}) == []
  {
    VisitsRoots(t.children, {});
  }

  lemma RejectedStep(f: Filters, ts: seq<Tree>, g: seq<Stack>, p: Stack, seen: set<Signature>, b: nat)
    requires ts != [] && Laid(g, p, Prune(f, ts, |p|), seen, b) && !Kept(f, ts[0].sig.name, |p|)
    ensures SubcaseLaid(f, ts[0], g, p, b, 0) && Prune(f, ts, |p|) == Prune(f, ts[1..], |p|)
  {
    PruneStep(f, ts, |p|);
    hide Prune, Kept, Laid, Visits;
  }

  /** A repeated subcase has no visits, but stands for one at its parent if none follow. */
  lemma RepeatedStep(f: Filters, ts: seq<Tree>, g: seq<Stack>, p: Stack, seen: set<Signature>, b: nat)
    requires ts != [] && Laid(g, p, Prune(f, ts, |p|), seen, b)
    requires Kept(f, ts[0].sig.name, |p|) && ts[0].sig in seen
    ensures Repeats(f, ts[0], g, p, seen, b)
    ensures var rest := Visits(Prune(f, ts[1..], |p|), seen);
            && Laid(g, p, Prune(f, ts[1..], |p|), seen, b)
            && |Visits(Prune(f, ts, |p|), seen)| == (if rest == [] then 1 else |rest|)
            && (rest == [] ==> b < |g| && g[b] == p)
  {
    PruneStep(f, ts, |p|);
    var rest := Prune(f, ts[1..], |p|);
    var all := [Node(ts[0].sig, Prune(f, ts[0].children, |p| + 1))] + rest;
    assert all[1..] == rest;
    hide Prune, Kept, Ended;
  }

  lemma BodyEnd(f: Filters, d: nat, seen: set<Signature>)
    ensures Prune(f, [], d) == [] && Visits([], seen) == []
  {}

  // ---------- what a piece of a test body does ----------

  /** The fields of the runner. */
  datatype Fields = Fields(stack: Stack, passed: set<Stack>, maxLevel: int, reenter: bool, started: seq<Stack>)

  /** Nothing of this run has been entered below the current level; `k` visits are finished. */
  ghost predicate Fresh(g: seq<Stack>, k: nat, x: Fields) {
    k <= |g| && x.maxLevel == |x.stack| && !x.reenter && x.passed == Finished(g, k)
  }

  /** A piece whose visits start at `b` is reached fresh, or after something was entered on its level. */
  ghost predicate Reached(g: seq<Stack>, k: nat, b: nat, x: Fields) {
    |x.stack| < x.maxLevel || (Fresh(g, k, x) && b <= k)
  }

  /**
   What a piece with `n` visits from number `b` on does. If something was already entered on its level
   it only asks for another run; if it comes fresh and all its visits are finished it does nothing;
   else it enters exactly the path of visit `k`, finishes what closes with it, and asks for another run
   if it has visits left.
   */
  ghost predicate Effect(g: seq<Stack>, k: nat, b: nat, n: nat, x: Fields, y: Fields) {
    && y.stack == x.stack
    && var d := |x.stack|;
       if d < x.maxLevel then y == x.(reenter := x.reenter || n > 0)
       else if b + n <= k then y == x
       else
         && k < |g| && d <= |g[k]|
         && y == x.(passed := Finished(g, k) + Closing(g, k, d), maxLevel := |g[k]|, reenter := k + 1 < b + n,
                    started := x.started + Descent(g[k], d))
  }

  /** What a repeated subcase does: it is never entered, but asks for another run like any other. */
  ghost predicate Passes(x: Fields, y: Fields) {
    y == if |x.stack| < x.maxLevel then x.(reenter := true) else x
  }

  lemma NoEffect(g: seq<Stack>, k: nat, b: nat, x: Fields)
    requires Reached(g, k, b, x)
    ensures Effect(g, k, b, 0, x, x)
  {}

  lemma ReachedNext(g: seq<Stack>, k: nat, b: nat, n: nat, q: Stack, x: Fields, y: Fields)
    requires Reached(g, k, b, x) && Effect(g, k, b, n, x, y) && |q| == |x.stack| + 1
    requires n > 0 ==> Spans(g, q, b, b + n)
    ensures y.stack == x.stack && Reached(g, k, b + n, y)
  {
    hide Finished, Closing, Descent;
    if b <= k < b + n && k < |g| {
      assert q <= g[k];
    }
  }

  lemma EffectsCompose(g: seq<Stack>, k: nat, b: nat, n: nat, m: nat, x: Fields, y: Fields, z: Fields)
    requires Reached(g, k, b, x) && Effect(g, k, b, n, x, y) && Effect(g, k, b + n, m, y, z)
    requires Reached(g, k, b + n, y)
    ensures Effect(g, k, b, n + m, x, z)
  {
    hide Finished, Closing, Descent;
  }

  lemma ReachedAfterRepeat(g: seq<Stack>, k: nat, b: nat, x: Fields, y: Fields)
    requires Reached(g, k, b, x) && Passes(x, y)
    ensures Reached(g, k, b, y) && y.stack == x.stack
  {}

  lemma AtParent(g: seq<Stack>, k: nat, d: nat)
    requires k < |g| && |g[k]| == d
    ensures Closing(g, k, d) == {} && Descent(g[k], d) == []
  {}

  /** A repeated subcase and what follows it; without followers it is a visit that stops at the parent. */
  lemma RepeatComposes(g: seq<Stack>, k: nat, b: nat, m: nat, x: Fields, y: Fields, z: Fields)
    requires Reached(g, k, b, x) && Passes(x, y) && Effect(g, k, b, m, y, z)
    requires m == 0 ==> b < |g| && g[b] == x.stack
    ensures Effect(g, k, b, if m == 0 then 1 else m, x, z)
  {
    hide Finished, Closing, Descent;
    if m == 0 && k == b {
      AtParent(g, k, |x.stack|);
      assert x.started + [] == x.started;
    }
  }

  // ---------- the runner ----------

  class TestContext {
    const filters: Filters
    var subcasesStack: Stack
    var subcasesPassed: set<Stack>
    var subcasesCurrentMaxLevel: int
    var shouldReenter: bool
    ghost var started: seq<Stack>  // the stack at each subcase start reported so far

    constructor (filters: Filters)
      ensures this.filters == filters && Now() == Fields([], {}, 0, false, [])
    {
      this.filters := filters;
      subcasesStack, subcasesPassed := [], {};
      subcasesCurrentMaxLevel, shouldReenter := 0, false;
      started := [];
    }

    /** The constructor of a subcase. */
    method Enter(sig: Signature) returns (entered: bool)
      modifies this
      ensures var p := old(subcasesStack); var q := p + [sig];
              var kept := Kept(filters, sig.name, |p|);
              var blocked := |p| < old(subcasesCurrentMaxLevel);
              && entered == (kept && !blocked && q !in old(subcasesPassed))
              && shouldReenter == (old(shouldReenter) || (kept && blocked))
              && subcasesStack == (if entered then q else p)
              && subcasesCurrentMaxLevel == (if entered then |q| else old(subcasesCurrentMaxLevel))
              && started == (if entered then old(started) + [q] else old(started))
      ensures subcasesPassed == old(subcasesPassed)
    {
      if |subcasesStack| < SizeT(filters.levels) {
        var matched := MatchesAny(sig.name, filters.only, true, filters.caseSensitive);
        if !matched {
          return false;
        }
        var rejected := MatchesAny(sig.name, filters.exclude, false, filters.caseSensitive);
        if rejected {
          return false;
        }
      }
      if |subcasesStack| < subcasesCurrentMaxLevel {
        shouldReenter := true;
        return false;
      }
      subcasesStack := subcasesStack + [sig];
      if subcasesStack in subcasesPassed {
        subcasesStack := subcasesStack[..|subcasesStack| - 1];
        return false;
      }
      subcasesCurrentMaxLevel := |subcasesStack|;
      started := started + [subcasesStack];
      return true;
    }

    /** The destructor of an entered subcase. */
    method Leave()
      requires subcasesStack != []
      modifies this
      ensures subcasesStack == old(subcasesStack)[..|old(subcasesStack)| - 1]
      ensures subcasesPassed == old(subcasesPassed) + (if old(shouldReenter) then {} else {old(subcasesStack)})
      ensures shouldReenter == old(shouldReenter) && subcasesCurrentMaxLevel == old(subcasesCurrentMaxLevel)
      ensures started == old(started)
    {
      if !shouldReenter {
        subcasesPassed := subcasesPassed + {subcasesStack};
      }
      subcasesStack := subcasesStack[..|subcasesStack| - 1];
    }

    ghost function Now(): Fields
      reads this
    {
      Fields(subcasesStack, subcasesPassed, subcasesCurrentMaxLevel, shouldReenter, started)
    }

    /** One subcase of a test body and what is inside it; `n` is its number of visits. */
    method RunSubcase(t: Tree, ghost g: seq<Stack>, ghost k: nat, ghost seen: set<Signature>,
                      ghost b: nat, ghost n: nat)
      requires Reached(g, k, b, Now())
      requires SubcaseLaid(filters, t, g, subcasesStack, b, n) || Repeats(filters, t, g, subcasesStack, seen, b)
      modifies this
      ensures !Repeats(filters, t, g, old(subcasesStack), seen, b) ==> Effect(g, k, b, n, old(Now()), Now())
      ensures Repeats(filters, t, g, old(subcasesStack), seen, b) ==> Passes(old(Now()), Now())
      decreases t, 1
    {
      hide Finished, Closing, Last, Descent, Kept, Laid, Prune, Visits, Spans;
      ghost var p := subcasesStack;
      ghost var q := p + [t.sig];
      ghost var repeats := Repeats(filters, t, g, p, seen, b);
      if Kept(filters, t.sig.name, |p|) && subcasesCurrentMaxLevel <= |p| {
        if repeats {
          EndedIsFinished(g, k, q, b);
        } else {
          FinishedIff(g, k, q, b, b + n);
        }
      }
      var entered := Enter(t.sig);
      if entered {
        RunBody(t.children, g, k, {}, b);
        PathThrough(g, k, q, b, b + n);
        Leave();
        assert subcasesStack == p;
      }
    }

    /** The part of a test body that meets the subcases `ts` after those in `seen`. */
    method RunBody(ts: seq<Tree>, ghost g: seq<Stack>, ghost k: nat, ghost seen: set<Signature>, ghost b: nat)
      requires Laid(g, subcasesStack, Prune(filters, ts, |subcasesStack|), seen, b) && Reached(g, k, b, Now())
      modifies this
      ensures Effect(g, k, b, |Visits(Prune(filters, ts, |old(subcasesStack)|), seen)|, old(Now()), Now())
      decreases ts, 0
    {
      hide Finished, Closing, Descent, Laid, Prune, Visits, Effect, Reached, Kept, Ended, Spans, Passes;
      ghost var p, x := subcasesStack, Now();
      ghost var d := |p|;
      BodyEnd(filters, d, seen);
      if ts == [] {
        NoEffect(g, k, b, x);
        return;
      }
      ghost var kept := Kept(filters, ts[0].sig.name, d);
      ghost var n, seen' := 0, SeenAfter(ts[0], kept, seen);
      if !kept {
        RejectedStep(filters, ts, g, p, seen, b);
      } else if ts[0].sig in seen {
        RepeatedStep(filters, ts, g, p, seen, b);
        assert seen' == seen;
      } else {
        n := KeptStep(filters, ts, g, p, seen, b);
      }
      RunSubcase(ts[0], g, k, seen, b, n);
      ghost var y := Now();
      if kept && ts[0].sig in seen {
        ReachedAfterRepeat(g, k, b, x, y);
      } else {
        ReachedNext(g, k, b, n, p + [ts[0].sig], x, y);
      }
      RunBody(ts[1..], g, k, seen', b + n);
      ghost var m := |Visits(Prune(filters, ts[1..], d), seen')|;
      if kept && ts[0].sig in seen {
        RepeatComposes(g, k, b, m, x, y, Now());
      } else {
        EffectsCompose(g, k, b, n, m, x, y, Now());
      }
    }

    /**
     The re-entry loop, for any forest. `runs` lists, run by run, the stacks entered in it, and `passed`
     the set of finished stacks after it. Run k makes visit k; the visits are the leaves, each once and
     in depth-first order, exactly when siblings have distinct signatures.
     */
    method RunTestCase(ts: seq<Tree>) returns (ghost runs: seq<seq<Stack>>, ghost passed: seq<set<Stack>>)
      modifies this
      ensures var g := Visits(Prune(filters, ts, 0), {});
              && (g == [] ==> runs == [[]])
              && (g != [] ==> |runs| == |passed| == |g|)
              && (forall i :: 0 <= i < |g| ==> runs[i] == Descent(g[i], 0) && passed[i] == Finished(g, i + 1))
              && subcasesPassed == Finished(g, |g|)
      ensures var forest := Prune(filters, ts, 0);
              Visits(forest, {}) == LeafPaths(forest) <==> DistinctSiblings(forest)
    {
      hide Finished, Closing, Laid, Prune, Visits, LeafPaths, DistinctSiblings;
      ghost var g := Visits(Prune(filters, ts, 0), {});
      FinishedNone(g);
      VisitsAreLeavesIff(Prune(filters, ts, 0));
      ForestIsLaid(Prune(filters, ts, 0));
      subcasesPassed := {};
      runs, passed := [], [];
      var runTest := true;
      ghost var k := 0;
      while runTest
        invariant 0 <= k <= |g| && subcasesPassed == Finished(g, k)
        invariant |passed| == |runs| && (runTest ==> |runs| == k)
        invariant runTest ==> (k < |g| || g == [])
        invariant !runTest ==> k == |g| && |runs| == if g == [] then 1 else |g|
        invariant forall i :: 0 <= i < k ==>
                    i < |runs| && runs[i] == Descent(g[i], 0) && passed[i] == Finished(g, i + 1)
        invariant g == [] && !runTest ==> runs == [[]]
        decreases |g| - k, runTest
      {
        shouldReenter := false;
        subcasesCurrentMaxLevel := 0;
        subcasesStack := [];
        started := [];
        RunBody(ts, g, k, {}, 0);
        runs, passed := runs + [started], passed + [subcasesPassed];
        if g != [] {
          FinishedStep(g, k);
          k := k + 1;
        }
        if !shouldReenter {
          runTest := false;
        }
      }
    }
  }

  lemma EndedIsFinished(g: seq<Stack>, k: nat, q: Stack, b: nat)
    requires k <= |g| && q != [] && Ended(g, q, b) && b <= k
    ensures q in Finished(g, k)
  {
    var a: nat, c: nat :| Spans(g, q, a, c) && c <= b;
    FinishedIff(g, k, q, a, c);
  }
}
