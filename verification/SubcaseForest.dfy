/**
 The forest of subcases a test body meets, and the list of visits that its repeated runs make.

 Every run enters the subcases of one visit. In a forest whose siblings have distinct signatures the
 visits are the leaves. A sibling that repeats the signature of an earlier one is never entered; if
 nothing new follows it, it still costs a run that goes no further than its parent.
 */
module SubcaseForest {

  datatype Signature = Signature(name: string, file: string, line: int)

  datatype Tree = Node(sig: Signature, children: seq<Tree>)

  type Stack = seq<Signature>

  function Prepend(sig: Signature, paths: seq<Stack>): (r: seq<Stack>)
    ensures |r| == |paths|
    ensures forall i :: 0 <= i < |r| ==> r[i] == [sig] + paths[i]
  {
    seq(|paths|, i requires 0 <= i < |paths| => [sig] + paths[i])
  }

  /** Root-to-leaf paths, depth first. */
  function LeafPaths(ts: seq<Tree>): seq<Stack>
    decreases ts, 0
  {
    if ts == [] then [] else PathsOf(ts[0]) + LeafPaths(ts[1..])
  }

  function PathsOf(t: Tree): (r: seq<Stack>)
    decreases t, 1
  {
    if t.children == [] then [[t.sig]] else Prepend(t.sig, LeafPaths(t.children))
  }

  ghost predicate DistinctSiblings(ts: seq<Tree>)
    decreases ts
  {
    && (forall i, j :: 0 <= i < j < |ts| ==> ts[i].sig != ts[j].sig)
    && (forall i :: 0 <= i < |ts| ==> DistinctSiblings(ts[i].children))
  }

  ghost predicate HasRoot(ts: seq<Tree>, sig: Signature) {
    exists j :: 0 <= j < |ts| && ts[j].sig == sig
  }

  /** The visits of siblings, when those with a signature in `seen` have been met before. */
  function Visits(ts: seq<Tree>, seen: set<Signature>): seq<Stack>
    decreases ts, 0
  {
    if ts == [] then []
    else if ts[0].sig in seen then
      var rest := Visits(ts[1..], seen);
      if rest == [] then [[]] else rest
    else VisitsOf(ts[0]) + Visits(ts[1..], seen + {ts[0].sig})
  }

  function VisitsOf(t: Tree): (r: seq<Stack>)
    decreases t, 1
  {
    if t.children == [] then [[t.sig]] else Prepend(t.sig, Visits(t.children, {}))
  }

  /** The list has a root with this signature that was not met before. */
  ghost predicate HasFresh(ts: seq<Tree>, seen: set<Signature>, sig: Signature) {
    sig !in seen && HasRoot(ts, sig)
  }

  lemma HasRootLater(ts: seq<Tree>, sig: Signature)
    requires ts != [] && HasRoot(ts[1..], sig)
    ensures HasRoot(ts, sig)
  {
    var j :| 0 <= j < |ts[1..]| && ts[1..][j].sig == sig;
    assert ts[j + 1].sig == sig;
  }

  lemma VisitsOfStart(t: Tree)
    ensures forall x <- VisitsOf(t) :: x != [] && x[0] == t.sig
  {}

  lemma {:induction false} VisitsRoots(ts: seq<Tree>, seen: set<Signature>)
    ensures ts != [] ==> Visits(ts, seen) != []
    ensures forall x <- Visits(ts, seen) :: x == [] || HasFresh(ts, seen, x[0])
    decreases ts
  {
    if ts != [] {
      var rest, sig := ts[1..], ts[0].sig;
      var seen' := if sig in seen then seen else seen + {sig};
      VisitsRoots(rest, seen');
      VisitsRoots(ts[0].children, {});
      VisitsOfStart(ts[0]);
      forall x | x in Visits(ts, seen) && x != []
        ensures HasFresh(ts, seen, x[0])
      {
        if x in Visits(rest, seen') {
          HasRootLater(ts, x[0]);
        } else {
          assert sig !in seen && x in VisitsOf(ts[0]);
        }
      }
    }
  }

  // ---------- when the visits are the leaves ----------

  lemma {:induction false} LeavesAreMost(ts: seq<Tree>, seen: set<Signature>)
    ensures |Visits(ts, seen)| <= |LeafPaths(ts)|
    ensures ts != [] ==> |LeafPaths(ts)| > 0
    decreases ts
  {
    if ts != [] {
      LeavesAreMost(ts[0].children, {});
      LeavesAreMost(ts[1..], if ts[0].sig in seen then seen else seen + {ts[0].sig});
    }
  }

  ghost predicate AllNew(ts: seq<Tree>, seen: set<Signature>) {
    forall t <- ts :: t.sig !in seen
  }

  lemma RestIsDistinct(ts: seq<Tree>, seen: set<Signature>)
    requires ts != [] && DistinctSiblings(ts) && AllNew(ts, seen)
    ensures ts[0].sig !in seen && DistinctSiblings(ts[0].children)
    ensures DistinctSiblings(ts[1..]) && AllNew(ts[1..], seen + {ts[0].sig})
  {
    var rest := ts[1..];
    forall t <- rest
      ensures t.sig !in seen + {ts[0].sig}
    {
      var j :| 0 <= j < |rest| && rest[j] == t;
      assert ts[j + 1] == t && ts[0].sig != ts[j + 1].sig;
    }
    forall i | 0 <= i < |rest|
      ensures DistinctSiblings(rest[i].children)
    {
      assert rest[i] == ts[i + 1];
    }
  }

  lemma FirstMakesDistinct(ts: seq<Tree>, seen: set<Signature>)
    requires ts != [] && ts[0].sig !in seen && DistinctSiblings(ts[0].children)
    requires DistinctSiblings(ts[1..]) && AllNew(ts[1..], seen + {ts[0].sig})
    ensures DistinctSiblings(ts) && AllNew(ts, seen)
  {
    var rest := ts[1..];
    forall i, j | 0 <= i < j < |ts|
      ensures ts[i].sig != ts[j].sig
    {
      assert ts[j] == rest[j - 1] && ts[j] in rest;
      assert i > 0 ==> ts[i] == rest[i - 1];
    }
    forall i | 0 <= i < |ts|
      ensures DistinctSiblings(ts[i].children)
    {
      assert i > 0 ==> ts[i] == rest[i - 1];
    }
    assert ts == [ts[0]] + rest;
  }

  lemma PrependSame(sig: Signature, a: seq<Stack>, b: seq<Stack>)
    requires Prepend(sig, a) == Prepend(sig, b)
    ensures a == b
  {
    forall i | 0 <= i < |a|
      ensures a[i] == b[i]
    {
      assert ([sig] + a[i])[1..] == a[i] && ([sig] + b[i])[1..] == b[i];
      assert Prepend(sig, a)[i] == Prepend(sig, b)[i];
    }
  }

  lemma {:induction false} DistinctVisitsAreLeaves(ts: seq<Tree>, seen: set<Signature>)
    requires DistinctSiblings(ts) && AllNew(ts, seen)
    ensures Visits(ts, seen) == LeafPaths(ts)
    decreases ts
  {
    if ts != [] {
      RestIsDistinct(ts, seen);
      DistinctVisitsAreLeaves(ts[0].children, {});
      DistinctVisitsAreLeaves(ts[1..], seen + {ts[0].sig});
    }
  }

  lemma {:induction false} LeafVisitsAreDistinct(ts: seq<Tree>, seen: set<Signature>)
    requires Visits(ts, seen) == LeafPaths(ts)
    ensures DistinctSiblings(ts) && AllNew(ts, seen)
    decreases ts
  {
    if ts != [] {
      var sig, rest, kids := ts[0].sig, ts[1..], ts[0].children;
      if sig in seen {
        RepeatedIsNoLeaf(ts, seen);
      } else {
        LeavesAreMost(rest, seen + {sig});
        LeavesAreMost(kids, {});
        SplitEqual(VisitsOf(ts[0]), Visits(rest, seen + {sig}), PathsOf(ts[0]), LeafPaths(rest));
        if kids != [] {
          PrependSame(sig, Visits(kids, {}), LeafPaths(kids));
        }
        LeafVisitsAreDistinct(kids, {});
        LeafVisitsAreDistinct(rest, seen + {sig});
        FirstMakesDistinct(ts, seen);
      }
    }
  }

  lemma SplitEqual(a: seq<Stack>, b: seq<Stack>, c: seq<Stack>, d: seq<Stack>)
    requires a + b == c + d && |a| <= |c| && |b| <= |d|
    ensures a == c && b == d
  {
    assert |a + b| == |c + d|;
    assert (a + b)[..|a|] == a && (c + d)[..|c|] == c;
    assert (a + b)[|a|..] == b && (c + d)[|c|..] == d;
  }

  lemma RepeatedIsNoLeaf(ts: seq<Tree>, seen: set<Signature>)
    requires ts != [] && ts[0].sig in seen
    ensures Visits(ts, seen) != LeafPaths(ts)
  {
    LeavesAreMost(ts[0].children, {});
    LeavesAreMost(ts[1..], seen);
    var first := PathsOf(ts[0])[0];
    assert LeafPaths(ts)[0] == first != [];
  }

  /** The visits of a forest are its leaves, each once, exactly when siblings have distinct signatures. */
  lemma VisitsAreLeavesIff(ts: seq<Tree>)
    ensures Visits(ts, {}) == LeafPaths(ts) <==> DistinctSiblings(ts)
  {
    if DistinctSiblings(ts) {
      DistinctVisitsAreLeaves(ts, {});
    }
    if Visits(ts, {}) == LeafPaths(ts) {
      LeafVisitsAreDistinct(ts, {});
    }
  }

  /** A sibling of the same signature is never entered: its child `y` is lost, and a run enters nothing. */
  lemma LostSiblingExample(a: Signature, x: Signature, y: Signature)
    requires x != y
    ensures var ts := [Node(a, [Node(x, [])]), Node(a, [Node(y, [])])];
            LeafPaths(ts) == [[a, x], [a, y]] && Visits(ts, {}) == [[a, x], []]
  {
    var first, second := Node(a, [Node(x, [])]), Node(a, [Node(y, [])]);
    OneChild(a, x);
    OneChild(a, y);
    assert [first, second][1..] == [second] && [second][1..] == [] && {} + {a} == {a};
    assert LeafPaths([second]) == PathsOf(second) + LeafPaths([]);
    assert LeafPaths([first, second]) == PathsOf(first) + LeafPaths([second]);
    assert Visits([second], {a}) == [[]];
    assert Visits([first, second], {}) == VisitsOf(first) + Visits([second], {a});
  }

  lemma OneChild(a: Signature, x: Signature)
    ensures PathsOf(Node(a, [Node(x, [])])) == VisitsOf(Node(a, [Node(x, [])])) == [[a, x]]
  {
    var leaf := Node(x, []);
    assert [leaf][1..] == [];
    assert LeafPaths([leaf]) == PathsOf(leaf) + LeafPaths([]) && PathsOf(leaf) == [[x]];
    assert Visits([leaf], {}) == VisitsOf(leaf) + Visits([], {x}) && VisitsOf(leaf) == [[x]];
    assert [a] + [x] == [a, x];
  }

  // ---------- visits by number, and which stacks are finished ----------

  /** The visits below `q` are exactly the ones numbered from `a` up to `c`. */
  ghost predicate Spans(g: seq<Stack>, q: Stack, a: nat, c: nat) {
    && a < c <= |g|
    && forall i :: 0 <= i < |g| ==> (q <= g[i] <==> a <= i < c)
  }

  /** The nodes all of whose visits are among the first `k`. */
  ghost function Finished(g: seq<Stack>, k: nat): set<Stack>
    requires k <= |g|
  {
    set i, j | 0 <= i < k && 1 <= j <= |g[i]| && Last(g, k, g[i][..j]) :: g[i][..j]
  }

  /** No visit from number `k` on lies below `q`. */
  ghost predicate Last(g: seq<Stack>, k: nat, q: Stack) {
    forall m :: k <= m < |g| ==> !(q <= g[m])
  }

  /** The nodes deeper than `d` on the path of visit `k` for which `k` is the last. */
  ghost function Closing(g: seq<Stack>, k: nat, d: nat): set<Stack>
    requires k < |g|
  {
    set j | d < j <= |g[k]| && Last(g, k + 1, g[k][..j]) :: g[k][..j]
  }

  lemma FinishedIff(g: seq<Stack>, k: nat, q: Stack, a: nat, c: nat)
    requires k <= |g| && q != [] && Spans(g, q, a, c)
    ensures q in Finished(g, k) <==> c <= k
  {
    if k < c {
      assert q <= g[c - 1];
      assert !Last(g, k, q);
    }
    if c <= k {
      assert q <= g[c - 1] && g[c - 1][..|q|] == q;
      assert Last(g, k, g[c - 1][..|q|]);
    }
  }

  lemma FinishedNone(g: seq<Stack>)
    ensures Finished(g, 0) == {}
  {}

  /** Making visit `k` finishes the nodes that close with it, and no others. */
  lemma FinishedStep(g: seq<Stack>, k: nat)
    requires k < |g|
    ensures Finished(g, k + 1) == Finished(g, k) + Closing(g, k, 0)
  {
    forall q | q in Finished(g, k + 1)
      ensures q in Finished(g, k) + Closing(g, k, 0)
    {
      var i, j :| 0 <= i < k + 1 && 1 <= j <= |g[i]| && Last(g, k + 1, g[i][..j]) && q == g[i][..j];
      if q <= g[k] {
        assert q == g[k][..j];
        assert q in Closing(g, k, 0);
      } else {
        assert i != k;
        assert Last(g, k, g[i][..j]);
      }
    }
    forall q | q in Finished(g, k)
      ensures q in Finished(g, k + 1)
    {
      var i, j :| 0 <= i < k && 1 <= j <= |g[i]| && Last(g, k, g[i][..j]) && q == g[i][..j];
      assert Last(g, k + 1, g[i][..j]);
    }
    forall q | q in Closing(g, k, 0)
      ensures q in Finished(g, k + 1)
    {
      var j :| 0 < j <= |g[k]| && Last(g, k + 1, g[k][..j]) && q == g[k][..j];
    }
  }

  lemma ClosingAt(g: seq<Stack>, k: nat, q: Stack, a: nat, c: nat)
    requires q != [] && Spans(g, q, a, c) && a <= k < c
    ensures |q| <= |g[k]| && g[k][..|q|] == q
    ensures Closing(g, k, |q| - 1) == Closing(g, k, |q|) + (if k + 1 == c then {q} else {})
  {
    assert q <= g[k];
    assert g[k][..|q|] == q;
    assert Last(g, k + 1, q) <==> k + 1 == c by {
      if k + 1 < c {
        assert q <= g[k + 1];
      }
    }
    var d := |q|;
    var wide, narrow, last := Closing(g, k, d - 1), Closing(g, k, d), if k + 1 == c then {q} else {};
    forall x | x in wide
      ensures x in narrow + last
    {
      var j :| d - 1 < j <= |g[k]| && Last(g, k + 1, g[k][..j]) && x == g[k][..j];
    }
    forall x | x in narrow + last
      ensures x in wide
    {
      if x in narrow {
        var j :| d < j <= |g[k]| && Last(g, k + 1, g[k][..j]) && x == g[k][..j];
      }
    }
    assert wide == narrow + last;
  }

  /** The stacks entered on the way to `path`, below the first `d` levels. */
  ghost function Descent(path: Stack, d: nat): (r: seq<Stack>)
    requires d <= |path|
  {
    seq(|path| - d, i requires 0 <= i < |path| - d => path[..d + i + 1])
  }

  /** What entering the node `q` adds to the run of visit `k` below it. */
  lemma PathThrough(g: seq<Stack>, k: nat, q: Stack, a: nat, c: nat)
    requires q != [] && Spans(g, q, a, c) && a <= k < c
    ensures |q| <= |g[k]|
    ensures Closing(g, k, |q| - 1) == Closing(g, k, |q|) + (if k + 1 == c then {q} else {})
    ensures Descent(g[k], |q| - 1) == [q] + Descent(g[k], |q|)
    ensures g[k] == q ==> Closing(g, k, |q|) == {} && Descent(g[k], |q|) == []
  {
    ClosingAt(g, k, q, a, c);
  }

  // ---------- the layout of a forest ----------

  /** The node has been visited, and all its visits come before number `b`. */
  ghost predicate Ended(g: seq<Stack>, q: Stack, b: nat) {
    exists a: nat, c: nat :: Spans(g, q, a, c) && c <= b
  }

  /** The siblings `ts` hang below `p` and their visits are the ones of `g` from number `b` on. */
  ghost predicate Laid(g: seq<Stack>, p: Stack, ts: seq<Tree>, seen: set<Signature>, b: nat)
    decreases ts
  {
    ts != [] ==>
      var q := p + [ts[0].sig];
      if ts[0].sig in seen then
        && Ended(g, q, b)
        && (Visits(ts[1..], seen) == [] ==> b < |g| && g[b] == p)
        && Laid(g, p, ts[1..], seen, b)
      else
        var n := |VisitsOf(ts[0])|;
        && Spans(g, q, b, b + n)
        && (ts[0].children == [] ==> g[b] == q)
        && Laid(g, q, ts[0].children, {}, b)
        && Laid(g, p, ts[1..], seen + {ts[0].sig}, b + n)
  }

  /** The stack `x` passes through `p` and then a fresh root of `ts`. */
  ghost predicate Through(p: Stack, ts: seq<Tree>, seen: set<Signature>, x: Stack) {
    |p| < |x| && x[..|p|] == p && HasFresh(ts, seen, x[|p|])
  }

  /** The visits of `ts`, hung below `p`, are exactly the ones of `g` from number `b` on. */
  ghost predicate Placed(g: seq<Stack>, p: Stack, ts: seq<Tree>, seen: set<Signature>, b: nat) {
    var vs := Visits(ts, seen);
    && b + |vs| <= |g|
    && (forall i :: b <= i < b + |vs| ==> g[i] == p + vs[i - b])
    && (forall i :: 0 <= i < |g| && Through(p, ts, seen, g[i]) ==> b <= i < b + |vs|)
  }

  ghost predicate AllEnded(g: seq<Stack>, p: Stack, seen: set<Signature>, b: nat) {
    forall sig <- seen :: Ended(g, p + [sig], b)
  }

  lemma FirstRootSpans(g: seq<Stack>, p: Stack, ts: seq<Tree>, seen: set<Signature>, b: nat)
    requires ts != [] && ts[0].sig !in seen && Placed(g, p, ts, seen, b)
    ensures Spans(g, p + [ts[0].sig], b, b + |VisitsOf(ts[0])|)
  {
    var sig, head, tail := ts[0].sig, VisitsOf(ts[0]), Visits(ts[1..], seen + {ts[0].sig});
    var q, n := p + [sig], |head|;
    VisitsRoots(ts[0].children, {});
    VisitsRoots(ts[1..], seen + {sig});
    forall i | 0 <= i < |g|
      ensures q <= g[i] <==> b <= i < b + n
    {
      if q <= g[i] {
        assert g[i][|p|] == sig;
        assert Through(p, ts, seen, g[i]);
      }
      if b <= i < b + n {
        assert Visits(ts, seen)[i - b] == head[i - b];
      } else if b + n <= i < b + n + |tail| {
        var x := tail[i - b - n];
        assert Visits(ts, seen)[i - b] == x && x in tail;
        assert x != [] ==> g[i][|p|] == x[0] != sig;
      }
    }
  }

  lemma ChildrenPlaced(g: seq<Stack>, p: Stack, ts: seq<Tree>, seen: set<Signature>, b: nat)
    requires ts != [] && ts[0].sig !in seen && Placed(g, p, ts, seen, b)
    requires Spans(g, p + [ts[0].sig], b, b + |VisitsOf(ts[0])|)
    ensures Placed(g, p + [ts[0].sig], ts[0].children, {}, b)
    ensures ts[0].children == [] ==> g[b] == p + [ts[0].sig]
  {
    var q, kids := p + [ts[0].sig], ts[0].children;
    var vs := Visits(kids, {});
    assert Visits(ts, seen)[0] == VisitsOf(ts[0])[0];
    forall i | b <= i < b + |vs|
      ensures g[i] == q + vs[i - b]
    {
      assert Visits(ts, seen)[i - b] == VisitsOf(ts[0])[i - b] == [ts[0].sig] + vs[i - b];
    }
    forall i | 0 <= i < |g| && Through(q, kids, {}, g[i])
      ensures b <= i < b + |vs|
    {
      assert q <= g[i];
    }
  }

  lemma SiblingsPlaced(g: seq<Stack>, p: Stack, ts: seq<Tree>, seen: set<Signature>, b: nat)
    requires ts != [] && ts[0].sig !in seen && Placed(g, p, ts, seen, b)
    requires Spans(g, p + [ts[0].sig], b, b + |VisitsOf(ts[0])|)
    ensures Placed(g, p, ts[1..], seen + {ts[0].sig}, b + |VisitsOf(ts[0])|)
  {
    var q, n := p + [ts[0].sig], |VisitsOf(ts[0])|;
    var rest, seen' := ts[1..], seen + {ts[0].sig};
    var vs := Visits(rest, seen');
    forall i | b + n <= i < b + n + |vs|
      ensures g[i] == p + vs[i - (b + n)]
    {
      assert Visits(ts, seen)[i - b] == vs[i - b - n];
    }
    forall i | 0 <= i < |g| && Through(p, rest, seen', g[i])
      ensures b + n <= i < b + n + |vs|
    {
      HasRootLater(ts, g[i][|p|]);
      assert Through(p, ts, seen, g[i]) && !(q <= g[i]);
    }
  }

  lemma RepeatedPlaced(g: seq<Stack>, p: Stack, ts: seq<Tree>, seen: set<Signature>, b: nat)
    requires ts != [] && ts[0].sig in seen && Placed(g, p, ts, seen, b)
    ensures Placed(g, p, ts[1..], seen, b)
    ensures Visits(ts[1..], seen) == [] ==> b < |g| && g[b] == p
  {
    VisitsRoots(ts[1..], seen);
    if Visits(ts[1..], seen) == [] {
      assert Visits(ts, seen) == [[]] && g[b] == p + [];
    } else {
      forall i | 0 <= i < |g| && Through(p, ts[1..], seen, g[i])
        ensures b <= i < b + |Visits(ts[1..], seen)|
      {
        HasRootLater(ts, g[i][|p|]);
      }
    }
  }

  lemma EndedGrows(g: seq<Stack>, p: Stack, seen: set<Signature>, sig: Signature, b: nat, n: nat)
    requires AllEnded(g, p, seen, b) && Spans(g, p + [sig], b, b + n)
    ensures AllEnded(g, p, seen + {sig}, b + n)
  {
    forall s <- seen + {sig}
      ensures Ended(g, p + [s], b + n)
    {
      if s in seen {
        var a: nat, c: nat :| Spans(g, p + [s], a, c) && c <= b;
      }
    }
  }

  lemma {:induction false} PlacedIsLaid(g: seq<Stack>, p: Stack, ts: seq<Tree>, seen: set<Signature>, b: nat)
    requires Placed(g, p, ts, seen, b) && AllEnded(g, p, seen, b)
    ensures Laid(g, p, ts, seen, b)
    decreases ts
  {
    hide Placed, AllEnded, Visits, VisitsOf, Spans;
    if ts != [] {
      var sig := ts[0].sig;
      if sig in seen {
        RepeatedPlaced(g, p, ts, seen, b);
        PlacedIsLaid(g, p, ts[1..], seen, b);
        RepeatedEnded(g, p, seen, sig, b);
      } else {
        var n := |VisitsOf(ts[0])|;
        FirstRootSpans(g, p, ts, seen, b);
        ChildrenPlaced(g, p, ts, seen, b);
        SiblingsPlaced(g, p, ts, seen, b);
        EndedGrows(g, p, seen, sig, b, n);
        NothingEnded(g, p + [sig], b);
        PlacedIsLaid(g, p + [sig], ts[0].children, {}, b);
        PlacedIsLaid(g, p, ts[1..], seen + {sig}, b + n);
      }
    }
  }

  lemma RepeatedEnded(g: seq<Stack>, p: Stack, seen: set<Signature>, sig: Signature, b: nat)
    requires AllEnded(g, p, seen, b) && sig in seen
    ensures Ended(g, p + [sig], b)
  {}

  lemma NothingEnded(g: seq<Stack>, p: Stack, b: nat)
    ensures AllEnded(g, p, {}, b)
  {}

  /** The visits below any node are consecutive. */
  lemma ForestIsLaid(ts: seq<Tree>)
    ensures Laid(Visits(ts, {}), [], ts, {}, 0)
  {
    var g := Visits(ts, {});
    NothingEnded(g, [], 0);
    assert Placed(g, [], ts, {}, 0);
    PlacedIsLaid(g, [], ts, {}, 0);
  }

  lemma {:induction false} LeafSpansItself(g: seq<Stack>, p: Stack, ts: seq<Tree>, seen: set<Signature>, b: nat, i: nat)
    requires DistinctSiblings(ts) && AllNew(ts, seen)
    requires Laid(g, p, ts, seen, b) && b <= i < b + |Visits(ts, seen)| && i < |g|
    ensures Spans(g, g[i], i, i + 1)
    decreases ts
  {
    var n := |VisitsOf(ts[0])|;
    RestIsDistinct(ts, seen);
    if b + n <= i {
      LeafSpansItself(g, p, ts[1..], seen + {ts[0].sig}, b + n, i);
    } else if ts[0].children != [] {
      LeafSpansItself(g, p + [ts[0].sig], ts[0].children, {}, b, i);
    }
  }

  /** With distinct siblings no leaf path repeats or extends another, so each visit reaches one leaf. */
  lemma LeavesIncomparable(ts: seq<Tree>, i: nat, j: nat)
    requires DistinctSiblings(ts) && i < |LeafPaths(ts)| && j < |LeafPaths(ts)|
    ensures LeafPaths(ts)[i] <= LeafPaths(ts)[j] <==> i == j
  {
    VisitsAreLeavesIff(ts);
    ForestIsLaid(ts);
    LeafSpansItself(LeafPaths(ts), [], ts, {}, 0, i);
  }
}
