/** Call graphs and the worst-case stack of a function, as the paths of the graph define it (tools/WCS.py). */
module CallGraph {
  type Fn = nat

  type Name = nat

  /** The functions, whom they call, who calls through a pointer, local_stack, and calls to unknown names. */
  datatype Graph = Graph(calls: map<Fn, seq<Fn>>, ptr: set<Fn>, local: map<Fn, nat>, own: map<Fn, set<Name>>) {
    ghost predicate Ok() {
      && (forall f :: f in calls ==> f in local && f in own)
      && (forall f, i :: f in calls && 0 <= i < |calls[f]| ==> calls[f][i] in calls)
    }
  }

  /** A chain of calls. */
  ghost predicate Path(g: Graph, p: seq<Fn>) {
    && p != [] && (forall i :: 0 <= i < |p| ==> p[i] in g.calls)
    && (forall i, j :: 0 <= i && j == i + 1 && j < |p| ==> p[j] in g.calls[p[i]])
  }

  ghost predicate PathFrom(g: Graph, f: Fn, p: seq<Fn>) {
    p != [] && Path(g, p) && p[0] == f
  }

  ghost predicate Repeats(p: seq<Fn>) {
    exists i, j :: 0 <= i < j < |p| && p[i] == p[j]
  }

  /** The path ends in a call through a pointer, or runs through a cycle. */
  ghost predicate Trouble(g: Graph, p: seq<Fn>) {
    p != [] && (p[|p| - 1] in g.ptr || Repeats(p))
  }

  /** `f` can reach a call through a pointer or a cycle. */
  ghost predicate Unbounded(g: Graph, f: Fn) {
    exists p :: PathFrom(g, f, p) && Trouble(g, p)
  }

  function Total(g: Graph, p: seq<Fn>): nat {
    if p == [] then 0 else (if p[0] in g.local then g.local[p[0]] else 0) + Total(g, p[1..])
  }

  /** `v` is the largest sum of local stacks over the call paths from `f`. */
  ghost predicate IsWorst(g: Graph, f: Fn, v: nat) {
    && (forall p :: PathFrom(g, f, p) ==> Total(g, p) <= v)
    && (exists p :: PathFrom(g, f, p) && Total(g, p) == v)
  }

  ghost predicate Reaches(g: Graph, f: Fn, h: Fn) {
    exists p :: PathFrom(g, f, p) && p[|p| - 1] == h
  }

  /** Some function that `f` can reach calls the unknown name `n`. */
  ghost predicate CallsUnknown(g: Graph, f: Fn, n: Name) {
    exists h :: Reaches(g, f, h) && h in g.own && n in g.own[h]
  }

  // ---- paths -------------------------------------------------------------------------------------

  lemma SinglePath(g: Graph, f: Fn)
    requires g.Ok() && f in g.calls
    ensures PathFrom(g, f, [f]) && Total(g, [f]) == g.local[f]
  {
    assert [f][1..] == [];
  }

  lemma ExtendPath(g: Graph, f: Fn, q: seq<Fn>)
    requires g.Ok() && f in g.calls && Path(g, q) && q[0] in g.calls[f]
    ensures PathFrom(g, f, [f] + q) && Total(g, [f] + q) == g.local[f] + Total(g, q)
  {
    var p := [f] + q;
    assert p[1..] == q;
    forall i, j | 0 <= i && j == i + 1 && j < |p|
      ensures p[j] in g.calls[p[i]]
    {
      if i > 0 {
        var a := i - 1;
        assert q[i] in g.calls[q[a]];
      }
    }
  }

  /** A path from `f` is `f` alone or `f` and a path from one of its callees. */
  lemma PathTail(g: Graph, f: Fn, p: seq<Fn>)
    requires g.Ok() && PathFrom(g, f, p)
    ensures f in g.calls
    ensures |p| > 1 ==> Path(g, p[1..]) && p[1] in g.calls[f] && p == [f] + p[1..] && Total(g, p) == g.local[f] + Total(g, p[1..])
    ensures |p| == 1 ==> p == [f] && Total(g, p) == g.local[f]
  {
    if |p| > 1 {
      var q := p[1..];
      assert p[1] in g.calls[p[0]];
      forall i, j | 0 <= i && j == i + 1 && j < |q|
        ensures q[j] in g.calls[q[i]]
      {
        var a, b := i + 1, j + 1;
        assert p[b] in g.calls[p[a]];
      }
    } else {
      SinglePath(g, f);
      assert p == [f];
    }
  }

  lemma JoinPaths(g: Graph, p: seq<Fn>, q: seq<Fn>)
    requires Path(g, p) && Path(g, q) && q[0] in g.calls[p[|p| - 1]]
    ensures Path(g, p + q)
  {
    var r := p + q;
    forall i, j | 0 <= i && j == i + 1 && j < |r|
      ensures r[j] in g.calls[r[i]]
    {
      if j < |p| {
        assert p[j] in g.calls[p[i]];
      } else if j > |p| {
        var a, b := i - |p|, j - |p|;
        assert q[b] in g.calls[q[a]];
      }
    }
  }

  lemma SubPath(g: Graph, p: seq<Fn>, a: nat, b: nat)
    requires Path(g, p) && a < b <= |p|
    ensures Path(g, p[a..b])
  {
    var q := p[a..b];
    forall i, j | 0 <= i && j == i + 1 && j < |q|
      ensures q[j] in g.calls[q[i]]
    {
      var x, y := a + i, a + j;
      assert p[y] in g.calls[p[x]];
    }
  }

  // ---- what the callees say about the caller -----------------------------------------------------------

  lemma PtrIsUnbounded(g: Graph, f: Fn)
    requires g.Ok() && f in g.calls && f in g.ptr
    ensures Unbounded(g, f)
  {
    SinglePath(g, f);
    assert Trouble(g, [f]);
  }

  /** A function found again on the chain of its callers is on a cycle. */
  lemma CycleIsUnbounded(g: Graph, p: seq<Fn>, i: nat)
    requires Path(g, p) && i < |p| - 1 && p[i] == p[|p| - 1]
    ensures Unbounded(g, p[i])
  {
    var q := p[i..|p|];
    SubPath(g, p, i, |p|);
    assert q[0] == q[|q| - 1] && 0 < |q| - 1;
    assert Repeats(q);
    assert PathFrom(g, p[i], q) && Trouble(g, q);
  }

  lemma CalleeUnbounded(g: Graph, f: Fn, k: nat)
    requires g.Ok() && f in g.calls && k < |g.calls[f]| && Unbounded(g, g.calls[f][k])
    ensures Unbounded(g, f)
  {
    var c := g.calls[f][k];
    var q :| PathFrom(g, c, q) && Trouble(g, q);
    ExtendPath(g, f, q);
    var p := [f] + q;
    if Repeats(q) {
      var i, j :| 0 <= i < j < |q| && q[i] == q[j];
      var a, b := i + 1, j + 1;
      assert p[a] == p[b];
    }
    assert Trouble(g, p);
  }

  /** With no pointer call of its own and all callees bounded, a function is bounded. */
  lemma CallerBounded(g: Graph, f: Fn)
    requires g.Ok() && f in g.calls && f !in g.ptr
    requires forall k :: 0 <= k < |g.calls[f]| ==> !Unbounded(g, g.calls[f][k])
    ensures !Unbounded(g, f)
  {
    forall p | PathFrom(g, f, p)
      ensures !Trouble(g, p)
    {
      PathTail(g, f, p);
      if |p| > 1 {
        var q := p[1..];
        var k :| 0 <= k < |g.calls[f]| && g.calls[f][k] == p[1];
        assert PathFrom(g, p[1], q);
        assert !Trouble(g, q);
        NoReturn(g, f, q, k);
        RepeatInTail(p);
      }
    }
  }

  lemma RepeatInTail(p: seq<Fn>)
    requires |p| > 1 && !Repeats(p[1..]) && p[0] !in p[1..]
    ensures !Repeats(p)
  {
    var q := p[1..];
    forall i, j | 0 <= i < j < |p|
      ensures p[i] != p[j]
    {
      var b := j - 1;
      assert q[b] == p[j];
      if i > 0 {
        var a := i - 1;
        assert q[a] == p[i];
      }
    }
  }

  /** A path from a bounded callee does not come back to the caller. */
  lemma NoReturn(g: Graph, f: Fn, q: seq<Fn>, k: nat)
    requires g.Ok() && f in g.calls && k < |g.calls[f]| && PathFrom(g, g.calls[f][k], q) && !Unbounded(g, g.calls[f][k])
    ensures f !in q
  {
    if f in q {
      var i :| 0 <= i < |q| && q[i] == f;
      var c := g.calls[f][k];
      SubPath(g, q, 0, i + 1);
      SinglePath(g, c);
      JoinPaths(g, q[0..i + 1], [c]);
      var r := q[0..i + 1] + [c];
      assert r[0] == c && r[i + 1] == c;
      assert Repeats(r);
      assert PathFrom(g, c, r) && Trouble(g, r);
      assert false;
    }
  }

  /** The worst case of the caller: its own stack on top of the worst of its callees. */
  lemma CallerWorst(g: Graph, f: Fn, worst: seq<nat>, m: nat)
    requires g.Ok() && f in g.calls && |worst| == |g.calls[f]|
    requires forall k :: 0 <= k < |worst| ==> IsWorst(g, g.calls[f][k], worst[k]) && worst[k] <= m
    requires m == 0 || exists k :: 0 <= k < |worst| && worst[k] == m
    ensures IsWorst(g, f, m + g.local[f])
  {
    hide Path;
    SinglePath(g, f);
    forall p | PathFrom(g, f, p)
      ensures Total(g, p) <= m + g.local[f]
    {
      PathTail(g, f, p);
      if |p| > 1 {
        var k :| 0 <= k < |g.calls[f]| && g.calls[f][k] == p[1];
        assert PathFrom(g, g.calls[f][k], p[1..]);
        assert IsWorst(g, g.calls[f][k], worst[k]);
      }
    }
    if m > 0 {
      var k :| 0 <= k < |worst| && worst[k] == m;
      assert IsWorst(g, g.calls[f][k], worst[k]);
      var q :| PathFrom(g, g.calls[f][k], q) && Total(g, q) == m;
      ExtendPath(g, f, q);
    }
  }

  /** What the caller reaches: itself and what its callees reach. */
  lemma CallerReaches(g: Graph, f: Fn, h: Fn)
    requires g.Ok() && f in g.calls
    ensures Reaches(g, f, h) <==> h == f || exists k :: 0 <= k < |g.calls[f]| && Reaches(g, g.calls[f][k], h)
  {
    hide Path, Total;
    SinglePath(g, f);
    if Reaches(g, f, h) && h != f {
      var p :| PathFrom(g, f, p) && p[|p| - 1] == h;
      PathTail(g, f, p);
      if |p| > 1 {
        var k :| 0 <= k < |g.calls[f]| && g.calls[f][k] == p[1];
        assert PathFrom(g, g.calls[f][k], p[1..]);
        assert p[1..][|p| - 2] == h;
        assert Reaches(g, g.calls[f][k], h);
      }
    }
    if k :| 0 <= k < |g.calls[f]| && Reaches(g, g.calls[f][k], h) {
      var q :| PathFrom(g, g.calls[f][k], q) && q[|q| - 1] == h;
      ExtendPath(g, f, q);
      assert ([f] + q)[|q|] == h;
    }
  }

  lemma CallerUnknown(g: Graph, f: Fn, n: Name)
    requires g.Ok() && f in g.calls
    ensures CallsUnknown(g, f, n) <==> n in g.own[f] || exists k :: 0 <= k < |g.calls[f]| && CallsUnknown(g, g.calls[f][k], n)
  {
    hide Reaches;
    CallerReaches(g, f, f);
    if CallsUnknown(g, f, n) {
      var h :| Reaches(g, f, h) && h in g.own && n in g.own[h];
      CallerReaches(g, f, h);
      if h != f {
        var k :| 0 <= k < |g.calls[f]| && Reaches(g, g.calls[f][k], h);
        assert CallsUnknown(g, g.calls[f][k], n);
      }
    }
    if k :| 0 <= k < |g.calls[f]| && CallsUnknown(g, g.calls[f][k], n) {
      var h :| Reaches(g, g.calls[f][k], h) && h in g.own && n in g.own[h];
      CallerReaches(g, f, h);
    }
  }
}
