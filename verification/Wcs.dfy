/** calc_all_wcs of tools/WCS.py: a depth-first search that stores results while its callers are unfinished. */
module Wcs {
  import opened CallGraph

  datatype Result = Unlimited | Bytes(n: nat)

  type Unit = nat

  datatype Lookup = Missing | Fxn(f: Fn)

  /** In unit `tu` the name stands for `f`: the global function of that name, or else the one local to the unit. */
  ghost predicate StandsFor(globals: map<Name, Fn>, locals: map<Name, map<Unit, Fn>>, tu: Unit, n: Name, f: Fn) {
    (n in globals && globals[n] == f) || (n !in globals && n in locals && tu in locals[n] && locals[n][tu] == f)
  }

  ghost predicate Defined(globals: map<Name, Fn>, locals: map<Name, map<Unit, Fn>>, tu: Unit, n: Name) {
    n in globals || (n in locals && tu in locals[n])
  }

  lemma FoundIs(globals: map<Name, Fn>, locals: map<Name, map<Unit, Fn>>, tu: Unit, n: Name)
    ensures FindFxn(globals, locals, tu, n) == Missing <==> !Defined(globals, locals, tu, n)
    ensures forall f :: FindFxn(globals, locals, tu, n) == Fxn(f) <==> StandsFor(globals, locals, tu, n, f)
  {}

  /** find_fxn: a global function of that name, or a local one of the same translation unit. */
  function FindFxn(globals: map<Name, Fn>, locals: map<Name, map<Unit, Fn>>, tu: Unit, n: Name): Lookup {
    if n in globals then Fxn(globals[n])
    else if n in locals && tu in locals[n] then Fxn(locals[n][tu])
    else Missing
  }

  /** resolve_calls: every called name either yields its function or is unresolved. */
  method ResolveCalls(globals: map<Name, Fn>, locals: map<Name, map<Unit, Fn>>, tu: Unit, calls: set<Name>)
    returns (rCalls: seq<Fn>, unresolved: set<Name>)
    ensures forall n :: n in unresolved <==> n in calls && !Defined(globals, locals, tu, n)
    ensures forall f :: f in rCalls <==> exists n :: n in calls && StandsFor(globals, locals, tu, n, f)
    ensures |rCalls| + |unresolved| == |calls|
  {
    hide FindFxn, StandsFor, Defined;
    rCalls, unresolved := [], {};
    var todo := calls;
    ghost var done := {};
    while todo != {}
      invariant todo + done == calls && todo !! done
      invariant forall n :: n in unresolved <==> n in done && !Defined(globals, locals, tu, n)
      invariant forall f :: f in rCalls <==> exists n :: n in done && StandsFor(globals, locals, tu, n, f)
      invariant |rCalls| + |unresolved| == |done|
      decreases todo
    {
      var call :| call in todo;
      todo := todo - {call};
      done := done + {call};
      FoundIs(globals, locals, tu, call);
      var d := FindFxn(globals, locals, tu, call);
      if d.Fxn? {
        ghost var was := rCalls;
        rCalls := rCalls + [d.f];
        assert forall f :: f in rCalls <==> f in was || f == d.f;
      } else {
        unresolved := unresolved + {call};
      }
    }
    assert done == calls;
  }

  /** What may be stored for `f`: 'unbounded' exactly for unbounded functions, else the true maximum. */
  ghost predicate Right(g: Graph, f: Fn, r: Result, names: set<Name>) {
    && (r == Unlimited <==> CallGraph.Unbounded(g, f))
    && (r.Bytes? ==> IsWorst(g, f, r.n) && forall n: Name :: n in names <==> CallsUnknown(g, f, n))
  }

  ghost predicate GoodMemo(g: Graph, wcs: map<Fn, Result>, unresolved: map<Fn, set<Name>>, parents: seq<Fn>) {
    && g.Ok()
    && wcs.Keys <= g.calls.Keys && g.calls.Keys == unresolved.Keys
    && (forall f :: f in wcs ==> Right(g, f, wcs[f], unresolved[f]))
    && (forall f :: f in g.calls && f !in wcs && f !in parents ==> unresolved[f] == g.own[f])
    && (parents == [] || Path(g, parents))
  }

  /** What stays as it was while `f`'s callers `parents` wait. */
  ghost predicate Keeps(wcs: map<Fn, Result>, un: map<Fn, set<Name>>, parents: seq<Fn>, wcs': map<Fn, Result>, un': map<Fn, set<Name>>) {
    && (forall x :: x in wcs ==> x in wcs' && wcs'[x] == wcs[x])
    && (forall x :: x in parents && x in wcs' ==> x in wcs || wcs'[x] == Unlimited)
    && un'.Keys == un.Keys
    && (forall x :: (x in wcs || x in parents) && x in un ==> un'[x] == un[x])
  }

  /** The functions that are not on the chain of callers. */
  ghost function Open(g: Graph, parents: seq<Fn>): set<Fn> {
    set x | x in g.calls && x !in parents
  }

  lemma OpenShrinks(g: Graph, parents: seq<Fn>, f: Fn)
    requires f in g.calls && f !in parents
    ensures Open(g, parents + [f]) < Open(g, parents)
  {
    assert f in Open(g, parents) && f !in Open(g, parents + [f]);
  }

  class Analysis {
    const g: Graph
    var wcs: map<Fn, Result>
    var unresolved: map<Fn, set<Name>>       // unresolved_calls
    var parents: seq<Fn>

    ghost predicate Valid()
      reads this
    {
      GoodMemo(g, wcs, unresolved, parents)
    }

    /** Manual entries know their stack use in advance; they call nobody. */
    constructor (g: Graph, manual: set<Fn>)
      requires g.Ok() && forall f :: f in manual ==> f in g.calls && g.calls[f] == [] && f !in g.ptr && g.own[f] == {}
      ensures Valid() && this.g == g && parents == [] && wcs.Keys == manual
    {
      this.g := g;
      wcs := map f | f in manual :: Bytes(if f in g.local then g.local[f] else 0);
      unresolved := map f | f in g.calls :: g.own[f];
      parents := [];
      new;
      forall f | f in manual
        ensures Right(g, f, wcs[f], unresolved[f])
      {
        LeafRight(g, f);
      }
    }

    /** calc_wcs */
    method Calc(f: Fn)
      requires Valid() && f in g.calls && (parents != [] ==> f in g.calls[parents[|parents| - 1]])
      modifies this`wcs, this`unresolved, this`parents
      ensures Valid() && parents == old(parents) && f in wcs
      ensures Keeps(old(wcs), old(unresolved), parents, wcs, unresolved)
      decreases Open(g, parents), 0
    {
      hide GoodMemo, Right, Path, Done, CallGraph.Unbounded, Keeps, Open, IsWorst, CallsUnknown;
      KeepsSame(wcs, unresolved, parents);
      if f in wcs {
        return;
      }
      Facts(g, wcs, unresolved, parents);
      if f in g.ptr {
        PtrIsUnbounded(g, f);
        StoreOk(g, wcs, unresolved, parents, f, Unlimited);
        KeepsStore(old(wcs), old(unresolved), parents, f, wcs, unresolved, Unlimited);
        wcs := wcs[f := Unlimited];
        return;
      }
      if f in parents {
        OnCycle(g, parents, f);
        StoreOk(g, wcs, unresolved, parents, f, Unlimited);
        KeepsStore(old(wcs), old(unresolved), parents, f, wcs, unresolved, Unlimited);
        wcs := wcs[f := Unlimited];
        return;
      }
      var callMax := 0;
      ghost var worst: seq<nat> := [];
      ghost var chain := parents + [f];
      var k := 0;
      StartDone(g, wcs, unresolved, parents, f);
      PushOk(g, wcs, unresolved, parents, f);
      while k < |g.calls[f]|
        invariant k <= |g.calls[f]| && parents == old(parents) && GoodMemo(g, wcs, unresolved, chain) && f in unresolved
        invariant Keeps(old(wcs), old(unresolved), parents, wcs, unresolved) && (f in wcs ==> wcs[f] == Unlimited)
        invariant Done(g, f, k, worst, callMax, unresolved[f])
      {
        var c := g.calls[f][k];
        OpenShrinks(g, parents, f);
        ghost var before, un := wcs, unresolved;
        Visit(f, c);
        KeepsInner(before, un, chain, wcs, unresolved);
        KeepsMore(old(wcs), old(unresolved), parents, f, before, un, wcs, unresolved);
        Known(g, wcs, unresolved, chain, c);
        if wcs[c] == Unlimited {
          CalleeUnbounded(g, f, k);
          StoreAtEnd(g, wcs, unresolved, parents, f, Unlimited);
          KeepsStore(old(wcs), old(unresolved), parents, f, wcs, unresolved, Unlimited);
          wcs := wcs[f := Unlimited];
          return;
        }
        StepDone(g, f, k, worst, callMax, unresolved[f], wcs[c], unresolved[c]);
        if wcs[c].n > callMax {
          callMax := wcs[c].n;
        }
        CollectOk(g, wcs, unresolved, chain, f, unresolved[f] + unresolved[c]);
        KeepsCollect(old(wcs), old(unresolved), parents, f, wcs, unresolved, unresolved[f] + unresolved[c]);
        unresolved := unresolved[f := unresolved[f] + unresolved[c]];
        worst := worst + [wcs[c].n];
        k := k + 1;
      }
      EndDone(g, f, worst, callMax, unresolved[f]);
      StoreAtEnd(g, wcs, unresolved, parents, f, Bytes(callMax + g.local[f]));
      KeepsStore(old(wcs), old(unresolved), parents, f, wcs, unresolved, Bytes(callMax + g.local[f]));
      wcs := wcs[f := Bytes(callMax + g.local[f])];
    }

    /** The search for callee `c` of `f`, with `f` on the chain of callers meanwhile. */
    method Visit(f: Fn, c: Fn)
      requires GoodMemo(g, wcs, unresolved, parents + [f]) && f in g.calls && c in g.calls[f] && c in g.calls
      modifies this`wcs, this`unresolved, this`parents
      ensures parents == old(parents) && GoodMemo(g, wcs, unresolved, parents + [f]) && c in wcs && f in unresolved
      ensures Keeps(old(wcs), old(unresolved), parents + [f], wcs, unresolved)
      decreases Open(g, parents + [f]), 1
    {
      hide GoodMemo, Keeps, Open;
      parents := parents + [f];
      Calc(c);
      Facts(g, wcs, unresolved, parents);
      parents := parents[..|parents| - 1];
    }

    /** The loops over all functions. */
    method CalcAll()
      requires Valid() && parents == []
      modifies this`wcs, this`unresolved, this`parents
      ensures Valid() && parents == [] && wcs.Keys == g.calls.Keys
      ensures forall f :: f in g.calls ==> f in unresolved && Right(g, f, wcs[f], unresolved[f])
    {
      hide Right;
      var todo := g.calls.Keys;
      while todo != {}
        invariant Valid() && parents == [] && todo <= g.calls.Keys && g.calls.Keys - todo <= wcs.Keys
        decreases |todo|
      {
        var f :| f in todo;
        Calc(f);
        todo := todo - {f};
      }
    }
  }

  /** After `k` callees: their worst cases, the maximum so far, and the unknown names collected so far. */
  ghost predicate Done(g: Graph, f: Fn, k: nat, worst: seq<nat>, m: nat, names: set<Name>)
    requires f in g.calls && f in g.own
  {
    && |worst| == k <= |g.calls[f]|
    && (forall i :: 0 <= i < k ==> !CallGraph.Unbounded(g, g.calls[f][i]) && IsWorst(g, g.calls[f][i], worst[i]) && worst[i] <= m)
    && (m == 0 || exists i :: 0 <= i < k && worst[i] == m)
    && (forall n: Name :: n in names <==> n in g.own[f] || exists i :: 0 <= i < k && CallsUnknown(g, g.calls[f][i], n))
  }

  lemma LeafRight(g: Graph, f: Fn)
    requires g.Ok() && f in g.calls && g.calls[f] == [] && f !in g.ptr
    ensures Right(g, f, Bytes(g.local[f]), g.own[f])
  {
    CallerBounded(g, f);
    CallerWorst(g, f, [], 0);
    forall n: Name
      ensures CallsUnknown(g, f, n) <==> n in g.own[f]
    {
      CallerUnknown(g, f, n);
    }
  }

  lemma KeepsSame(wcs: map<Fn, Result>, un: map<Fn, set<Name>>, parents: seq<Fn>)
    ensures Keeps(wcs, un, parents, wcs, un)
  {}

  lemma KeepsStore(w: map<Fn, Result>, u: map<Fn, set<Name>>, parents: seq<Fn>, f: Fn, w': map<Fn, Result>, u': map<Fn, set<Name>>, r: Result)
    requires Keeps(w, u, parents, w', u') && f !in w && (f in parents ==> r == Unlimited)
    ensures Keeps(w, u, parents, w'[f := r], u')
  {}

  /** The chain of callers while the callees of `f` are searched. */
  lemma KeepsInner(w: map<Fn, Result>, u: map<Fn, set<Name>>, parents: seq<Fn>, w': map<Fn, Result>, u': map<Fn, set<Name>>)
    requires Keeps(w, u, parents, w', u')
    ensures forall x :: x in w ==> x in w' && w'[x] == w[x]
    ensures u'.Keys == u.Keys && forall x :: x in parents && x in u ==> u'[x] == u[x]
    ensures forall x :: x in parents && x in w' ==> x in w || w'[x] == Unlimited
  {}

  lemma KeepsMore(w: map<Fn, Result>, u: map<Fn, set<Name>>, parents: seq<Fn>, f: Fn,
                  v: map<Fn, Result>, n: map<Fn, set<Name>>, v': map<Fn, Result>, n': map<Fn, set<Name>>)
    requires Keeps(w, u, parents, v, n) && Keeps(v, n, parents + [f], v', n')
    ensures Keeps(w, u, parents, v', n')
  {}

  lemma KeepsCollect(w: map<Fn, Result>, u: map<Fn, set<Name>>, parents: seq<Fn>, f: Fn, w': map<Fn, Result>, u': map<Fn, set<Name>>, s: set<Name>)
    requires Keeps(w, u, parents, w', u') && f !in w && f !in parents && f in u'
    ensures Keeps(w, u, parents, w', u'[f := s])
  {}

  lemma Facts(g: Graph, wcs: map<Fn, Result>, un: map<Fn, set<Name>>, parents: seq<Fn>)
    requires GoodMemo(g, wcs, un, parents)
    ensures g.Ok() && un.Keys == g.calls.Keys && wcs.Keys <= g.calls.Keys
    ensures parents == [] || Path(g, parents)
    ensures forall x :: x in parents ==> x in g.calls
  {}

  lemma Known(g: Graph, wcs: map<Fn, Result>, un: map<Fn, set<Name>>, parents: seq<Fn>, c: Fn)
    requires GoodMemo(g, wcs, un, parents) && c in wcs
    ensures c in un && Right(g, c, wcs[c], un[c])
    ensures wcs[c] == Unlimited <==> CallGraph.Unbounded(g, c)
  {}

  lemma StoreOk(g: Graph, wcs: map<Fn, Result>, un: map<Fn, set<Name>>, parents: seq<Fn>, f: Fn, r: Result)
    requires GoodMemo(g, wcs, un, parents) && f in un
    requires r == Unlimited ==> CallGraph.Unbounded(g, f)
    requires r != Unlimited ==> Right(g, f, r, un[f])
    ensures GoodMemo(g, wcs[f := r], un, parents)
  {
    hide CallGraph.Unbounded;
  }

  lemma PushOk(g: Graph, wcs: map<Fn, Result>, un: map<Fn, set<Name>>, parents: seq<Fn>, f: Fn)
    requires GoodMemo(g, wcs, un, parents) && f in g.calls && (parents != [] ==> f in g.calls[parents[|parents| - 1]])
    ensures GoodMemo(g, wcs, un, parents + [f])
  {
    hide Right;
    SinglePath(g, f);
    if parents != [] { JoinPaths(g, parents, [f]); } else { assert parents + [f] == [f]; }
  }

  lemma StoreAtEnd(g: Graph, wcs: map<Fn, Result>, un: map<Fn, set<Name>>, parents: seq<Fn>, f: Fn, r: Result)
    requires GoodMemo(g, wcs, un, parents + [f]) && f in un
    requires r == Unlimited ==> CallGraph.Unbounded(g, f)
    requires r != Unlimited ==> Right(g, f, r, un[f])
    ensures GoodMemo(g, wcs[f := r], un, parents)
  {
    hide CallGraph.Unbounded;
    StoreOk(g, wcs, un, parents + [f], f, r);
    hide Right;
    var p := parents + [f];
    if parents != [] {
      SubPath(g, p, 0, |parents|);
      assert p[0..|parents|] == parents;
    }
  }

  lemma CollectOk(g: Graph, wcs: map<Fn, Result>, un: map<Fn, set<Name>>, chain: seq<Fn>, f: Fn, s: set<Name>)
    requires GoodMemo(g, wcs, un, chain) && f in un && f in chain && (f in wcs ==> wcs[f] == Unlimited)
    ensures GoodMemo(g, wcs, un[f := s], chain)
  {
    hide CallGraph.Unbounded, IsWorst;
  }

  lemma StartDone(g: Graph, wcs: map<Fn, Result>, un: map<Fn, set<Name>>, parents: seq<Fn>, f: Fn)
    requires GoodMemo(g, wcs, un, parents) && f in g.calls && f !in wcs && f !in parents
    ensures f in un && f in g.own && Done(g, f, 0, [], 0, un[f])
  {}

  /** One more callee with a stored value. */
  lemma StepDone(g: Graph, f: Fn, k: nat, worst: seq<nat>, m: nat, names: set<Name>, r: Result, more: set<Name>)
    requires f in g.calls && f in g.own && k < |g.calls[f]| && Done(g, f, k, worst, m, names)
    requires r.Bytes? && Right(g, g.calls[f][k], r, more)
    ensures Done(g, f, k + 1, worst + [r.n], if r.n > m then r.n else m, names + more)
  {
    hide CallGraph.Unbounded, IsWorst, CallsUnknown;
    var w := worst + [r.n];
    assert w[k] == r.n;
    if m > 0 && r.n <= m {
      var i :| 0 <= i < k && worst[i] == m;
      assert w[i] == m;
    }
  }

  /** With every callee bounded, the sum of the own stack and the maximum is right. */
  lemma EndDone(g: Graph, f: Fn, worst: seq<nat>, m: nat, names: set<Name>)
    requires g.Ok() && f in g.calls && f !in g.ptr && Done(g, f, |g.calls[f]|, worst, m, names)
    ensures Right(g, f, Bytes(m + g.local[f]), names)
  {
    hide CallGraph.Unbounded, IsWorst, CallsUnknown;
    CallerBounded(g, f);
    CallerWorst(g, f, worst, m);
    forall n: Name
      ensures n in names <==> CallsUnknown(g, f, n)
    {
      CallerUnknown(g, f, n);
    }
  }

  lemma OnCycle(g: Graph, parents: seq<Fn>, f: Fn)
    requires g.Ok() && Path(g, parents) && f in parents && f in g.calls[parents[|parents| - 1]]
    ensures CallGraph.Unbounded(g, f)
  {
    var i :| 0 <= i < |parents| && parents[i] == f;
    SinglePath(g, f);
    JoinPaths(g, parents, [f]);
    CycleIsUnbounded(g, parents + [f], i);
  }
}
