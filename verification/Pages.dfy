/** The page list of the slab allocator (slab.c:211-306): address-ordered runs of free pages. */
module Pages {
  /** `count` free pages from page `start` on: struct rt_slab_page. */
  datatype Run = Run(start: nat, count: nat)

  datatype Found = Nothing | At(page: nat)

  /** Runs are not empty, are in address order, and do not touch each other. */
  predicate Canonical(l: seq<Run>) {
    l == [] || (l[0].count > 0 && Canonical(l[1..]) && (|l| > 1 ==> l[0].start + l[0].count < l[1].start))
  }

  predicate InRun(r: Run, p: nat) {
    r.start <= p < r.start + r.count
  }

  /** Page `p` is free. */
  predicate Free(l: seq<Run>, p: nat) {
    l != [] && (InRun(l[0], p) || Free(l[1..], p))
  }

  predicate Within(p: nat, b: nat, n: nat) {
    b <= p < b + n
  }

  /** The `n` pages from `b` on are free. */
  ghost predicate AllFree(l: seq<Run>, b: nat, n: nat) {
    forall p: nat :: Within(p, b, n) ==> Free(l, p)
  }

  /** None of the `n` pages from `b` on is free. */
  ghost predicate NoneFree(l: seq<Run>, b: nat, n: nat) {
    forall p: nat :: Within(p, b, n) ==> !Free(l, p)
  }

  /** rt_slab_page_alloc: the pages found and the list that is left. */
  function TakePages(l: seq<Run>, n: nat): (Found, seq<Run>) {
    if l == [] then (Nothing, l)
    else if l[0].count > n then (At(l[0].start), [Run(l[0].start + n, l[0].count - n)] + l[1..])
    else if l[0].count == n then (At(l[0].start), l[1..])
    else var (f, r) := TakePages(l[1..], n); (f, [l[0]] + r)
  }

  /** rt_slab_page_free */
  function PutPages(l: seq<Run>, b: nat, n: nat): seq<Run> {
    if l == [] then [Run(b, n)]
    else if l[0].start + l[0].count == b then
      if |l| > 1 && b + n == l[1].start then [Run(l[0].start, l[0].count + n + l[1].count)] + l[2..]
      else [Run(l[0].start, l[0].count + n)] + l[1..]
    else if l[0].start == b + n then [Run(b, l[0].count + n)] + l[1..]
    else if l[0].start > b + n then [Run(b, n)] + l
    else [l[0]] + PutPages(l[1..], b, n)
  }

  /** The other runs lie behind the first, with a gap. */
  lemma {:induction false} Beyond(l: seq<Run>, p: nat)
    requires Canonical(l) && l != []
    ensures Free(l, p) ==> p >= l[0].start
    ensures Free(l[1..], p) ==> p > l[0].start + l[0].count
    ensures Free(l, p) <==> InRun(l[0], p) || Free(l[1..], p)
  {
    if |l| > 1 {
      assert l[1..][0] == l[1];
      Beyond(l[1..], p);
    } else {
      assert l[1..] == [];
      assert !Free(l[1..], p);
    }
  }

  lemma HeadFree(l: seq<Run>)
    requires Canonical(l) && l != []
    ensures Free(l, l[0].start)
  {
    assert InRun(l[0], l[0].start);
  }

  /** The list is determined by the set of free pages. */
  lemma {:induction false} ListUnique(a: seq<Run>, b: seq<Run>)
    requires Canonical(a) && Canonical(b) && forall p: nat :: Free(a, p) <==> Free(b, p)
    ensures a == b
    decreases |a|
  {
    if a == [] {
      if b != [] { HeadFree(b); }
    } else {
      HeadFree(a);
      assert b != [];
      HeadFree(b);
      Beyond(a, b[0].start);
      Beyond(b, a[0].start);
      RunEnd(a);
      RunEnd(b);
      SameEnd(a, b);
      SameEnd(b, a);
      forall p: nat
        ensures Free(a[1..], p) <==> Free(b[1..], p)
      {
        Beyond(a, p);
        Beyond(b, p);
      }
      ListUnique(a[1..], b[1..]);
      assert a == [a[0]] + a[1..] && b == [b[0]] + b[1..];
    }
  }

  lemma RunEnd(l: seq<Run>)
    requires Canonical(l) && l != []
    ensures !Free(l, l[0].start + l[0].count)
  {
    Beyond(l, l[0].start + l[0].count);
  }

  lemma SameEnd(a: seq<Run>, b: seq<Run>)
    requires Canonical(a) && Canonical(b) && a != [] && b != [] && a[0].start == b[0].start
    requires forall p: nat :: Free(a, p) <==> Free(b, p)
    ensures a[0].count <= b[0].count
  {
    if a[0].count > b[0].count {
      var e := b[0].start + b[0].count;
      assert InRun(a[0], e) && Free(a, e);
      RunEnd(b);
      assert false;
    }
  }

  /** Contiguous free pages lie inside one run. */
  lemma OneRun(l: seq<Run>, q: nat, n: nat)
    requires Canonical(l) && l != [] && n > 0 && AllFree(l, q, n)
    ensures (l[0].start <= q && q + n <= l[0].start + l[0].count) || AllFree(l[1..], q, n)
  {
    assert Within(q, q, n);
    Beyond(l, q);
    if InRun(l[0], q) {
      if q + n > l[0].start + l[0].count {
        var e := l[0].start + l[0].count;
        assert Within(e, q, n) && Free(l, e);
        RunEnd(l);
        assert false;
      }
    } else {
      forall p: nat | Within(p, q, n)
        ensures Free(l[1..], p)
      {
        Beyond(l, p);
        Beyond(l, q);
      }
    }
  }

  /** What is left is canonical and starts no earlier. */
  lemma {:induction false} TakeCanonical(l: seq<Run>, n: nat)
    requires Canonical(l) && n > 0
    ensures var (f, r) := TakePages(l, n);
      Canonical(r) && (l != [] && r != [] ==> r[0].start >= l[0].start)
  {
    if l != [] && l[0].count < n {
      TakeCanonical(l[1..], n);
      var (f, r) := TakePages(l[1..], n);
      assert ([l[0]] + r)[1..] == r;
      if |l| > 1 { assert l[1..][0] == l[1]; }
      if |l| == 1 { assert l[1..] == []; }
    } else if l != [] && l[0].count > n {
      var h := Run(l[0].start + n, l[0].count - n);
      assert ([h] + l[1..])[1..] == l[1..];
    }
  }

  /**
   Allocation takes the lowest `n` contiguous free pages and nothing else; it fails only
   if there are no `n` contiguous free pages.
   */
  lemma {:induction false} TakeIsLowestFit(l: seq<Run>, n: nat)
    requires Canonical(l) && n > 0
    ensures var (f, r) := TakePages(l, n);
      && Canonical(r)
      && (f == Nothing ==> r == l && forall q: nat :: !AllFree(l, q, n))
      && (f.At? ==> AllFree(l, f.page, n))
      && (f.At? ==> forall q: nat :: q < f.page ==> !AllFree(l, q, n))
      && (f.At? ==> forall p: nat :: Free(r, p) <==> Free(l, p) && !Within(p, f.page, n))
  {
    TakeCanonical(l, n);
    var (f, r) := TakePages(l, n);
    if l == [] {
      forall q: nat
        ensures !AllFree(l, q, n)
      {
        assert Within(q, q, n);
      }
    } else {
      TakeEarlier(l, n);
      TakeContent(l, n);
    }
  }

  /** No fit starts below the one taken. */
  lemma {:induction false} TakeEarlier(l: seq<Run>, n: nat)
    requires Canonical(l) && n > 0
    ensures var (f, r) := TakePages(l, n);
      forall q: nat :: f == Nothing || q < f.page ==> !AllFree(l, q, n)
  {
    var (f, r) := TakePages(l, n);
    if l != [] && l[0].count < n { TakeEarlier(l[1..], n); }
    forall q: nat | f == Nothing || q < f.page
      ensures !AllFree(l, q, n)
    {
      assert Within(q, q, n);
      if AllFree(l, q, n) {
        OneRun(l, q, n);
        if AllFree(l[1..], q, n) { Beyond(l, q); }
      }
    }
  }

  lemma {:induction false} TakeContent(l: seq<Run>, n: nat)
    requires Canonical(l) && n > 0
    ensures var (f, r) := TakePages(l, n);
      && (f == Nothing ==> r == l)
      && (f.At? ==> AllFree(l, f.page, n) && forall p: nat :: Free(r, p) <==> Free(l, p) && !Within(p, f.page, n))
  {
    var (f, r) := TakePages(l, n);
    if l != [] {
      if l[0].count < n {
        TakeContent(l[1..], n);
        TakeCanonical(l, n);
        assert l == [l[0]] + l[1..];
        var t := TakePages(l[1..], n).1;
        assert r == [l[0]] + t && r[1..] == t;
        if f.At? {
          forall p: nat
            ensures Free(r, p) <==> Free(l, p) && !Within(p, f.page, n)
          {
            assert Within(f.page, f.page, n);
            Beyond(l, p);
            Beyond(l, f.page);
          }
        }
      } else {
        var b := l[0].start;
        var h := Run(b + n, l[0].count - n);
        assert l[0].count > n ==> r == [h] + l[1..] && r[1..] == l[1..];
        forall p: nat
          ensures Free(r, p) <==> Free(l, p) && !Within(p, b, n)
        {
          Beyond(l, p);
        }
      }
    }
  }

  /** Freeing adds exactly the given pages and keeps the list canonical. */
  lemma {:induction false} PutAddsExactly(l: seq<Run>, b: nat, n: nat)
    requires Canonical(l) && n > 0 && NoneFree(l, b, n)
    ensures var r := PutPages(l, b, n);
      && Canonical(r) && r != [] && r[0].start == (if l == [] || b < l[0].start then b else l[0].start)
      && forall p: nat :: Free(r, p) <==> Free(l, p) || Within(p, b, n)
  {
    var r := PutPages(l, b, n);
    if l != [] {
      PutBeside(l, b, n);
      var h := l[0];
      if h.start + h.count == b || h.start == b + n || h.start > b + n {
        PutHere(l, b, n);
      } else {
        var t := l[1..];
        forall p: nat | Within(p, b, n)
          ensures !Free(t, p)
        {
          Beyond(l, p);
        }
        PutAddsExactly(t, b, n);
        var u := PutPages(t, b, n);
        assert r == [h] + u && r[1..] == u;
        assert |l| > 1 ==> t[0] == l[1];
        forall p: nat
          ensures Free(r, p) <==> Free(l, p) || Within(p, b, n)
        {
          Beyond(l, p);
        }
      }
    } else {
      assert r[1..] == [];
    }
  }

  /** The assertion at slab.c:267: the freed pages lie on one side of every run. */
  lemma PutBeside(l: seq<Run>, b: nat, n: nat)
    requires Canonical(l) && l != [] && n > 0 && NoneFree(l, b, n)
    ensures l[0].start > b || l[0].start + l[0].count <= b
    ensures l[0].start >= b + n || l[0].start + l[0].count <= b
  {
    HeadFree(l);
    assert !Within(l[0].start, b, n);
    assert Within(b, b, n);
    assert !InRun(l[0], b);
  }

  lemma PutHere(l: seq<Run>, b: nat, n: nat)
    requires Canonical(l) && l != [] && n > 0 && NoneFree(l, b, n)
    requires l[0].start + l[0].count == b || l[0].start == b + n || l[0].start > b + n
    ensures var r := PutPages(l, b, n);
      && Canonical(r) && r != [] && r[0].start == (if b < l[0].start then b else l[0].start)
      && forall p: nat :: Free(r, p) <==> Free(l, p) || Within(p, b, n)
  {
    var r := PutPages(l, b, n);
    var h := l[0];
    var t := l[1..];
    assert |l| > 1 ==> t[0] == l[1];
    if h.start + h.count == b {
      if |l| > 1 {
        HeadFree(t);
        Beyond(l, l[1].start);
        assert !Within(l[1].start, b, n);
        if b + n == l[1].start {
          assert r[1..] == l[2..] == t[1..];
          assert |l| > 2 ==> t[1] == l[2];
        } else {
          assert r[1..] == t;
        }
      } else {
        assert r[1..] == t;
      }
      forall p: nat
        ensures Free(r, p) <==> Free(l, p) || Within(p, b, n)
      {
        Beyond(l, p);
        if |l| > 1 { Beyond(t, p); }
      }
    } else {
      assert r[1..] == if h.start == b + n then t else l;
      forall p: nat
        ensures Free(r, p) <==> Free(l, p) || Within(p, b, n)
      {
        Beyond(l, p);
      }
    }
  }

  /** Freeing what was just allocated restores the identical list. */
  lemma TakePutIdentity(l: seq<Run>, n: nat)
    requires Canonical(l) && n > 0 && TakePages(l, n).0.At?
    ensures PutPages(TakePages(l, n).1, TakePages(l, n).0.page, n) == l
  {
    TakeIsLowestFit(l, n);
    var (f, r) := TakePages(l, n);
    PutAddsExactly(r, f.page, n);
    var u := PutPages(r, f.page, n);
    forall p: nat
      ensures Free(u, p) <==> Free(l, p)
    {}
    ListUnique(u, l);
  }
}
