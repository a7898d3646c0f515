/** The circular block list and the free list of memheap.c, and what each relinking does to them. */
module MemHeapChain {
  import opened Layout
  import opened Ring

  /** The block-list part of a struct rt_memheap_item; the tailer is a used block. */
  datatype Block = Block(used: bool, next: nat, prev: nat)

  /** A link of the free list: the list header inside struct rt_memheap, a block, or null. */
  datatype Ref = Null | FreeHeader | At(addr: nat)

  type Blocks = map<nat, Block>

  /** Writing a header at `p` destroys the headers it overlaps. */
  function DropBlocks(m: Blocks, p: nat, h: nat): Blocks {
    map q | q in m && Clear(p, q, h) :: m[q]
  }

  predicate Survives(x: Ref, p: nat, h: nat) {
    x.At? ==> Clear(p, x.addr, h)
  }

  function DropLinks(k: Links<Ref>, p: nat, h: nat): Links<Ref> {
    Links(map x | x in k.next && Survives(x, p, h) :: k.next[x], map x | x in k.prev && Survives(x, p, h) :: k.prev[x])
  }

  /** Writing payload bytes [a, b) destroys the headers that lay there. */
  function ScrubBlocks(m: Blocks, a: nat, b: nat, h: nat): Blocks {
    map q | q in m && (q + h <= a || b <= q) :: m[q]
  }

  function ScrubLinks(k: Links<Ref>, a: nat, b: nat, h: nat): Links<Ref> {
    Links(map x | x in k.next && (x.At? ==> x.addr + h <= a || b <= x.addr) :: k.next[x],
          map x | x in k.prev && (x.At? ==> x.addr + h <= a || b <= x.addr) :: k.prev[x])
  }

  /** The block list, started at the first item and closed by the tailer at `t`, spells out `l`. */
  ghost predicate Chained(m: Blocks, l: seq<Item>, t: nat) {
    && |l| > 0
    && (forall i :: 0 <= i < |l| ==> l[i].start in m && m[l[i].start].used == l[i].used && m[l[i].start].next == l[i].end)
    && (forall i, j :: 0 <= i && j == i + 1 && j < |l| ==> m[l[j].start].prev == l[i].start)
    && t in m && m[t].used && m[t].next == l[0].start && m[t].prev == l[|l| - 1].start
    && m[l[0].start].prev == t
  }

  /** The node behind item `j - 1`: the next item, or the tailer. */
  function After(l: seq<Item>, j: nat, t: nat): nat
    requires j <= |l|
  {
    if j < |l| then l[j].start else t
  }

  /** Replacing items i..j by `new_` keeps the chain if the headers change only there and behind. */
  lemma Rechain(m: Blocks, m': Blocks, l: seq<Item>, t: nat, i: nat, j: nat, new_: seq<Item>)
    requires Chained(m, l, t) && i < j <= |l| && new_ != [] && new_[0].start == l[i].start
    requires forall a :: 0 <= a < i || j < a < |l| ==> l[a].start in m' && m'[l[a].start] == m[l[a].start]
    requires After(l, j, t) in m && After(l, j, t) in m'
    requires m'[After(l, j, t)] == m[After(l, j, t)].(prev := new_[|new_| - 1].start)
    requires j < |l| ==> t in m' && m'[t] == m[t]
    requires forall a :: 0 <= a < |new_| ==> new_[a].start in m' && m'[new_[a].start].used == new_[a].used && m'[new_[a].start].next == new_[a].end
    requires forall a, b :: 0 <= a && b == a + 1 && b < |new_| ==> m'[new_[b].start].prev == new_[a].start
    requires m'[l[i].start].prev == m[l[i].start].prev
    ensures Chained(m', Splice(l, i, j, new_), t)
  {
    var r := Splice(l, i, j, new_);
    var n := |new_|;
    forall a | 0 <= a < |r|
      ensures r[a].start in m' && m'[r[a].start].used == r[a].used && m'[r[a].start].next == r[a].end
    {
      assert r[a] == if a < i then l[a] else if a < i + n then new_[a - i] else l[a - n - i + j];
    }
    forall a, b | 0 <= a && b == a + 1 && b < |r|
      ensures m'[r[b].start].prev == r[a].start
    {
      if b < i {
        assert r[a] == l[a] && r[b] == l[b];
      } else if b == i {
        assert r[a] == l[i - 1] && r[b] == new_[0];
        assert m[l[i].start].prev == l[i - 1].start;
      } else if b < i + n {
        assert r[a] == new_[a - i] && r[b] == new_[b - i];
      } else if b == i + n {
        assert r[a] == new_[n - 1] && r[b] == l[j];
      } else {
        assert r[a] == l[a - n - i + j] && r[b] == l[b - n - i + j];
      }
    }
    assert r[0].start == l[0].start;
    assert r[|r| - 1] == if j < |l| then l[|l| - 1] else new_[n - 1];
  }

  /** Splitting: the header at `cut` is new, and is linked in behind `p`. */
  function SplitBlocks(m: Blocks, p: nat, cut: nat, h: nat): Blocks
    requires p in m && m[p].next in m && p + h <= cut && cut + h <= m[p].next
  {
    var n := m[p].next;
    var m1 := DropBlocks(m, cut, h)[cut := Block(false, n, p)];
    var m2 := m1[n := m1[n].(prev := cut)];
    m2[p := m2[p].(next := cut)]
  }

  /** Merging: the item behind `p` is unlinked. */
  function AbsorbBlocks(m: Blocks, p: nat): Blocks
    requires p in m && m[p].next in m && m[m[p].next].next in m && p != m[m[p].next].next
  {
    var n := m[m[p].next].next;
    var m1 := m[n := m[n].(prev := p)];
    m1[p := m1[p].(next := n)]
  }

  /** The chain around item `k`. */
  lemma Neighbours(m: Blocks, l: seq<Item>, t: nat, h: nat, k: nat)
    requires h > 0 && Tiles(l, 0, t, h) && Chained(m, l, t) && k < |l|
    ensures l[k].start in m && m[l[k].start].used == l[k].used && m[l[k].start].next == l[k].end
    ensures l[k].start + h <= l[k].end <= t && l[k].end in m && l[k].end == After(l, k + 1, t)
    ensures k + 1 < |l| ==> m[l[k].end].used == l[k + 1].used && m[l[k].end].next == l[k + 1].end && l[k + 1].end in m
    ensures k + 1 < |l| ==> l[k].end + h <= l[k + 1].end <= t && m[l[k].end].prev == l[k].start
    ensures k + 1 == |l| ==> l[k].end == t && m[t].used
    ensures m[l[k].start].prev in m
    ensures k == 0 ==> m[l[k].start].prev == t && m[t].used && l[k].start == 0
    ensures k > 0 ==> m[l[k].start].prev == l[k - 1].start && m[l[k - 1].start].used == l[k - 1].used
    ensures k > 0 ==> l[k - 1].start + h <= l[k - 1].end == l[k].start && m[l[k - 1].start].next == l[k].start
  {
    InRange(l, 0, t, h, k);
    if k > 0 { assert m[l[k].start].prev == l[k - 1].start; }
    if k + 1 < |l| {
      InRange(l, 0, t, h, k + 1);
      assert k + 2 < |l| ==> l[k + 1].end == l[k + 2].start;
    }
  }

  /** What splitting leaves of the headers. */
  ghost predicate WasSplit(m: Blocks, m': Blocks, p: nat, cut: nat, n: nat, h: nat) {
    && p in m && n in m
    && p in m' && m'[p] == m[p].(next := cut)
    && cut in m' && m'[cut] == Block(false, n, p)
    && n in m' && m'[n] == m[n].(prev := cut)
    && (forall x :: x in m && x != p && x != n && Clear(cut, x, h) ==> x in m' && m'[x] == m[x])
  }

  lemma SplitEffect(m: Blocks, p: nat, cut: nat, h: nat)
    requires h > 0 && p in m && m[p].next in m && p + h <= cut && cut + h <= m[p].next
    ensures WasSplit(m, SplitBlocks(m, p, cut, h), p, cut, m[p].next, h)
  {}

  lemma SplitChained(m: Blocks, m': Blocks, l: seq<Item>, t: nat, h: nat, k: nat, cut: nat)
    requires h > 0 && Tiles(l, 0, t, h) && Chained(m, l, t) && k < |l|
    requires l[k].start + h <= cut && cut + h <= l[k].end
    requires WasSplit(m, m', l[k].start, cut, l[k].end, h)
    ensures Chained(m', SplitItems(l, k, cut), t)
  {
    Apart(l, 0, t, h);
    var p, n := l[k].start, l[k].end;
    assert n == After(l, k + 1, t);
    forall a | 0 <= a < k || k + 1 < a < |l|
      ensures l[a].start in m' && m'[l[a].start] == m[l[a].start]
    {
      if a > k + 1 { assert n == l[k + 1].start; }
      assert Clear(cut, l[a].start, h);
    }
    assert k + 1 < |l| ==> t in m' && m'[t] == m[t] by {
      if k + 1 < |l| { assert l[k + 1].end <= t; assert Clear(cut, t, h); }
    }
    Rechain(m, m', l, t, k, k + 1, [Item(p, cut, l[k].used), Item(cut, n, false)]);
  }

  ghost predicate Absorbed(m: Blocks, m': Blocks, p: nat, n: nat) {
    && p in m && n in m
    && p in m' && m'[p] == m[p].(next := n)
    && n in m' && m'[n] == m[n].(prev := p)
    && (forall x :: x in m && x != p && x != n ==> x in m' && m'[x] == m[x])
  }

  lemma AbsorbChained(m: Blocks, m': Blocks, l: seq<Item>, t: nat, h: nat, k: nat)
    requires h > 0 && Tiles(l, 0, t, h) && Chained(m, l, t) && k + 1 < |l|
    requires Absorbed(m, m', l[k].start, l[k + 1].end)
    ensures Chained(m', AbsorbItems(l, k), t)
  {
    Apart(l, 0, t, h);
    var p, n := l[k].start, l[k + 1].end;
    assert n == After(l, k + 2, t);
    forall a | 0 <= a < k || k + 2 < a < |l|
      ensures l[a].start in m' && m'[l[a].start] == m[l[a].start]
    {
      if a > k + 2 { assert n == l[k + 2].start; }
    }
    assert k + 2 < |l| ==> t in m' && m'[t] == m[t] by {
      if k + 2 < |l| { assert l[k + 2].end <= t; }
    }
    Rechain(m, m', l, t, k, k + 2, [Item(p, n, l[k].used)]);
  }

  lemma MarkChained(m: Blocks, l: seq<Item>, t: nat, h: nat, k: nat, u: bool)
    requires h > 0 && Tiles(l, 0, t, h) && Chained(m, l, t) && k < |l|
    ensures l[k].start in m && Chained(m[l[k].start := m[l[k].start].(used := u)], Marked(l, k, u), t)
  {
    Apart(l, 0, t, h);
  }

  // ---- the free list against the layout -------------------------------------------

  function Elems<T>(s: seq<T>): set<T> {
    set i | 0 <= i < |s| :: s[i]
  }

  /** References to the free items of `l`. */
  ghost function FreeRefs(l: seq<Item>): set<Ref> {
    set i | 0 <= i < |l| && !l[i].used :: At(l[i].start)
  }

  lemma RefsConcat(a: seq<Item>, b: seq<Item>)
    ensures FreeRefs(a + b) == FreeRefs(a) + FreeRefs(b)
  {
    var r := a + b;
    forall x | x in FreeRefs(a) + FreeRefs(b)
      ensures x in FreeRefs(r)
    {
      if x in FreeRefs(a) {
        var k :| 0 <= k < |a| && !a[k].used && At(a[k].start) == x;
        assert r[k] == a[k];
      } else {
        var k :| 0 <= k < |b| && !b[k].used && At(b[k].start) == x;
        assert r[|a| + k] == b[k];
      }
    }
  }

  lemma SpliceRefs(l: seq<Item>, i: nat, j: nat, new_: seq<Item>)
    requires i <= j <= |l|
    ensures FreeRefs(l) == FreeRefs(l[..i]) + FreeRefs(l[i..j]) + FreeRefs(l[j..])
    ensures FreeRefs(Splice(l, i, j, new_)) == FreeRefs(l[..i]) + FreeRefs(new_) + FreeRefs(l[j..])
  {
    assert l == l[..i] + l[i..j] + l[j..];
    RefsConcat(l[..i] + l[i..j], l[j..]);
    RefsConcat(l[..i], l[i..j]);
    RefsConcat(l[..i] + new_, l[j..]);
    RefsConcat(l[..i], new_);
  }

  lemma RefsOne(x: Item)
    ensures FreeRefs([x]) == if x.used then {} else {At(x.start)}
  {
    if !x.used { assert At([x][0].start) in FreeRefs([x]); }
  }

  lemma RefsTwo(x: Item, y: Item)
    ensures FreeRefs([x, y]) == FreeRefs([x]) + FreeRefs([y])
  {
    assert [x, y] == [x] + [y];
    RefsConcat([x], [y]);
  }

  /** References outside items i..j lie outside them. */
  lemma RefsOutside(l: seq<Item>, t: nat, h: nat, i: nat, j: nat)
    requires h > 0 && Tiles(l, 0, t, h) && i < j <= |l|
    ensures forall x :: x in FreeRefs(l[..i]) ==> x.At? && x.addr + h <= l[i].start
    ensures forall x :: x in FreeRefs(l[j..]) ==> x.At? && x.addr >= l[j - 1].end
  {
    Apart(l, 0, t, h);
    forall x | x in FreeRefs(l[..i])
      ensures x.At? && x.addr + h <= l[i].start
    {
      var k :| 0 <= k < i && At(l[..i][k].start) == x;
      assert l[k].end <= l[i].start;
    }
    forall x | x in FreeRefs(l[j..])
      ensures x.At? && x.addr >= l[j - 1].end
    {
      var k :| 0 <= k < |l| - j && At(l[j..][k].start) == x;
      assert l[j + k].start >= l[j - 1].end;
    }
  }

  lemma ElemsInserted<T>(s: seq<T>, i: nat, n: T)
    requires i <= |s|
    ensures Elems(Inserted(s, i, n)) == Elems(s) + {n}
  {
    var r := Inserted(s, i, n);
    forall x | x in Elems(s) + {n}
      ensures x in Elems(r)
    {
      if x == n {
        assert r[i] == x;
      } else {
        var k :| 0 <= k < |s| && s[k] == x;
        assert r[if k < i then k else k + 1] == x;
      }
    }
  }

  lemma ElemsRemoved<T>(s: seq<T>, i: nat)
    requires i < |s| && Distinct(s)
    ensures Elems(Removed(s, i)) == Elems(s) - {s[i]}
  {
    var r := Removed(s, i);
    forall x | x in Elems(s) - {s[i]}
      ensures x in Elems(r)
    {
      var k :| 0 <= k < |s| && s[k] == x;
      assert r[if k < i then k else k - 1] == x;
    }
    forall x | x in Elems(r)
      ensures x in Elems(s) - {s[i]}
    {
      var k :| 0 <= k < |r| && r[k] == x;
      assert x == s[if k < i then k else k + 1];
    }
  }

  lemma DropKeepsRing(k: Links<Ref>, s: seq<Ref>, p: nat, h: nat)
    requires IsRing(k, FreeHeader, s) && forall x :: x in s ==> Survives(x, p, h)
    ensures IsRing(DropLinks(k, p, h), FreeHeader, s)
  {}
}
