/**
 The boundary-tag heap of mem.c.  Headers live inside the heap: storing one overwrites
 the bytes under it and destroys every other header it overlaps, and so does a write to
 a payload.  `hdr` holds only the headers that are still readable.
 */
module SmallHeapChain {
  import opened Layout
  import opened Arith

  /** Word size, RT_ALIGN_SIZE, SIZEOF_STRUCT_MEM and MIN_SIZE. */
  datatype Config = Config(word: nat, align: nat, header: nat, minSize: nat) {
    ghost predicate Ok() {
      && 0 < align && word % align == 0 && header % align == 0
      && 0 < minSize <= header && minSize + header + 2 * align <= word
    }

    function Up(x: nat): nat
      requires align > 0 && word > 0
    {
      AlignUp(x, align, word)
    }

    /** RT_ALIGN_DOWN. */
    function Down(x: nat): (r: nat)
      requires align > 0
    {
      x / align * align
    }

    function MinAligned(): nat
      requires align > 0 && word > 0
    {
      Up(minSize)
    }

    /** The payload size that a request for `size` bytes searches for. */
    function Need(size: nat): nat
      requires align > 0 && word > 0
    {
      if Up(size) < MinAligned() then MinAligned() else Up(size)
    }
  }

  /** A struct rt_small_mem_item; `pool` is false once the merge code has cleared pool_ptr. */
  datatype Header = Header(pool: bool, used: bool, next: nat, prev: nat)

  /** A pointer into the heap, as an offset from heap_ptr. */
  datatype Ptr = Null | At(addr: nat)

  type Headers = map<nat, Header>

  /** Storing a header at `p` destroys the headers it overlaps. */
  function Store(m: Headers, p: nat, x: Header, h: nat): (r: Headers)
    ensures p in r && r[p] == x
    ensures forall q :: q in m && q != p && Clear(p, q, h) ==> q in r && r[q] == m[q]
  {
    (map q | q in m && Clear(p, q, h) :: m[q])[p := x]
  }

  /** Writing the payload bytes [a, b) destroys the headers they overlap. */
  function Clobber(m: Headers, a: nat, b: nat, h: nat): Headers {
    map q | q in m && (q + h <= a || b <= q) :: m[q]
  }

  /** The header of an item, apart from its back link. */
  predicate Spells(x: Header, it: Item) {
    x.pool && x.used == it.used && x.next == it.end
  }

  /** The readable headers spell out `l`; heap_end closes the chain and its prev is free. */
  ghost predicate Chained(m: Headers, l: seq<Item>, end: nat) {
    && (forall i :: 0 <= i < |l| ==> l[i].start in m && Spells(m[l[i].start], l[i]))
    && (forall i, j :: 0 <= i && j == i + 1 && j < |l| ==> m[l[j].start].prev == l[i].start)
    && (|l| > 0 ==> m[l[0].start].prev == l[0].start)
    && end in m && m[end].pool && m[end].used && m[end].next == end
  }

  /** No payload byte of the blocks `live` differs. */
  ghost predicate SamePayloads(live: set<Item>, h: nat, b: seq<bv8>, b': seq<bv8>) {
    && |b| == |b'|
    && forall x, k :: x in live && x.start + h <= k < x.end && k < |b| ==> b'[k] == b[k]
  }

  // ---- header surgery on the chain ---------------------------------------------

  /** Replacing items i..j by `new_` keeps the chain if the headers change only there and behind. */
  lemma Rechain(m: Headers, m': Headers, l: seq<Item>, end: nat, i: nat, j: nat, new_: seq<Item>)
    requires Chained(m, l, end) && i < j <= |l| && new_ != []
    requires end in m' && m'[end].pool && m'[end].used && m'[end].next == end
    requires forall a :: 0 <= a < i || j < a < |l| ==> l[a].start in m' && m'[l[a].start] == m[l[a].start]
    requires j < |l| ==> l[j].start in m' && m'[l[j].start] == m[l[j].start].(prev := new_[|new_| - 1].start)
    requires forall a :: 0 <= a < |new_| ==> new_[a].start in m' && Spells(m'[new_[a].start], new_[a])
    requires forall a, b :: 0 <= a && b == a + 1 && b < |new_| ==> m'[new_[b].start].prev == new_[a].start
    requires m'[new_[0].start].prev == if i == 0 then new_[0].start else l[i - 1].start
    ensures Chained(m', Splice(l, i, j, new_), end)
  {
    var r := Splice(l, i, j, new_);
    var n := |new_|;
    forall a | 0 <= a < |r|
      ensures r[a].start in m' && Spells(m'[r[a].start], r[a])
    {
      assert r[a] == if a < i then l[a] else if a < i + n then new_[a - i] else l[a - n - i + j];
    }
    forall a, b | 0 <= a && b == a + 1 && b < |r|
      ensures m'[r[b].start].prev == r[a].start
    {
      if b < i {
        assert r[a] == l[a] && r[b] == l[b];
      } else if b == i {
        assert r[a] == l[i - 1] && r[b] == new_[0];
      } else if b < i + n {
        assert r[a] == new_[a - i] && r[b] == new_[b - i];
      } else if b == i + n {
        assert r[a] == new_[n - 1] && r[b] == l[j];
      } else {
        assert r[a] == l[a - n - i + j] && r[b] == l[b - n - i + j];
      }
    }
    assert r[0] == if i == 0 then new_[0] else l[0];
  }

  /** Lines 145-147 and 159-161: the item at `q` is folded into its lower neighbour at `p`. */
  function MergeHeaders(m: Headers, p: nat, q: nat, h: nat): Headers
    requires p in m && q in m && m[q].next in m && p + h <= q && q + h <= m[q].next
  {
    var n := m[q].next;
    var m1 := Store(m, q, m[q].(pool := false), h);
    var m2 := Store(m1, p, m1[p].(next := n), h);
    Store(m2, n, m2[n].(prev := p), h)
  }

  /** What merging leaves of the headers. */
  ghost predicate Merged(m: Headers, m': Headers, p: nat, q: nat, n: nat, h: nat) {
    && p in m && q in m && n in m
    && p in m' && m'[p] == m[p].(next := n)
    && n in m' && m'[n] == m[n].(prev := p)
    && (forall x :: x in m && x != p && Clear(p, x, h) && Clear(q, x, h) && Clear(n, x, h) ==> x in m' && m'[x] == m[x])
  }

  lemma MergeEffect(m: Headers, p: nat, q: nat, h: nat)
    requires h > 0 && p in m && q in m && m[q].next in m && p + h <= q && q + h <= m[q].next
    ensures Merged(m, MergeHeaders(m, p, q, h), p, q, m[q].next, h)
  {}

  /** The back link of item `k`. */
  function Back(l: seq<Item>, k: nat): nat
    requires k < |l|
  {
    if k == 0 then l[0].start else l[k - 1].start
  }

  lemma MergeChained(m: Headers, m': Headers, l: seq<Item>, end: nat, h: nat, k: nat)
    requires h > 0 && Tiles(l, 0, end, h) && Chained(m, l, end) && k + 1 < |l| && !l[k].used && !l[k + 1].used
    requires Merged(m, m', l[k].start, l[k + 1].start, l[k + 1].end, h)
    ensures Chained(m', AbsorbItems(l, k), end)
  {
    Apart(l, 0, end, h);
    var p, q, n := l[k].start, l[k + 1].start, l[k + 1].end;
    assert m[p].prev == Back(l, k);
    forall a | 0 <= a < k || k + 2 < a < |l|
      ensures l[a].start in m' && m'[l[a].start] == m[l[a].start]
    {
      var x := l[a].start;
      if a > k + 2 { assert n == l[k + 2].start; }
      assert x in m && Clear(p, x, h) && Clear(q, x, h) && Clear(n, x, h);
    }
    assert end in m' && m'[end].pool && m'[end].used && m'[end].next == end by {
      if n != end { assert Clear(p, end, h) && Clear(q, end, h) && Clear(n, end, h); }
    }
    Rechain(m, m', l, end, k, k + 2, [Item(p, n, false)]);
  }

  /** Lines 340-354 and 470-481: the item at `p` is cut at `cut`. */
  function SplitHeaders(m: Headers, p: nat, cut: nat, end: nat, h: nat): Headers
    requires p in m && m[p].next in m && p + h <= cut && cut + h <= m[p].next
  {
    var n := m[p].next;
    var m1 := Store(m, cut, Header(true, false, n, p), h);
    var m2 := Store(m1, p, m1[p].(next := cut), h);
    if n != end then Store(m2, n, m2[n].(prev := cut), h) else m2
  }

  /** What splitting leaves of the headers. */
  ghost predicate WasSplit(m: Headers, m': Headers, p: nat, cut: nat, n: nat, end: nat, h: nat) {
    && p in m && n in m && end in m
    && p in m' && m'[p] == m[p].(next := cut)
    && cut in m' && m'[cut] == Header(true, false, n, p)
    && n in m' && m'[n] == (if n == end then m[end] else m[n].(prev := cut))
    && (forall x :: x in m && x != p && Clear(p, x, h) && Clear(cut, x, h) && Clear(n, x, h) ==> x in m' && m'[x] == m[x])
  }

  lemma SplitEffect(m: Headers, p: nat, cut: nat, end: nat, h: nat)
    requires h > 0 && p in m && m[p].next in m && p + h <= cut && cut + h <= m[p].next && end in m
    ensures WasSplit(m, SplitHeaders(m, p, cut, end, h), p, cut, m[p].next, end, h)
  {
    var n := m[p].next;
    var m1 := Store(m, cut, Header(true, false, n, p), h);
    assert Clear(cut, p, h) && Clear(cut, n, h) && Clear(p, n, h) && Clear(p, cut, h) && Clear(n, cut, h) && Clear(n, p, h);
    assert m1[p] == m[p] && m1[n] == m[n];
    var m2 := Store(m1, p, m1[p].(next := cut), h);
    assert m2[cut] == m1[cut] && m2[n] == m[n];
  }

  /** The headers that a split writes overlap no other header. */
  lemma SplitElsewhere(l: seq<Item>, end: nat, h: nat, k: nat, cut: nat)
    requires h > 0 && Tiles(l, 0, end, h) && k < |l| && l[k].start + h <= cut && cut + h <= l[k].end
    ensures forall a :: 0 <= a < k || k + 1 < a < |l| ==>
      Clear(l[k].start, l[a].start, h) && Clear(cut, l[a].start, h) && Clear(l[k].end, l[a].start, h)
    ensures l[k].end != end ==> Clear(l[k].start, end, h) && Clear(cut, end, h) && Clear(l[k].end, end, h)
    ensures k + 1 < |l| ==> l[k].end == l[k + 1].start
  {
    Apart(l, 0, end, h);
    if k + 1 < |l| {
      assert l[k].end == l[k + 1].start;
      forall a | k + 1 < a < |l|
        ensures Clear(l[k].end, l[a].start, h)
      {
        assert l[k + 1].start + h <= l[k + 1].end <= l[a].start;
      }
    }
  }

  lemma SplitChained(m: Headers, m': Headers, l: seq<Item>, end: nat, h: nat, k: nat, cut: nat)
    requires h > 0 && Tiles(l, 0, end, h) && Chained(m, l, end) && k < |l|
    requires l[k].start + h <= cut && cut + h <= l[k].end
    requires WasSplit(m, m', l[k].start, cut, l[k].end, end, h)
    ensures Chained(m', SplitItems(l, k, cut), end)
  {
    hide Clear, Tiles;
    SplitElsewhere(l, end, h, k, cut);
    Apart(l, 0, end, h);
    var p, n := l[k].start, l[k].end;
    assert m[p].prev == Back(l, k);
    forall a | 0 <= a < k || k + 1 < a < |l|
      ensures l[a].start in m' && m'[l[a].start] == m[l[a].start]
    {
      var x := l[a].start;
      assert x in m && Clear(p, x, h) && Clear(cut, x, h) && Clear(n, x, h);
    }
    assert end in m' && m'[end].pool && m'[end].used && m'[end].next == end;
    Rechain(m, m', l, end, k, k + 1, [Item(p, cut, l[k].used), Item(cut, n, false)]);
  }

  /** Marking item `k` used or free. */
  lemma MarkChained(m: Headers, l: seq<Item>, end: nat, h: nat, k: nat, u: bool)
    requires h > 0 && Tiles(l, 0, end, h) && Chained(m, l, end) && k < |l|
    ensures l[k].start in m
    ensures Chained(Store(m, l[k].start, m[l[k].start].(used := u), h), l[k := l[k].(used := u)], end)
  {
    Apart(l, 0, end, h);
  }

  // ---- rounding ------------------------------------------------------------------

  /**
   A request is rounded to an aligned size of at least MIN_SIZE_ALIGNED.  The rounded size covers
   the request exactly when rounding does not wrap around; a wrapped request searches for the
   smallest block.
   */
  lemma NeedAligned(c: Config, x: nat)
    requires c.Ok() && x < c.word
    ensures c.Need(x) % c.align == 0 && c.MinAligned() >= c.minSize && c.Need(x) >= c.MinAligned() > 0
    ensures c.Need(x) >= x <==> x + c.align <= c.word
    ensures x + c.align <= c.word && c.Need(x) != c.MinAligned() ==> c.Need(x) < x + c.align
    ensures c.MinAligned() < c.minSize + c.align
    ensures x + c.align > c.word ==> c.Up(x) == 0 && c.Need(x) == c.MinAligned()
  {
    hide AlignUp;
    AlignUpIsNextMultiple(x, c.align, c.word);
    AlignUpIsNextMultiple(c.minSize, c.align, c.word);
  }

  /** With 4-byte words and alignment, 0xFFFFFFFE rounds to 0 and searches for 12 bytes. */
  lemma WrappedNeed()
    ensures var c := Config(0x1_0000_0000, 4, 12, 12);
      c.Ok() && c.Up(0xFFFF_FFFE) == 0 && c.Need(0xFFFF_FFFE) == 12
  {}
}
