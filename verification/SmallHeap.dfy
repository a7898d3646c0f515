/** The allocator object of mem.c and its operations, over the header chain. */
module SmallHeap {
  import opened Arith
  import opened Layout
  import opened Peaks
  import opened SmallHeapChain

  /** Every item starts on an alignment boundary. */
  ghost predicate StartsAligned(l: seq<Item>, a: nat)
    requires a > 0
  {
    forall i :: 0 <= i < |l| ==> l[i].start % a == 0
  }

  /** The headers `m` of a heap of `size` usable bytes represent layout `l`, of which `used` bytes are used. */
  ghost predicate Rep(c: Config, size: nat, m: Headers, l: seq<Item>, used: int) {
    && c.Ok() && size % c.align == 0 && size + 2 * c.header < c.word
    && Tiles(l, 0, size + c.header, c.header)
    && StartsAligned(l, c.align)
    && Chained(m, l, size + c.header)
    && used == UsedBytes(l)
    && (size < c.MinAligned() ==> forall i :: 0 <= i < |l| ==> !l[i].used)
  }

  /** What the headers say about item `i` and its neighbours. */
  ghost predicate Around(m: Headers, l: seq<Item>, end: nat, h: nat, i: nat)
    requires i < |l|
  {
    && l[i].start + h <= l[i].end <= end
    && l[i].start in m && Spells(m[l[i].start], l[i]) && l[i].end in m && m[l[i].end].pool
    && (i + 1 == |l| ==> l[i].end == end)
    && (i + 1 < |l| ==>
      && l[i].end == l[i + 1].start && Spells(m[l[i].end], l[i + 1]) && l[i].end < end
      && l[i + 1].start + h <= l[i + 1].end <= end && l[i + 1].end in m)
    && m[l[i].start].prev in m
    && (i == 0 ==> m[l[i].start].prev == l[i].start == 0)
    && (i > 0 ==>
      && m[l[i].start].prev == l[i - 1].start && Spells(m[l[i - 1].start], l[i - 1])
      && l[i - 1].end == l[i].start && l[i - 1].start + h <= l[i].start)
  }

  lemma ChainAround(m: Headers, l: seq<Item>, end: nat, h: nat, i: nat)
    requires h > 0 && Tiles(l, 0, end, h) && Chained(m, l, end) && i < |l|
    ensures Around(m, l, end, h, i)
  {
    InRange(l, 0, end, h, i);
    if i > 0 {
      assert m[l[i].start].prev == l[i - 1].start;
    }
    if i + 1 < |l| {
      InRange(l, 0, end, h, i + 1);
      assert i + 2 < |l| ==> l[i + 1].end == l[i + 2].start;
    }
  }

  lemma Neighbours(c: Config, size: nat, m: Headers, l: seq<Item>, used: int, i: nat)
    requires Rep(c, size, m, l, used) && i < |l|
    ensures c.header > 0 && Around(m, l, size + c.header, c.header, i)
  {
    hide Tiles, Chained, Around, StartsAligned;
    ChainAround(m, l, size + c.header, c.header, i);
  }

  // ---- header stores and payload bytes --------------------------------------------

  /** A header stored at `p` misses the payloads of the used items of `l`. */
  ghost predicate Misses(l: seq<Item>, p: nat) {
    forall i :: 0 <= i < |l| && l[i].used ==> p <= l[i].start || l[i].end <= p
  }

  /** `b` and `b'` differ at most in headers at the positions `ps`. */
  ghost predicate OnlyAt(b: seq<bv8>, b': seq<bv8>, ps: set<nat>, h: nat) {
    && |b| == |b'|
    && forall k :: 0 <= k < |b| && (forall p :: p in ps ==> k < p || p + h <= k) ==> b'[k] == b[k]
  }

  lemma StoresAreSafe(l: seq<Item>, h: nat, b: seq<bv8>, b': seq<bv8>, b'': seq<bv8>, ps: set<nat>)
    requires SamePayloads(Live(l), h, b, b') && OnlyAt(b', b'', ps, h) && forall p :: p in ps ==> Misses(l, p)
    ensures SamePayloads(Live(l), h, b, b'')
  {
    forall x, k | x in Live(l) && x.start + h <= k < x.end && k < |b|
      ensures b''[k] == b[k]
    {
      var i :| 0 <= i < |l| && l[i].used && l[i] == x;
      assert b'[k] == b[k];
      assert forall p :: p in ps ==> Misses(l, p) && (p <= l[i].start || l[i].end <= p);
    }
  }

  lemma OneStoreIsSafe(l: seq<Item>, h: nat, b: seq<bv8>, b': seq<bv8>, b'': seq<bv8>, p: nat)
    requires SamePayloads(Live(l), h, b, b') && OnlyAt(b', b'', {p}, h) && Misses(l, p)
    ensures SamePayloads(Live(l), h, b, b'')
  {
    hide SamePayloads, OnlyAt, Misses, Live;
    StoresAreSafe(l, h, b, b', b'', {p});
  }

  lemma ThreeStoresAreSafe(l: seq<Item>, h: nat, b: seq<bv8>, b': seq<bv8>, b'': seq<bv8>, p: nat, q: nat, n: nat)
    requires SamePayloads(Live(l), h, b, b') && OnlyAt(b', b'', {p, q, n}, h) && Misses(l, p) && Misses(l, q) && Misses(l, n)
    ensures SamePayloads(Live(l), h, b, b'')
  {
    hide SamePayloads, OnlyAt, Misses, Live;
    StoresAreSafe(l, h, b, b', b'', {p, q, n});
  }

  lemma OnlyAtSteps(b: seq<bv8>, b': seq<bv8>, b'': seq<bv8>, ps: set<nat>, qs: set<nat>, h: nat)
    requires OnlyAt(b, b', ps, h) && OnlyAt(b', b'', qs, h)
    ensures OnlyAt(b, b'', ps + qs, h)
  {}

  /** Item boundaries are safe places for a header. */
  lemma BoundariesMiss(l: seq<Item>, end: nat, h: nat, k: nat)
    requires Tiles(l, 0, end, h) && h > 0 && k < |l|
    ensures Misses(l, l[k].start) && Misses(l, l[k].end)
  {
    Apart(l, 0, end, h);
    forall i | 0 <= i < |l| && l[i].used
      ensures l[k].start <= l[i].start || l[i].end <= l[k].start
      ensures l[k].end <= l[i].start || l[i].end <= l[k].end
    {
      if i < k { assert l[i].end <= l[k].start; }
      if k < i { assert l[k].end <= l[i].start; }
    }
  }

  /** So is the inside of a free item. */
  lemma FreeMisses(l: seq<Item>, end: nat, h: nat, k: nat, p: nat)
    requires Tiles(l, 0, end, h) && h > 0 && k < |l| && l[k].start <= p <= l[k].end && !l[k].used
    ensures Misses(l, p)
  {
    Apart(l, 0, end, h);
    forall i | 0 <= i < |l| && l[i].used
      ensures p <= l[i].start || l[i].end <= p
    {
      if i < k { assert l[i].end <= l[k].start; } else { assert l[k].end <= l[i].start; }
    }
  }

  // ---- merging ----------------------------------------------------------------------

  /** Every item of a splice is an old one or a new one. */
  lemma SpliceItems(l: seq<Item>, i: nat, j: nat, new_: seq<Item>)
    requires i <= j <= |l|
    ensures forall k :: 0 <= k < |Splice(l, i, j, new_)| ==> Splice(l, i, j, new_)[k] in l || Splice(l, i, j, new_)[k] in new_
  {}

  lemma MergeTiles(l: seq<Item>, end: nat, h: nat, k: nat, a: nat)
    requires h > 0 && a > 0 && Tiles(l, 0, end, h) && StartsAligned(l, a) && k + 1 < |l| && !l[k].used && !l[k + 1].used
    ensures Tiles(AbsorbItems(l, k), 0, end, h) && StartsAligned(AbsorbItems(l, k), a)
    ensures (forall i :: 0 <= i < |l| ==> !l[i].used) ==> (forall i :: 0 <= i < |AbsorbItems(l, k)| ==> !AbsorbItems(l, k)[i].used)
  {
    var x := Item(l[k].start, l[k + 1].end, false);
    AbsorbTiles(l, 0, end, h, k);
    SpliceItems(l, k, k + 2, [x]);
  }

  lemma MergeRep(c: Config, size: nat, m: Headers, m': Headers, l: seq<Item>, used: int, k: nat)
    requires Rep(c, size, m, l, used) && k + 1 < |l| && !l[k].used && !l[k + 1].used
    requires Merged(m, m', l[k].start, l[k + 1].start, l[k + 1].end, c.header)
    ensures Rep(c, size, m', AbsorbItems(l, k), used)
  {
    hide Chained, StartsAligned, Merged, AbsorbItems;
    assert l[k].end == l[k + 1].start;
    AbsorbSums(l, c.header, k);
    MergeTiles(l, size + c.header, c.header, k, c.align);
    MergeChained(m, m', l, size + c.header, c.header, k);
  }

  /** Merging never moves the lowest free item. */
  lemma MergeLowest(l: seq<Item>, end: nat, h: nat, k: nat, p: nat)
    requires h > 0 && Tiles(l, 0, end, h) && k + 1 < |l| && !l[k].used && !l[k + 1].used && IsLowestFree(l, end, p)
    ensures IsLowestFree(AbsorbItems(l, k), end, p) && p != l[k + 1].start
  {
    var r := AbsorbItems(l, k);
    Apart(l, 0, end, h);
    var m :| 0 <= m < |l| && !l[m].used && l[m].start == p && forall i :: 0 <= i < m ==> l[i].used;
    assert m <= k;
    assert forall i :: 0 <= i < k ==> r[i] == l[i];
    assert r[m].start == p && !r[m].used;
  }

  /** plug_holes merges forward, then backward. */
  function MergeForward(l: seq<Item>, i: nat): seq<Item>
    requires i < |l|
  {
    if i + 1 < |l| && !l[i + 1].used then AbsorbItems(l, i) else l
  }

  function MergeBackward(l: seq<Item>, i: nat): seq<Item>
    requires i < |l|
  {
    if i > 0 && !l[i - 1].used then AbsorbItems(l, i - 1) else l
  }

  lemma TwoMergesRelease(l: seq<Item>, i: nat)
    requires i < |l| && !l[i].used
    ensures i < |MergeForward(l, i)| && MergeForward(l, i)[..i] == l[..i]
    ensures MergeForward(l, i)[i] == Item(l[i].start, l[MergeHi(l, i) - 1].end, false)
    ensures MergeBackward(MergeForward(l, i), i) == Release(l, i)
  {
    var f := MergeForward(l, i);
    assert f == l[..i] + [Item(l[i].start, l[MergeHi(l, i) - 1].end, false)] + l[MergeHi(l, i)..];
    if i > 0 {
      assert f[i - 1] == f[..i][i - 1] == l[i - 1];
      assert f[..i - 1] == l[..i - 1];
      assert f[i + 1..] == l[MergeHi(l, i)..];
    }
  }

  // ---- splitting and marking -----------------------------------------------------------

  lemma SplitAligned(l: seq<Item>, end: nat, h: nat, k: nat, cut: nat, a: nat)
    requires h > 0 && a > 0 && Tiles(l, 0, end, h) && StartsAligned(l, a) && k < |l|
    requires l[k].start + h <= cut && cut + h <= l[k].end && cut % a == 0
    ensures Tiles(SplitItems(l, k, cut), 0, end, h) && StartsAligned(SplitItems(l, k, cut), a)
    ensures (forall i :: 0 <= i < |l| ==> !l[i].used) ==> (forall i :: 0 <= i < |SplitItems(l, k, cut)| ==> !SplitItems(l, k, cut)[i].used)
  {
    var x, y := Item(l[k].start, cut, l[k].used), Item(cut, l[k].end, false);
    SplitTiles(l, 0, end, h, k, cut);
    SpliceItems(l, k, k + 1, [x, y]);
  }

  lemma SplitRep(c: Config, size: nat, m: Headers, m': Headers, l: seq<Item>, used: int, k: nat, cut: nat)
    requires Rep(c, size, m, l, used) && k < |l|
    requires l[k].start + c.header <= cut && cut + c.header <= l[k].end && cut % c.align == 0
    requires WasSplit(m, m', l[k].start, cut, l[k].end, size + c.header, c.header)
    ensures Rep(c, size, m', SplitItems(l, k, cut), used - (if l[k].used then l[k].end - cut else 0))
  {
    hide Tiles, Chained, StartsAligned, WasSplit, SplitItems;
    SplitSums(l, c.header, k, cut);
    SplitAligned(l, size + c.header, c.header, k, cut, c.align);
    SplitChained(m, m', l, size + c.header, c.header, k, cut);
  }

  lemma MarkRep(c: Config, size: nat, m: Headers, m': Headers, l: seq<Item>, used: int, k: nat, u: bool)
    requires Rep(c, size, m, l, used) && k < |l| && l[k].used != u && (u ==> size >= c.MinAligned())
    requires l[k].start in m && m' == Store(m, l[k].start, m[l[k].start].(used := u), c.header)
    ensures Rep(c, size, m', Marked(l, k, u), if u then used + l[k].end - l[k].start else used - (l[k].end - l[k].start))
  {
    hide Chained, Store;
    MarkSums(l, c.header, k, u);
    MarkChained(m, l, size + c.header, c.header, k, u);
  }

  // ---- the search and the lowest-free cursor --------------------------------------------

  /** The address the cursor holds when it has passed `j` items. */
  function Position(l: seq<Item>, j: nat, end: nat): nat
    requires j <= |l|
  {
    if j < |l| then l[j].start else end
  }

  /** Past the search bound no item can hold `n` bytes. */
  lemma NoFitBeyond(l: seq<Item>, size: nat, h: nat, k: nat, n: nat)
    requires h > 0 && Tiles(l, 0, size + h, h) && k <= |l| && Position(l, k, size + h) + n > size
    ensures forall i :: k <= i < |l| ==> !Fits(l[i], n, h)
  {
    Apart(l, 0, size + h, h);
    forall i | k <= i < |l|
      ensures !Fits(l[i], n, h)
    {
      assert l[k].start <= l[i].start && l[i].end <= size + h;
    }
  }

  /** Items below the lowest free one do not fit. */
  lemma LowestIndex(l: seq<Item>, end: nat, p: nat) returns (k: nat)
    requires IsLowestFree(l, end, p)
    ensures k <= |l| && p == Position(l, k, end) && forall i :: 0 <= i < k ==> l[i].used
    ensures k < |l| ==> !l[k].used
  {
    if k' :| 0 <= k' < |l| && !l[k'].used && l[k'].start == p && forall i :: 0 <= i < k' ==> l[i].used {
      k := k';
    } else {
      k := |l|;
    }
  }

  lemma TakeLowest(l: seq<Item>, end: nat, h: nat, p: nat, k: nat, n: nat, min: nat)
    requires h > 0 && Tiles(l, 0, end, h) && IsLowestFree(l, end, p) && k < |l| && !l[k].used
    ensures var r := Take(l, k, n, h, min);
      && k < |r| && r[k].start == l[k].start
      && (l[k].start != p ==> IsLowestFree(r, end, p))
      && (l[k].start == p ==> forall i :: 0 <= i <= k ==> r[i].used)
  {
    var r := Take(l, k, n, h, min);
    assert forall i :: 0 <= i < k ==> r[i] == l[i];
    var j := LowestIndex(l, end, p);
    if l[k].start == p {
      StartInjective(l, 0, end, h, k, j);
    } else {
      assert r[j] == l[j];
    }
  }

  class SmallHeap {
    const c: Config
    const memSize: nat                // mem_size_aligned
    var hdr: Headers
    var bytes: seq<bv8>
    var lfree: nat
    var used: nat
    var max: nat
    ghost var layout: seq<Item>

    ghost function End(): nat { memSize + c.header }

    /** Everything but the coalescing of free items. */
    ghost predicate Linked()
      reads this
    {
      && Rep(c, memSize, hdr, layout, used)
      && |bytes| == memSize + 2 * c.header
      && used <= max
      && IsLowestFree(layout, End(), lfree)
    }

    ghost predicate Valid()
      reads this
    {
      Linked() && Coalesced(layout)
    }

    method StoreHeader(p: nat, x: Header)
      requires p + c.header <= |bytes|
      modifies this`hdr, this`bytes
      ensures hdr == Store(old(hdr), p, x, c.header)
      ensures |bytes| == |old(bytes)| && OnlyAt(old(bytes), bytes, {p}, c.header)
    {
      hdr := Store(hdr, p, x, c.header);
      // the stored words replace whatever the bytes held before
      assert |seq(c.header, i => 0 as bv8)| == c.header;
      var image: seq<bv8> :| |image| == c.header;
      var b := bytes;
      bytes := bytes[..p] + image + bytes[p + c.header..];
      assert forall k :: 0 <= k < |b| && (k < p || p + c.header <= k) ==> bytes[k] == b[k];
      assert p in {p};
    }

    /** The three stores that fold the item at `q` into the one at `p`. */
    method StoreMerge(p: nat, q: nat)
      requires p in hdr && q in hdr && hdr[q].next in hdr && p + c.header <= q && q + c.header <= hdr[q].next
      requires c.header > 0 && hdr[q].next + c.header <= |bytes|
      modifies this`hdr, this`bytes
      ensures hdr == MergeHeaders(old(hdr), p, q, c.header)
      ensures |bytes| == |old(bytes)| && OnlyAt(old(bytes), bytes, {p, q, old(hdr)[q].next}, c.header)
    {
      hide OnlyAt;
      var n := hdr[q].next;
      ghost var b0 := bytes;
      StoreHeader(q, hdr[q].(pool := false));
      ghost var b1 := bytes;
      StoreHeader(p, hdr[p].(next := n));
      ghost var b2 := bytes;
      StoreHeader(n, hdr[n].(prev := p));
      OnlyAtSteps(b0, b1, b2, {q}, {p}, c.header);
      OnlyAtSteps(b0, b2, bytes, {q} + {p}, {n}, c.header);
      assert {q} + {p} + {n} == {p, q, n};
    }

    /** The body of both branches of plug_holes: fold the item at `q` into the one at `p`. */
    method MergeNext(p: nat, q: nat, ghost k: nat)
      requires Linked()
      requires k + 1 < |layout| && layout[k].start == p && layout[k + 1].start == q
      requires !layout[k].used && !layout[k + 1].used
      modifies this`hdr, this`bytes, this`lfree, this`layout
      ensures Linked() && lfree == old(lfree)
      ensures layout == AbsorbItems(old(layout), k)
      ensures |bytes| == |old(bytes)| && OnlyAt(old(bytes), bytes, {p, q, old(layout)[k + 1].end}, c.header)
    {
      hide OnlyAt, Rep, IsLowestFree, AbsorbItems, MergeHeaders, Merged;
      ghost var l, m := layout, hdr;
      Neighbours(c, memSize, m, l, used, k);
      RepTiles(c, memSize, m, l, used);
      ghost var lowest := lfree;
      if lfree == q {
        lfree := p;
      }
      MergeLowest(l, End(), c.header, k, lowest);
      MergeEffect(m, p, q, c.header);
      StoreMerge(p, q);
      MergeRep(c, memSize, m, hdr, l, used, k);
      layout := AbsorbItems(l, k);
    }

    /** The stores that cut the item at `p`; the header after it is left alone when it is heap_end. */
    method StoreSplit(p: nat, cut: nat)
      requires p in hdr && hdr[p].next in hdr && p + c.header <= cut && cut + c.header <= hdr[p].next
      requires c.header > 0 && hdr[p].next + c.header <= |bytes|
      modifies this`hdr, this`bytes
      ensures hdr == SplitHeaders(old(hdr), p, cut, End(), c.header)
      ensures |bytes| == |old(bytes)| && OnlyAt(old(bytes), bytes, {p, cut, old(hdr)[p].next}, c.header)
    {
      hide OnlyAt;
      var n := hdr[p].next;
      ghost var b0 := bytes;
      StoreHeader(cut, Header(true, false, n, p));
      ghost var b1 := bytes;
      StoreHeader(p, hdr[p].(next := cut));
      ghost var b2 := bytes;
      OnlyAtSteps(b0, b1, b2, {cut}, {p}, c.header);
      OnlyAtMore(b0, bytes, {cut} + {p}, {p, cut, n}, c.header);
      if hdr[cut].next != memSize + c.header {
        StoreHeader(n, hdr[n].(prev := cut));
        OnlyAtSteps(b0, b2, bytes, {cut} + {p}, {n}, c.header);
        assert {cut} + {p} + {n} == {p, cut, n};
      }
    }

    /** Cuts the item at `ptr` after `n` payload bytes. */
    method Cut(ptr: nat, n: nat, ghost k: nat)
      requires Rep(c, memSize, hdr, layout, used) && |bytes| == memSize + 2 * c.header
      requires k < |layout| && layout[k].start == ptr && n % c.align == 0
      requires ptr + c.header + n + c.header <= layout[k].end
      modifies this`hdr, this`bytes, this`layout
      ensures layout == SplitItems(old(layout), k, ptr + c.header + n)
      ensures Rep(c, memSize, hdr, layout, used - (if old(layout)[k].used then old(layout)[k].end - (ptr + c.header + n) else 0))
      ensures |bytes| == |old(bytes)|
      ensures OnlyAt(old(bytes), bytes, {ptr, ptr + c.header + n, old(layout)[k].end}, c.header)
    {
      hide OnlyAt, Rep, SplitItems, SplitHeaders, WasSplit, Store, Tiles, StartsAligned, Config.Ok, AlignUp;
      ghost var l, m := layout, hdr;
      var ptr2 := ptr + c.header + n;
      RepTiles(c, memSize, m, l, used);
      Neighbours(c, memSize, m, l, used, k);
      EndHeader(c, memSize, m, l, used);
      AlignedCut(c, l, k, n);
      SplitEffect(m, ptr, ptr2, End(), c.header);
      StoreSplit(ptr, ptr2);
      SplitRep(c, memSize, m, hdr, l, used, k, ptr2);
      layout := SplitItems(l, k, ptr2);
    }

    /** Marks the item at `ptr`. */
    method Mark(ptr: nat, u: bool, ghost k: nat, ghost was: int)
      requires Rep(c, memSize, hdr, layout, was) && |bytes| == memSize + 2 * c.header
      requires k < |layout| && layout[k].start == ptr && layout[k].used != u && (u ==> memSize >= c.MinAligned())
      modifies this`hdr, this`bytes, this`layout
      ensures layout == Marked(old(layout), k, u)
      ensures Rep(c, memSize, hdr, layout, if u then was + old(layout)[k].end - ptr else was - (old(layout)[k].end - ptr))
      ensures |bytes| == |old(bytes)| && OnlyAt(old(bytes), bytes, {ptr}, c.header)
    {
      hide OnlyAt, Rep, Store, AlignUp;
      ghost var l, m := layout, hdr;
      Neighbours(c, memSize, m, l, was, k);
      StoreHeader(ptr, hdr[ptr].(used := u));
      MarkRep(c, memSize, m, hdr, l, was, k, u);
      layout := Marked(l, k, u);
    }

    /** The allocation proper: item `k`, at `ptr`, is taken for `n` bytes. */
    method Carve(ptr: nat, n: nat, ghost k: nat)
      requires Valid() && k < |layout| && layout[k].start == ptr && Fits(layout[k], n, c.header)
      requires n % c.align == 0 && memSize >= c.MinAligned()
      modifies this`hdr, this`bytes, this`used, this`max, this`layout
      ensures Rep(c, memSize, hdr, layout, used) && |bytes| == memSize + 2 * c.header
      ensures layout == Take(old(layout), k, n, c.header, c.MinAligned())
      ensures used > old(used) && max == Peak(old(max), used)
      ensures SamePayloads(Live(old(layout)), c.header, old(bytes), bytes)
    {
      hide OnlyAt, Rep, SplitItems, SamePayloads, Misses, Tiles, IsLowestFree, Coalesced, Take, Marked, Live, AlignUp, Config.Ok;
      ghost var l, b, h, u := layout, bytes, c.header, used;
      RepTiles(c, memSize, hdr, l, used);
      Neighbours(c, memSize, hdr, l, used, k);
      TakeIsSplitAndMark(l, k, n, h, c.MinAligned());
      BoundariesMiss(l, End(), h, k);
      SamePayloadsRefl(l, h, b);
      var mem := hdr[ptr];
      if mem.next - (ptr + c.header) >= n + c.header + c.MinAligned() {
        FreeMisses(l, End(), h, k, ptr + h + n);
        SplitItemAt(l, k, ptr + h + n);
        Cut(ptr, n, k);
        ThreeStoresAreSafe(l, h, b, b, bytes, ptr, ptr + h + n, l[k].end);
        used := used + (n + c.header);
      } else {
        used := used + (mem.next - ptr);
      }
      if max < used {
        max := used;
      }
      ghost var b1 := bytes;
      Mark(ptr, true, k, u);
      OneStoreIsSafe(l, h, b, b1, bytes, ptr);
    }

    /** Moves lfree up to the next free item, or to heap_end. */
    method SkipUsed(ghost k: nat)
      requires Rep(c, memSize, hdr, layout, used) && k < |layout| && lfree == layout[k].start
      requires forall i :: 0 <= i <= k ==> layout[i].used
      modifies this`lfree
      ensures IsLowestFree(layout, End(), lfree)
    {
      hide Rep, Tiles, StartsAligned, Config.Ok;
      ghost var j := k;
      RepTiles(c, memSize, hdr, layout, used);
      Neighbours(c, memSize, hdr, layout, used, j);
      EndHeader(c, memSize, hdr, layout, used);
      while hdr[lfree].used && lfree != memSize + c.header
        invariant j <= |layout| && lfree == Position(layout, j, End()) && lfree in hdr
        invariant forall i :: 0 <= i < j ==> layout[i].used
        invariant j < |layout| ==> Around(hdr, layout, End(), c.header, j)
        decreases |layout| - j
      {
        lfree := hdr[lfree].next;
        j := j + 1;
        if j < |layout| {
          Neighbours(c, memSize, hdr, layout, used, j);
        }
      }
    }

    /** Takes item `k` and brings the lowest-free cursor up to date. */
    method TakeItem(ptr: nat, n: nat, ghost k: nat)
      requires Valid() && k < |layout| && layout[k].start == ptr && Fits(layout[k], n, c.header)
      requires n % c.align == 0 && memSize >= c.MinAligned()
      modifies this
      ensures Valid()
      ensures layout == Take(old(layout), k, n, c.header, c.MinAligned())
      ensures max == Peak(old(max), used)
      ensures SamePayloads(Live(old(layout)), c.header, old(bytes), bytes)
    {
      hide Rep, SamePayloads, Tiles, Take, Coalesced, IsLowestFree, StartsAligned, Live, AlignUp, Config.Ok;
      ghost var l, h := layout, c.header;
      RepTiles(c, memSize, hdr, l, used);
      TakeKeeps(l, 0, End(), h, k, n, c.MinAligned());
      TakeLowest(l, End(), h, lfree, k, n, c.MinAligned());
      Carve(ptr, n, k);
      if ptr == lfree {
        SkipUsed(k);
      }
    }

    /** The search loop, from the lowest free item up to the last place where `n` bytes could start. */
    method FindFit(n: nat) returns (found: bool, ptr: nat, ghost k: nat)
      requires Valid() && n <= memSize
      ensures found ==> IsFirstFit(layout, k, n, c.header) && ptr == layout[k].start
      ensures !found ==> NoFit(layout, n, c.header)
    {
      hide Rep, Tiles, Coalesced, IsLowestFree, StartsAligned, Config.Ok;
      ptr := lfree;
      RepTiles(c, memSize, hdr, layout, used);
      k := LowestIndex(layout, End(), ptr);
      while ptr <= memSize - n
        invariant k <= |layout| && ptr == Position(layout, k, End())
        invariant forall i :: 0 <= i < k ==> !Fits(layout[i], n, c.header)
        decreases |layout| - k
      {
        Neighbours(c, memSize, hdr, layout, used, k);
        var mem := hdr[ptr];
        if !mem.used && mem.next - (ptr + c.header) >= n {
          return true, ptr, k;
        }
        ptr := mem.next;
        k := k + 1;
      }
      NoFitBeyond(layout, memSize, c.header, k, n);
      found := false;
    }

    /** rt_smem_alloc.  `k` is the item taken. */
    method Alloc(size: nat) returns (r: Ptr, ghost k: nat)
      requires Valid() && size < c.word
      requires size == 0 || memSize >= c.MinAligned() || c.Up(size) > memSize
      modifies this
      ensures Valid()
      ensures r.Null? <==> size == 0 || NoFit(old(layout), c.Need(size), c.header)
      ensures r.Null? ==> unchanged(this)
      ensures r.At? ==>
        && IsFirstFit(old(layout), k, c.Need(size), c.header)
        && layout == Take(old(layout), k, c.Need(size), c.header, c.MinAligned())
        && r.addr == old(layout)[k].start + c.header && r.addr % c.align == 0
      ensures r.At? ==> k < |layout| && (layout[k].end - r.addr >= size <==> size + c.align <= c.word)
      ensures max == Peak(old(max), used)
      ensures SamePayloads(Live(old(layout)), c.header, old(bytes), bytes)
    {
      hide Rep, SamePayloads, Tiles, Take, Coalesced, IsLowestFree, StartsAligned, Live, AlignUp, Config.Ok, IsFirstFit, NoFit, Config.Up;
      k := 0;
      ghost var l, h := layout, c.header;
      RepTiles(c, memSize, hdr, l, used);
      SamePayloadsRefl(l, h, bytes);
      if size == 0 {
        return Null, 0;
      }
      var n := c.Up(size);
      NeedAligned(c, size);
      if n > memSize {
        TooBig(l, memSize, h, c.Need(size));
        return Null, 0;
      }
      if n < c.MinAligned() {
        n := c.MinAligned();
      }
      var found, ptr;
      found, ptr, k := FindFit(n);
      if !found {
        return Null, k;
      }
      FirstFits(l, k, n, h);
      StartAligned(c, l, k);
      RepEnd(c, memSize, hdr, l, used);
      BlockRoom(c, l, memSize + h, k, size);
      TakeItem(ptr, n, k);
      return At(ptr + c.header), k;
    }

    /** plug_holes: item `i`, at `mem`, has become free. */
    method PlugHoles(mem: nat, ghost i: nat)
      requires Linked() && CoalescedBut(layout, i)
      requires i < |layout| && layout[i].start == mem && !layout[i].used
      modifies this`hdr, this`bytes, this`lfree, this`layout
      ensures Valid()
      ensures layout == Release(old(layout), i)
      ensures SamePayloads(Live(old(layout)), c.header, old(bytes), bytes)
    {
      hide OnlyAt, Rep, IsLowestFree, AbsorbItems, Coalesced, CoalescedBut, Tiles, Release, SamePayloads, Misses, Live, StartsAligned, Config.Ok, AlignUp;
      ghost var l0, b0 := layout, bytes;
      ghost var h := c.header;
      RepTiles(c, memSize, hdr, l0, used);
      ReleaseKeeps(l0, 0, End(), h, i);
      TwoMergesRelease(l0, i);
      Neighbours(c, memSize, hdr, l0, used, i);
      SamePayloadsRefl(l0, h, b0);
      BoundariesMiss(l0, End(), h, i);
      var nmem := hdr[mem].next;
      if mem != nmem && !hdr[nmem].used && nmem != memSize + c.header {
        MergeNext(mem, nmem, i);
        BoundariesMiss(l0, End(), h, i + 1);
        ThreeStoresAreSafe(l0, h, b0, b0, bytes, mem, nmem, l0[i + 1].end);
      }
      assert layout == MergeForward(l0, i);
      Neighbours(c, memSize, hdr, layout, used, i);
      assert i > 0 ==> layout[i - 1] == layout[..i][i - 1] == l0[i - 1];
      var pmem := hdr[mem].prev;
      if pmem != mem && !hdr[pmem].used {
        ghost var b1, n := bytes, layout[i].end;
        BoundariesMiss(l0, End(), h, i - 1);
        BoundariesMiss(l0, End(), h, MergeHi(l0, i) - 1);
        MergeNext(pmem, mem, i - 1);
        ThreeStoresAreSafe(l0, h, b0, b1, bytes, pmem, mem, n);
      }
    }

    /** `p` is null, or points to the payload of the live block `k`. */
    ghost predicate Owns(p: Ptr, k: nat)
      reads this
    {
      p.At? ==> k < |layout| && layout[k].used && p.addr == layout[k].start + c.header
    }

    /** rt_smem_free of block `k`. */
    method Free(rmem: Ptr, ghost k: nat)
      requires Valid() && Owns(rmem, k)
      modifies this
      ensures Valid()
      ensures rmem.Null? ==> unchanged(this)
      ensures rmem.At? ==>
        && layout == Release(old(layout), k)
        && used == old(used) - (old(layout)[k].end - old(layout)[k].start) && max == old(max)
        && SamePayloads(Live(old(layout)) - {old(layout)[k]}, c.header, old(bytes), bytes)
    {
      hide Rep, SamePayloads, Tiles, Release, Coalesced, CoalescedBut, IsLowestFree, Live, Marked, OnlyAt, Misses, Spells, StartsAligned, Config.Ok, AlignUp;
      if rmem.Null? {
        return;
      }
      ghost var l, h, b := layout, c.header, bytes;
      RepTiles(c, memSize, hdr, l, used);
      Neighbours(c, memSize, hdr, l, used, k);
      SpellsItem(hdr[l[k].start], l[k]);
      var mem := rmem.addr - c.header;
      assert hdr[mem].pool && hdr[mem].used && hdr[hdr[mem].next].pool;   // lines 531-538
      ReleaseMarked(l, End(), h, k);
      FreeLowest(l, End(), h, lfree, k);
      UsedAtLeast(l, h, k);
      MarkedItem(l, k, false);
      ghost var l1 := Marked(l, k, false);
      SamePayloadsRefl(l1, h, b);
      MarkedTiles(l, 0, End(), h, k, false);
      BoundariesMiss(l1, End(), h, k);
      Mark(mem, false, k, used);
      OneStoreIsSafe(l1, h, b, b, bytes, mem);
      if mem < lfree {
        lfree := mem;
      }
      Neighbours(c, memSize, hdr, l1, used - (l[k].end - mem), k);
      SpellsItem(hdr[mem], l1[k]);
      used := used - (hdr[mem].next - mem);
      ghost var b1 := bytes;
      PlugHoles(mem, k);
      SamePayloadsTrans(Live(l1), h, b, b1, bytes);
    }

    /** rt_memcpy between payloads; it destroys the headers that lay under the destination. */
    method Copy(dst: nat, src: nat, len: nat)
      requires dst + len <= |bytes| && src + len <= |bytes|
      modifies this`hdr, this`bytes
      ensures hdr == Clobber(old(hdr), dst, dst + len, c.header)
      ensures |bytes| == |old(bytes)| && Copied(old(bytes), bytes, src, dst, len)
    {
      hdr := Clobber(hdr, dst, dst + len, c.header);
      bytes := bytes[..dst] + bytes[src..src + len] + bytes[dst + len..];
    }

    /** An application store into its own block `k`. */
    method Write(rmem: Ptr, off: nat, v: bv8, ghost k: nat)
      requires Valid() && Owns(rmem, k) && rmem.At? && rmem.addr + off < layout[k].end
      modifies this`hdr, this`bytes
      ensures Valid()
      ensures |bytes| == |old(bytes)|
      ensures forall i :: 0 <= i < |bytes| ==> bytes[i] == if i == rmem.addr + off then v else old(bytes)[i]
    {
      hide Rep, Tiles, Coalesced, IsLowestFree, Clobber, Spells;
      Neighbours(c, memSize, hdr, layout, used, k);
      var a := rmem.addr + off;
      ClobberRep(c, memSize, hdr, layout, used, k, a, a + 1);
      hdr := Clobber(hdr, a, a + 1, c.header);
      bytes := bytes[a := v];
    }

    /** Lines 464-492: cuts block `k`, at `ptr`, down to `n` payload bytes in place. */
    method Shrink(ptr: nat, n: nat, ghost k: nat)
      requires Valid() && k < |layout| && layout[k].used && layout[k].start == ptr
      requires n % c.align == 0 && ptr + c.header + n + c.header <= layout[k].end
      modifies this
      ensures Valid()
      ensures layout == Recut(old(layout), k, n, c.header)
      ensures used == old(used) - (old(layout)[k].end - (ptr + c.header + n)) && max == old(max)
      ensures SamePayloads(Live(layout), c.header, old(bytes), bytes)
    {
      hide Rep, SamePayloads, Tiles, Release, Recut, Coalesced, CoalescedBut, IsLowestFree, Live, SplitItems, OnlyAt, Misses, Spells, StartsAligned, Config.Ok, AlignUp;
      ghost var l, h, b := layout, c.header, bytes;
      var ptr2 := ptr + c.header + n;
      ghost var l1 := SplitItems(l, k, ptr2);
      RepTiles(c, memSize, hdr, l, used);
      Neighbours(c, memSize, hdr, l, used, k);
      UsedAtLeast(l, h, k);
      SplitItemAt(l, k, ptr2);
      RecutIsSplitAndRelease(l, End(), h, k, n);
      SplitLowest(l, End(), h, lfree, k, ptr2);
      SpellsItem(hdr[ptr], l[k]);
      var size := hdr[ptr].next - ptr - c.header;
      Cut(ptr, n, k);
      used := used - (size - n);
      RepTiles(c, memSize, hdr, l1, used);
      BoundariesMiss(l1, End(), h, k);
      BoundariesMiss(l1, End(), h, k + 1);
      SamePayloadsRefl(l1, h, b);
      ThreeStoresAreSafe(l1, h, b, b, bytes, ptr, ptr2, l[k].end);
      if ptr2 < lfree {
        lfree := ptr2;
      }
      ghost var b1 := bytes;
      PlugHoles(ptr2, k + 1);
      SamePayloadsTrans(Live(l1), h, b, b1, bytes);
    }

    /** Lines 496-500: fills block `j` from block `k`, then frees block `k`. */
    method CopyAndFree(rmem: Ptr, dst: nat, n: nat, ghost j: nat, ghost k: nat) returns (ghost j': nat)
      requires Valid() && Owns(rmem, k) && rmem.At? && j < |layout| && layout[j].used && layout[j] != layout[k]
      requires dst == layout[j].start + c.header && dst + n <= layout[j].end
      modifies this
      ensures Valid()
      ensures j' < |layout| && layout[j'] == old(layout)[j]
      ensures Live(layout) == Live(old(layout)) - {old(layout)[k]}
      ensures layout == Release(old(layout), k) && max == old(max)
      ensures SamePayloads(Live(old(layout)) - {old(layout)[j], old(layout)[k]}, c.header, old(bytes), bytes)
      ensures Carried(old(bytes), bytes, rmem.addr, dst, Least(old(layout)[k].end - rmem.addr, n))
    {
      hide Rep, SamePayloads, Tiles, Release, Coalesced, IsLowestFree, Live, Spells, Clobber, Carried, Copied, StartsAligned, Config.Ok, AlignUp;
      ghost var l, h, b := layout, c.header, bytes;
      RepTiles(c, memSize, hdr, l, used);
      Neighbours(c, memSize, hdr, l, used, k);
      SpellsItem(hdr[l[k].start], l[k]);
      Neighbours(c, memSize, hdr, l, used, j);
      var len := Least(hdr[rmem.addr - c.header].next - rmem.addr, n);
      ClobberRep(c, memSize, hdr, l, used, j, dst, dst + len);
      Copy(dst, rmem.addr, len);
      ghost var b1 := bytes;
      SamePayloadsLess(Live(l), l[j], h, b, b);
      CopyIsLocal(l, memSize + h, h, j, k, b, b, b1, rmem.addr, dst, len);
      ReleaseLive(l, 0, memSize + h, h, k);
      LiveItem(l, j);
      Free(rmem, k);
      j' := IndexOfLive(layout, l[j]);
      FreeAfterCopy(Live(l), l[k], l[j], h, b, b1, bytes, rmem.addr, dst, len);
    }

    /** Lines 494-502: a new block for `n` bytes, filled from block `k`, which is then freed. */
    method Move(rmem: Ptr, n: nat, ghost k: nat) returns (r: Ptr, ghost k': nat)
      requires Valid() && Owns(rmem, k) && rmem.At? && 0 < n <= memSize && n == c.Up(n)
      modifies this
      ensures Valid()
      ensures r.Null? <==> NoFit(old(layout), c.Need(n), c.header)
      ensures r.Null? ==> unchanged(this)
      ensures r.At? ==> Moved(c.header, old(layout), layout, k, k', n, rmem.addr, r.addr, old(bytes), bytes)
      ensures r.Null? ==> max == old(max)
      ensures r.At? ==> MovedThrough(c, old(layout), layout, k, n, old(max), max)
      ensures SamePayloads(Live(old(layout)) - {old(layout)[k]}, c.header, old(bytes), bytes)
    {
      hide MovedAs, UsedBytes, Rep, SamePayloads, Tiles, Release, Take, Coalesced, IsLowestFree, Live, Carried, IsFirstFit, NoFit, AlignUp, Config.Ok;
      ghost var l, h, b := layout, c.header, bytes;
      RepTiles(c, memSize, hdr, l, used);
      UsedMeansRoom(c, memSize, hdr, l, used, k);
      LiveItem(l, k);
      SamePayloadsLess(Live(l), l[k], h, b, b);
      k' := 0;
      ghost var j;
      r, j := Alloc(n);
      if r.At? {
        ghost var l1, b1 := layout, bytes;
        TakeEffect(c, l, memSize + h, j, n);
        ghost var k2 := IndexOfLive(l1, l[k]);
        ghost var m1 := max;
        RepTiles(c, memSize, hdr, l1, used);
        k' := CopyAndFree(rmem, r.addr, n, j, k2);
        MovedIs(c, l, layout, k, n, old(max), m1, j, k2);
        assert Live(l1) - {l1[j], l[k]} == Live(l) - {l[k]};
        MoveBytes(Live(l), l[k], h, b, b1, bytes, rmem.addr, r.addr, Least(l[k].end - rmem.addr, n));
        assert Live(layout) == Live(l) - {l[k]} + {l1[j]};
      }
    }

    /** Lines 449-502: a live block `k` gets room for `n` bytes, `n` being rounded already. */
    method Resize(rmem: Ptr, n: nat, ghost k: nat) returns (r: Ptr, ghost k': nat)
      requires Valid() && Owns(rmem, k) && rmem.At? && 0 < n <= memSize && n == c.Up(n) && n % c.align == 0
      modifies this
      ensures Valid()
      ensures SamePayloads(Live(old(layout)) - {old(layout)[k]}, c.header, old(bytes), bytes)
      ensures r.Null? ==> unchanged(this)
      ensures r.At? ==> Moved(c.header, old(layout), layout, k, k', n, rmem.addr, r.addr, old(bytes), bytes)
      ensures r.Null? <==> MustMove(old(layout)[k].end - rmem.addr, n) && NoFit(old(layout), c.Need(n), c.header)
      ensures r.Null? ==> max == old(max)
      ensures r.At? ==> ResizedAs(c, old(layout), layout, k, old(layout)[k].end - rmem.addr, n, old(max), max)
    {
      hide Rep, SamePayloads, Tiles, Release, Coalesced, IsLowestFree, Live, Spells, Moved, NoFit, Recut, StartsAligned, AlignUp, Config.Ok;
      ghost var l, h, b := layout, c.header, bytes;
      k' := k;
      RepTiles(c, memSize, hdr, l, used);
      SamePayloadsLess(Live(l), l[k], h, b, b);
      Neighbours(c, memSize, hdr, l, used, k);
      SpellsItem(hdr[l[k].start], l[k]);
      var ptr := rmem.addr - c.header;
      var size := hdr[ptr].next - ptr - c.header;
      if size == n {
        StayMoved(l, h, k, b);
        return rmem, k;
      }
      if n + c.header + c.minSize < size {
        Shrink(ptr, n, k);
        ShrinkMoved(l, memSize + h, h, k, n, b, bytes);
        return rmem, k;
      }
      r, k' := Move(rmem, n, k);
    }

    /** A block of `size` bytes cannot be given `n` bytes in place. */
    predicate MustMove(size: int, n: int) {
      n != size && n + c.header + c.minSize >= size
    }

    /** rt_smem_realloc.  `k` is the block at `rmem`, `k'` the block at the result. */
    method Realloc(rmem: Ptr, newsize: nat, ghost k: nat) returns (r: Ptr, ghost k': nat)
      requires Valid() && Owns(rmem, k) && newsize < c.word
      requires rmem.Null? ==> memSize >= c.MinAligned() || c.Up(newsize) == 0 || c.Up(newsize) > memSize
      modifies this
      ensures Valid()
      ensures rmem.Null? || r.Null? ==> max == Peak(old(max), used)
      ensures rmem.At? && r.At? ==>
        ResizedAs(c, old(layout), layout, k, old(layout)[k].end - rmem.addr, c.Up(newsize), old(max), max)
      ensures rmem.Null? && r.Null? ==> unchanged(this)
      ensures rmem.Null? ==> (r.Null? <==> c.Up(newsize) == 0 || NoFit(old(layout), c.Need(newsize), c.header))
      ensures rmem.Null? && r.At? ==>
        && IsFirstFit(old(layout), k', c.Need(newsize), c.header) && r.addr == old(layout)[k'].start + c.header
        && layout == Take(old(layout), k', c.Need(newsize), c.header, c.MinAligned())
        && SamePayloads(Live(old(layout)), c.header, old(bytes), bytes)
      ensures rmem.At? ==> SamePayloads(Live(old(layout)) - {old(layout)[k]}, c.header, old(bytes), bytes)
      ensures rmem.At? && r.At? ==> Moved(c.header, old(layout), layout, k, k', c.Up(newsize), rmem.addr, r.addr, old(bytes), bytes)
      ensures rmem.At? && r.Null? ==> if c.Up(newsize) == 0 then layout == Release(old(layout), k) else unchanged(this)
      ensures rmem.At? && c.Up(newsize) == 0 ==> r.Null?
      ensures rmem.At? && c.Up(newsize) > 0 ==>
        (r.Null? <==>
          (c.Up(newsize) > memSize ||
          (MustMove(old(layout)[k].end - rmem.addr, c.Up(newsize)) && NoFit(old(layout), c.Need(newsize), c.header))))
    {
      hide Rep, SamePayloads, Tiles, Release, Coalesced, IsLowestFree, Live, Moved, NoFit, StartsAligned, MustMove, AlignUp, Config.Ok;
      ghost var l, h := layout, c.header;
      k' := k;
      RepTiles(c, memSize, hdr, l, used);
      if rmem.At? { SamePayloadsLess(Live(l), l[k], h, bytes, bytes); }
      var n := c.Up(newsize);
      AlignUpIdempotent(newsize, c.align, c.word);
      AlignUpIsNextMultiple(newsize, c.align, c.word);
      NeedOfRounded(c, newsize);
      if n > memSize {
        TooBig(l, memSize, h, c.Need(newsize));
        return Null, k;
      } else if n == 0 {
        Free(rmem, k);
        return Null, k;
      }
      if rmem.Null? {
        r, k' := Alloc(n);
      } else {
        r, k' := Resize(rmem, n, k);
      }
    }

    /** Lines 186-242 once the size is accepted: one free item, then heap_end. */
    constructor (c: Config, memSize: nat)
      requires c.Ok() && memSize % c.align == 0 && memSize + 2 * c.header < c.word
      ensures Valid() && layout == [Item(0, memSize + c.header, false)]
      ensures this.c == c && this.memSize == memSize && used == 0 && max == 0
    {
      this.c := c;
      this.memSize := memSize;
      var end := memSize + c.header;
      hdr := map[0 := Header(true, false, end, 0), end := Header(true, true, end, end)];
      bytes := seq(memSize + 2 * c.header, i => 0);
      lfree := 0;
      used := 0;
      max := 0;
      layout := [Item(0, end, false)];
      new;
      MulMod(0, c.align);
      assert UsedBytes(layout[1..]) == 0;
    }

    /** rt_smem_init: null when the range cannot hold the object and two headers. */
    static method Init(c: Config, begin: nat, size: nat, object_: nat) returns (r: SmallHeap?)
      requires c.Ok() && begin < c.word && size < c.word
      ensures r == null <==> InitSize(c, begin, size, object_) < 0
      ensures r != null ==> fresh(r) && r.Valid() && r.c == c && r.memSize == InitSize(c, begin, size, object_)
    {
      InitFits(c, begin, size, object_);
      assert c.align > 0 && c.word > 0;
      hide AlignUp, Config.Ok, Config.Down, Config.Up;
      var start := Start(c, begin, object_);
      var beginAlign := c.Up(start);
      var endAlign := c.Down((begin + size) % c.word);
      if endAlign > 2 * c.header && endAlign - 2 * c.header >= start {
        r := new SmallHeap(c, endAlign - beginAlign - 2 * c.header);
      } else {
        r := null;
      }
    }
  }

  /** Where the memory behind the heap object starts; addresses wrap around. */
  function Start(c: Config, begin: nat, object_: nat): nat
    requires c.align > 0 && c.word > 0
  {
    (c.Up(begin) + object_) % c.word
  }

  /** The test of rt_smem_init on the rounded ends of the range. */
  predicate RangeHolds(c: Config, begin: nat, size: nat, object_: nat)
    requires c.align > 0 && c.word > 0
  {
    var endAlign := c.Down((begin + size) % c.word);
    endAlign > 2 * c.header && endAlign - 2 * c.header >= Start(c, begin, object_)
  }

  /** The usable size that rt_smem_init computes, or -1 when it refuses the range; the end of the range may wrap around. */
  function InitSize(c: Config, begin: nat, size: nat, object_: nat): int
    requires c.align > 0 && c.word > 0
  {
    if RangeHolds(c, begin, size, object_)
    then c.Down((begin + size) % c.word) - c.Up(Start(c, begin, object_)) - 2 * c.header
    else -1
  }

  /** An accepted range yields a size that does not underflow and is aligned, and both headers stay below the word range. */
  lemma InitFits(c: Config, begin: nat, size: nat, object_: nat)
    requires c.Ok() && begin < c.word && size < c.word
    ensures InitSize(c, begin, size, object_) >= -1
    ensures InitSize(c, begin, size, object_) >= 0 <==> RangeHolds(c, begin, size, object_)
    ensures InitSize(c, begin, size, object_) >= 0 ==>
      InitSize(c, begin, size, object_) % c.align == 0 && InitSize(c, begin, size, object_) + 2 * c.header < c.word
  {
    hide AlignUp;
    var start := Start(c, begin, object_);
    AlignUpIsNextMultiple(start, c.align, c.word);
    var end := (begin + size) % c.word;
    RoundDown(end, c.align);
    var endAlign := c.Down(end);
    AddMod(c.header, c.header, c.align);
    SubMod(endAlign, 2 * c.header, c.align);
    MulMod(1, c.align);
    SubMod(c.word, c.align, c.align);
    if endAlign > 2 * c.header && endAlign - 2 * c.header >= start {
      MultipleBelow(endAlign, c.word - c.align, c.align);
      MultipleBelow(c.Up(start), endAlign - 2 * c.header, c.align);
      SubMod(endAlign - 2 * c.header, c.Up(start), c.align);
    }
  }

  /** If the object does not wrap around, what is accepted lies inside the range, and a range that wraps around is refused. */
  lemma InitInside(c: Config, begin: nat, size: nat, object_: nat)
    requires c.Ok() && begin + object_ + 2 * c.align <= c.word && size < c.word
    ensures InitSize(c, begin, size, object_) >= 0 ==>
      begin + object_ + InitSize(c, begin, size, object_) + 2 * c.header <= begin + size
    ensures InitSize(c, begin, size, object_) >= 0 <==>
      && begin + size < c.word
      && c.Down(begin + size) > 2 * c.header && c.Down(begin + size) - 2 * c.header >= c.Up(begin) + object_
  {
    hide AlignUp;
    AlignUpIsNextMultiple(begin, c.align, c.word);
    DivUnique(c.Up(begin) + object_, c.word, 0, c.Up(begin) + object_);
    AlignUpIsNextMultiple(c.Up(begin) + object_, c.align, c.word);
    InitFits(c, begin, size, object_);
    var end := (begin + size) % c.word;
    if begin + size < c.word {
      DivUnique(begin + size, c.word, 0, begin + size);
    } else {
      DivUnique(begin + size, c.word, 1, begin + size - c.word);
    }
    RoundDown(end, c.align);
  }

  // ---- when the search does not end -------------------------------------------------------

  /** The search cursor after `n` steps along the next links. */
  function Hops(m: Headers, p: nat, n: nat): nat
    decreases n
  {
    if n == 0 || p !in m then p else Hops(m, m[p].next, n - 1)
  }

  /** At `p` the search loop neither stops nor succeeds; differences are unsigned words. */
  ghost predicate KeepsSearching(c: Config, size: nat, m: Headers, p: nat, need: nat)
    requires c.word > 0
  {
    && p <= (size - need) % c.word
    && p in m
    && (m[p].used || (m[p].next - (p + c.header)) % c.word < need)
  }

  /**
   In a heap smaller than MIN_SIZE_ALIGNED the search bound wraps around, and a non-zero request that
   rounds to at most the heap size, or wraps to 0, circles on heap_end for ever.  Alloc excludes
   exactly this.
   */
  lemma SearchNeverEnds(c: Config, size: nat, m: Headers, l: seq<Item>, used: int, lfree: nat, req: nat, n: nat)
    requires Rep(c, size, m, l, used) && Coalesced(l) && IsLowestFree(l, size + c.header, lfree)
    requires 0 < req < c.word && size < c.MinAligned() && c.Up(req) <= size
    ensures KeepsSearching(c, size, m, Hops(m, lfree, n), c.Need(req))
  {
    var end := size + c.header;
    if |l| > 1 {
      FirstPair(l);
      assert false;
    }
    assert lfree == 0;
    AlignUpIsNextMultiple(c.minSize, c.align, c.word);
    var need := c.Need(req);
    DivUnique(size - need, c.word, -1, c.word + size - need);
    DivUnique(size, c.word, 0, size);
    HopsFromEnd(m, end, n);
    if n > 0 { HopsFromEnd(m, end, n - 1); }
  }

  /** A 32-bit machine with 4-byte alignment, and the headers of a heap of 4 usable bytes. */
  const TINY: Config := Config(0x1_0000_0000, 4, 12, 12)
  const TINY_HEADERS: Headers := map[0 := Header(true, false, 16, 0), 16 := Header(true, true, 16, 16)]
  const TINY_LAYOUT: seq<Item> := [Item(0, 16, false)]

  /** rt_smem_init accepts 48 bytes at 0x1000 for an object of 20 bytes, and leaves this heap. */
  lemma TinyNumbers()
    ensures TINY.word == 0x1_0000_0000 && TINY.align == 4 && TINY.header == 12 && TINY.Ok()
    ensures InitSize(TINY, 0x1000, 48, 20) == 4
    ensures TINY.MinAligned() == 12 && TINY.Up(4) == 4 && TINY.Up(0xFFFF_FFFE) == 0
  {
    hide AlignUp;
    AlignUpValue(4, 4, 4, 0x1_0000_0000);
    AlignUpValue(12, 12, 4, 0x1_0000_0000);
    AlignUpValue(0x1000, 0x1000, 4, 0x1_0000_0000);
    AlignUpValue(0x1014, 0x1014, 4, 0x1_0000_0000);
    AlignUpIsNextMultiple(0xFFFF_FFFE, 4, 0x1_0000_0000);
  }

  lemma TinyHeap()
    ensures Rep(TINY, 4, TINY_HEADERS, TINY_LAYOUT, 0) && Coalesced(TINY_LAYOUT) && IsLowestFree(TINY_LAYOUT, 16, 0)
  {
    TinyNumbers();
    hide AlignUp;
    assert TINY_LAYOUT[1..] == [];
    assert UsedBytes(TINY_LAYOUT) == 0;
    hide UsedBytes;
    assert Chained(TINY_HEADERS, TINY_LAYOUT, 16);
    assert Tiles(TINY_LAYOUT, 0, 16, 12);
    hide Chained, Tiles;
  }

  /** In that heap a request for 4 bytes never ends, and neither does one whose rounding wraps around. */
  lemma TinyHeapCircles(n: nat)
    ensures TINY.word > 0 && TINY.align > 0
    ensures KeepsSearching(TINY, 4, TINY_HEADERS, Hops(TINY_HEADERS, 0, n), TINY.Need(4))
    ensures KeepsSearching(TINY, 4, TINY_HEADERS, Hops(TINY_HEADERS, 0, n), TINY.Need(0xFFFF_FFFE))
  {
    hide *;
    TinyNumbers();
    TinyHeap();
    SearchNeverEnds(TINY, 4, TINY_HEADERS, TINY_LAYOUT, 0, 0, 4, n);
    SearchNeverEnds(TINY, 4, TINY_HEADERS, TINY_LAYOUT, 0, 0, 0xFFFF_FFFE, n);
  }

  /**
   Rounding that wraps around, on a fresh heap of 1024 bytes: a request for 0xFFFFFFFE bytes gets a
   block of 12, and a realloc of that block to 0xFFFFFFFE bytes frees it and returns null.
   */
  method WrappedRequests() returns (a: Ptr, b: Ptr, ghost before: seq<Item>, ghost after: seq<Item>)
    ensures a == At(12) && before == [Item(0, 24, true), Item(24, 1036, false)]
    ensures b == Null && after == [Item(0, 1036, false)]
  {
    hide AlignUp;
    TinyNumbers();
    var heap := new SmallHeap(TINY, 1024);
    ghost var k, j;
    WrappedTake();
    a, k := heap.Alloc(0xFFFF_FFFE);
    before := heap.layout;
    b, j := heap.Realloc(a, 0xFFFF_FFFE, k);
    after := heap.layout;
  }

  lemma WrappedTake()
    ensures IsFirstFit([Item(0, 1036, false)], 0, 12, 12) && !NoFit([Item(0, 1036, false)], 12, 12)
    ensures Take([Item(0, 1036, false)], 0, 12, 12, 12) == [Item(0, 24, true), Item(24, 1036, false)]
    ensures Release([Item(0, 24, true), Item(24, 1036, false)], 0) == [Item(0, 1036, false)]
  {
    assert Fits([Item(0, 1036, false)][0], 12, 12);
  }

  lemma FirstPair(l: seq<Item>)
    requires Coalesced(l) && |l| > 1
    ensures l[0].used || l[1].used
  {}

  lemma {:induction false} HopsFromEnd(m: Headers, end: nat, n: nat)
    requires end in m && m[end].next == end
    ensures Hops(m, end, n) == end
  {
    if n > 0 { HopsFromEnd(m, end, n - 1); }
  }

  /** Block `k` of `l` has become block `k'` of `l'`, with its first bytes and room for `n`. */
  ghost predicate Moved(h: nat, l: seq<Item>, l': seq<Item>, k: nat, k': nat, n: nat, src: nat, dst: nat, b: seq<bv8>, b': seq<bv8>) {
    && k < |l| && k' < |l'| && l'[k'].used && l'[k'].start + h == dst
    && l'[k'].end - dst >= n
    && Live(l') == Live(l) - {l[k]} + {l'[k']}
    && Carried(b, b', src, dst, Least(l[k].end - src, n))
  }

  /** Item `j`, the first fit, was taken for `n` bytes, then the old block was released; `max` saw both blocks in use. */
  ghost predicate MovedAs(c: Config, l: seq<Item>, l': seq<Item>, k: nat, n: nat, m: int, m': int, j: nat, i: nat)
    requires c.Ok()
  {
    && k < |l| && IsFirstFit(l, j, c.Need(n), c.header)
    && var t := Take(l, j, c.Need(n), c.header, c.MinAligned());
      i < |t| && t[i] == l[k] && l' == Release(t, i) && m' == Peak(m, UsedBytes(t))
  }

  ghost predicate MovedThrough(c: Config, l: seq<Item>, l': seq<Item>, k: nat, n: nat, m: int, m': int)
    requires c.Ok()
  {
    exists j, i :: MovedAs(c, l, l', k, n, m, m', j, i)
  }

  lemma MovedIs(c: Config, l: seq<Item>, l': seq<Item>, k: nat, n: nat, m: int, m': int, j: nat, i: nat)
    requires c.Ok() && k < |l| && IsFirstFit(l, j, c.Need(n), c.header)
    requires var t := Take(l, j, c.Need(n), c.header, c.MinAligned());
      i < |t| && t[i] == l[k] && l' == Release(t, i) && m' == Peak(m, UsedBytes(t))
    ensures MovedThrough(c, l, l', k, n, m, m')
  {
    hide Config.Ok, AlignUp;
    assert MovedAs(c, l, l', k, n, m, m', j, i);
  }

  /** A moving realloc is an allocation and a free in a run, with the peak taken in between. */
  lemma MoveIsAllocThenFree(c: Config, l: seq<Item>, l': seq<Item>, k: nat, n: nat, m: int, m': int, j: nat, i: nat)
    requires c.Ok() && k < |l| && l[k].used && MovedAs(c, l, l', k, n, m, m', j, i)
    ensures var a := Op.Alloc(j, c.Need(n));
      && Enabled(l, a, c.header)
      && var t := Apply(l, a, c.header, c.MinAligned());
        && Enabled(t, Op.Free(i), c.header) && l' == Apply(t, Op.Free(i), c.header, c.MinAligned())
        && m' == Peak(m, InUse(t, 0, c.header, true))
  {
    hide AlignUp, Take, Release, UsedBytes;
  }

  /** What a successful realloc of block `k`, of `size` bytes, to `n` bytes does to the layout and to the peak. */
  ghost predicate ResizedAs(c: Config, l: seq<Item>, l': seq<Item>, k: nat, size: int, n: nat, m: int, m': int)
    requires c.Ok()
  {
    if size == n then l' == l && m' == m
    else if n + c.header + c.minSize < size then k < |l| && l' == Recut(l, k, n, c.header) && m' == m
    else MovedThrough(c, l, l', k, n, m, m')
  }

  /** The block an allocation makes holds the request exactly when rounding the request did not wrap around. */
  lemma BlockRoom(c: Config, l: seq<Item>, end: nat, k: nat, size: nat)
    requires c.Ok() && Tiles(l, 0, end, c.header) && k < |l| && Fits(l[k], c.Need(size), c.header)
    requires end + c.header < c.word && size < c.word
    ensures var t := Take(l, k, c.Need(size), c.header, c.MinAligned());
      k < |t| && t[k].start == l[k].start && (t[k].end - (t[k].start + c.header) >= size <==> size + c.align <= c.word)
  {
    hide AlignUp;
    NeedAligned(c, size);
    InRange(l, 0, end, c.header, k);
    HeaderHolds(c);
  }

  lemma FirstFits(l: seq<Item>, k: nat, n: nat, h: nat)
    requires IsFirstFit(l, k, n, h)
    ensures k < |l| && Fits(l[k], n, h) && !NoFit(l, n, h)
  {}

  lemma RepEnd(c: Config, size: nat, m: Headers, l: seq<Item>, used: int)
    requires Rep(c, size, m, l, used)
    ensures size + 2 * c.header < c.word
  {}

  /** A header is at least one alignment unit. */
  lemma HeaderHolds(c: Config)
    requires c.Ok()
    ensures c.align <= c.header
  {
    if c.header < c.align {
      MultipleBelow(c.header, 0, c.align);
      assert false;
    }
  }

  function Least(x: int, y: int): int {
    if x < y then x else y
  }

  ghost predicate Carried(b: seq<bv8>, b': seq<bv8>, src: nat, dst: nat, len: int) {
    src + len <= |b| && dst + len <= |b'| && forall i :: dst <= i < dst + len ==> b'[i] == b[i - dst + src]
  }

  /** The effect of copying `len` bytes from src to dst. */
  ghost predicate Copied(b: seq<bv8>, b': seq<bv8>, src: nat, dst: nat, len: nat) {
    && |b| == |b'| && Carried(b, b', src, dst, len)
    && forall i :: 0 <= i < |b| && !(dst <= i < dst + len) ==> b'[i] == b[i]
  }

  lemma UsedMeansRoom(c: Config, size: nat, m: Headers, l: seq<Item>, used: int, k: nat)
    requires Rep(c, size, m, l, used) && k < |l| && l[k].used
    ensures size >= c.MinAligned() && size < c.word
  {}

  lemma SamePayloadsLess(live: set<Item>, x: Item, h: nat, b: seq<bv8>, b': seq<bv8>)
    requires b == b'
    ensures SamePayloads(live - {x}, h, b, b')
  {}

  /** The block that Alloc makes. */
  lemma TakeEffect(c: Config, l: seq<Item>, end: nat, j: nat, n: nat)
    requires c.Ok() && Tiles(l, 0, end, c.header) && IsFirstFit(l, j, c.Need(n), c.header) && n == c.Up(n)
    ensures var r := Take(l, j, c.Need(n), c.header, c.MinAligned());
      && j < |r| && r[j].used && r[j].start == l[j].start && r[j].end - r[j].start - c.header >= n
      && Live(r) == Live(l) + {r[j]} && r[j] !in Live(l) && r[j] in Live(r)
  {
    hide Live, AlignUp, Tiles;
    TakeLive(l, 0, end, c.header, j, c.Need(n), c.MinAligned());
  }

  /** Copying into block `j` reaches no other block. */
  lemma CopyIsLocal(l: seq<Item>, end: nat, h: nat, j: nat, k: nat, b: seq<bv8>, b1: seq<bv8>, b2: seq<bv8>, src: nat, dst: nat, len: nat)
    requires h > 0 && Tiles(l, 0, end, h) && j < |l| && k < |l| && l[j].used && l[k].used && l[j] != l[k]
    requires end <= |b|
    requires dst == l[j].start + h && src == l[k].start + h && dst + len <= l[j].end && src + len <= l[k].end
    requires SamePayloads(Live(l) - {l[j]}, h, b, b1) && Copied(b1, b2, src, dst, len)
    ensures SamePayloads(Live(l) - {l[j]}, h, b, b2)
    ensures Carried(b, b2, src, dst, len)
  {
    assert l[k] in Live(l) - {l[j]};
    InRange(l, 0, end, h, k);
    forall x, i | x in Live(l) - {l[j]} && x.start + h <= i < x.end && i < |b|
      ensures b2[i] == b[i]
    {
      hide Tiles;
      var m := IndexOfLive(l, x);
      if m < j { StartsGrow(l, 0, end, h, m, j); } else { StartsGrow(l, 0, end, h, j, m); }
      assert b1[i] == b[i];
    }
  }

  lemma FreeAfterCopy(live: set<Item>, old_: Item, new_: Item, h: nat, b: seq<bv8>, b1: seq<bv8>, b2: seq<bv8>, src: nat, dst: nat, len: int)
    requires SamePayloads(live - {new_}, h, b, b1) && Carried(b, b1, src, dst, len)
    requires SamePayloads(live - {old_}, h, b1, b2) && new_ in live
    requires dst == new_.start + h && dst + len <= new_.end && new_ != old_
    ensures SamePayloads(live - {new_, old_}, h, b, b2) && Carried(b, b2, src, dst, len)
  {}

  /** Allocating first and then copying still carries the original bytes of the old block. */
  lemma MoveBytes(live: set<Item>, x: Item, h: nat, b: seq<bv8>, b1: seq<bv8>, b2: seq<bv8>, src: nat, dst: nat, len: int)
    requires SamePayloads(live, h, b, b1) && SamePayloads(live - {x}, h, b1, b2) && Carried(b1, b2, src, dst, len)
    requires x in live && src == x.start + h && src + len <= x.end
    ensures SamePayloads(live - {x}, h, b, b2) && Carried(b, b2, src, dst, len)
  {}

  lemma NeedOfRounded(c: Config, x: nat)
    requires c.Ok() && x < c.word
    ensures c.Need(c.Up(x)) == c.Need(x)
  {
    hide AlignUp;
    AlignUpIdempotent(x, c.align, c.word);
  }

  /** Returning the block itself when the size is unchanged. */
  lemma StayMoved(l: seq<Item>, h: nat, k: nat, b: seq<bv8>)
    requires k < |l| && l[k].used && l[k].start + h <= l[k].end <= |b|
    ensures Moved(h, l, l, k, k, l[k].end - l[k].start - h, l[k].start + h, l[k].start + h, b, b)
  {
    assert l[k] in Live(l);
  }

  lemma ShrinkMoved(l: seq<Item>, end: nat, h: nat, k: nat, n: nat, b: seq<bv8>, b': seq<bv8>)
    requires h > 0 && Tiles(l, 0, end, h) && k < |l| && l[k].used && l[k].start + h + n + h <= l[k].end <= |b|
    requires SamePayloads(Live(Recut(l, k, n, h)), h, b, b')
    ensures Moved(h, l, Recut(l, k, n, h), k, k, n, l[k].start + h, l[k].start + h, b, b')
    ensures SamePayloads(Live(l) - {l[k]}, h, b, b')
  {
    hide Recut, Tiles;
    RecutMoved(l, end, h, k, n);
    assert Recut(l, k, n, h)[k] in Live(Recut(l, k, n, h));
  }

  lemma SpellsItem(x: Header, it: Item)
    requires Spells(x, it)
    ensures x.pool && x.used == it.used && x.next == it.end
  {}

  lemma SamePayloadsTrans(live: set<Item>, h: nat, b: seq<bv8>, b': seq<bv8>, b'': seq<bv8>)
    requires SamePayloads(live, h, b, b') && SamePayloads(live, h, b', b'')
    ensures SamePayloads(live, h, b, b'')
  {}

  /** Marking a used item free and coalescing is Release. */
  lemma ReleaseMarked(l: seq<Item>, end: nat, h: nat, k: nat)
    requires h > 0 && Tiles(l, 0, end, h) && Coalesced(l) && k < |l| && l[k].used
    ensures CoalescedBut(Marked(l, k, false), k)
    ensures Release(Marked(l, k, false), k) == Release(l, k)
    ensures Live(Marked(l, k, false)) == Live(l) - {l[k]}
  {
    var r := Marked(l, k, false);
    var a, b := MergeLo(l, k), MergeHi(l, k);
    assert r[..a] == l[..a] && r[b..] == l[b..];
    MarkedLive(l, end, h, k);
  }

  lemma MarkedLive(l: seq<Item>, end: nat, h: nat, k: nat)
    requires h > 0 && Tiles(l, 0, end, h) && k < |l| && l[k].used
    ensures Live(Marked(l, k, false)) == Live(l) - {l[k]}
  {
    var x := l[k].(used := false);
    hide Live, Tiles;
    assert Marked(l, k, false) == Splice(l, k, k + 1, [x]);
    SpliceLive(l, k, k + 1, [x]);
    assert l[k..k + 1] == [l[k]];
    LiveOne(l[k]);
    LiveOne(x);
    LiveOutside(l, 0, end, h, k, k + 1);
    ItemNonEmpty(l, end, h, k);
  }

  lemma ItemNonEmpty(l: seq<Item>, end: nat, h: nat, k: nat)
    requires h > 0 && Tiles(l, 0, end, h) && k < |l|
    ensures l[k].start < l[k].end
  {}

  lemma FreeLowest(l: seq<Item>, end: nat, h: nat, p: nat, k: nat)
    requires h > 0 && Tiles(l, 0, end, h) && IsLowestFree(l, end, p) && k < |l| && l[k].used
    ensures IsLowestFree(Marked(l, k, false), end, if l[k].start < p then l[k].start else p)
  {
    var r := Marked(l, k, false);
    var j := LowestIndex(l, end, p);
    Apart(l, 0, end, h);
    if k < j {
      assert r[k].start == l[k].start && !r[k].used;
    } else {
      assert r[j] == l[j];
    }
  }

  /** The used total covers every used block, so freeing never underflows it. */
  lemma UsedAtLeast(l: seq<Item>, h: nat, k: nat)
    requires k < |l| && l[k].used && forall i :: 0 <= i < |l| ==> l[i].start <= l[i].end
    ensures UsedBytes(l) >= l[k].end - l[k].start
  {
    assert l == l[..k] + ([l[k]] + l[k + 1..]);
    UsedConcat(l[..k], [l[k]] + l[k + 1..]);
    UsedConcat([l[k]], l[k + 1..]);
    SumOne(l[k], h);
    UsedNonNegative(l[..k]);
    UsedNonNegative(l[k + 1..]);
  }

  lemma RepTiles(c: Config, size: nat, m: Headers, l: seq<Item>, used: int)
    requires Rep(c, size, m, l, used)
    ensures c.header > 0 && c.align > 0 && Tiles(l, 0, size + c.header, c.header) && StartsAligned(l, c.align)
    ensures used == UsedBytes(l) && c.Ok()
  {}

  lemma SamePayloadsRefl(l: seq<Item>, h: nat, b: seq<bv8>)
    ensures SamePayloads(Live(l), h, b, b)
  {}

  lemma OnlyAtMore(b: seq<bv8>, b': seq<bv8>, ps: set<nat>, qs: set<nat>, h: nat)
    requires OnlyAt(b, b', ps, h) && ps <= qs
    ensures OnlyAt(b, b', qs, h)
  {}

  lemma EndHeader(c: Config, size: nat, m: Headers, l: seq<Item>, used: int)
    requires Rep(c, size, m, l, used)
    ensures size + c.header in m && m[size + c.header].used
  {}

  lemma AlignedCut(c: Config, l: seq<Item>, k: nat, n: nat)
    requires c.Ok() && StartsAligned(l, c.align) && k < |l| && n % c.align == 0
    ensures (l[k].start + c.header + n) % c.align == 0
  {
    AddMod(l[k].start, c.header, c.align);
    AddMod(l[k].start + c.header, n, c.align);
  }

  lemma StartAligned(c: Config, l: seq<Item>, k: nat)
    requires c.Ok() && StartsAligned(l, c.align) && k < |l|
    ensures (l[k].start + c.header) % c.align == 0
  {
    AddMod(l[k].start, c.header, c.align);
  }

  /** A request above mem_size_aligned fits nowhere. */
  lemma TooBig(l: seq<Item>, size: nat, h: nat, n: nat)
    requires h > 0 && Tiles(l, 0, size + h, h) && n > size
    ensures NoFit(l, n, h)
  {
    Apart(l, 0, size + h, h);
  }

  lemma ClobberRep(c: Config, size: nat, m: Headers, l: seq<Item>, used: int, k: nat, a: nat, b: nat)
    requires Rep(c, size, m, l, used) && k < |l| && l[k].start + c.header <= a <= b <= l[k].end
    ensures Rep(c, size, Clobber(m, a, b, c.header), l, used)
  {
    hide StartsAligned, UsedBytes;
    var h := c.header;
    var m' := Clobber(m, a, b, h);
    Apart(l, 0, size + h, h);
    forall i | 0 <= i < |l|
      ensures l[i].start in m' && m'[l[i].start] == m[l[i].start]
    {
      if i < k { assert l[i].start + h <= l[k].start; }
      if k < i { assert l[k].end <= l[i].start; }
    }
  }

  /** Cutting a used item and freeing the rest is Recut; its live blocks lose only the tail. */
  lemma RecutIsSplitAndRelease(l: seq<Item>, end: nat, h: nat, k: nat, n: nat)
    requires h > 0 && Tiles(l, 0, end, h) && Coalesced(l) && k < |l| && l[k].used
    requires l[k].start + h + n + h <= l[k].end
    ensures var s := SplitItems(l, k, l[k].start + h + n);
      && k + 1 < |s| && CoalescedBut(s, k + 1) && Release(s, k + 1) == Recut(l, k, n, h)
      && Live(Recut(l, k, n, h)) == Live(s)
  {
    hide Live, Tiles, Coalesced, CoalescedBut, Recut, Release;
    SplitItemAt(l, k, l[k].start + h + n);
    SplitCoalescedBut(l, k, l[k].start + h + n);
    ReleaseOfSplit(l, k, n, h);
    RecutLive(l, k, n, h);
  }

  lemma SplitCoalescedBut(l: seq<Item>, k: nat, cut: nat)
    requires Coalesced(l) && k < |l| && l[k].used
    ensures CoalescedBut(SplitItems(l, k, cut), k + 1)
  {
    var s := SplitItems(l, k, cut);
    forall i, j | 0 <= i && j == i + 1 && j < |s| && i != k + 1 && j != k + 1
      ensures s[i].used || s[j].used
    {
      if j <= k {
        assert s[j] == if j < k then l[j] else l[k].(end := cut);
        assert s[i] == l[i];
      } else {
        assert s[i] == l[i - 1] && s[j] == l[j - 1];
      }
    }
  }

  lemma ReleaseOfSplit(l: seq<Item>, k: nat, n: nat, h: nat)
    requires k < |l| && l[k].used
    ensures var s := SplitItems(l, k, l[k].start + h + n);
      k + 1 < |s| && Release(s, k + 1) == Recut(l, k, n, h)
  {
    var cut := l[k].start + h + n;
    var s := SplitItems(l, k, cut);
    var x, y := Item(l[k].start, cut, true), Item(cut, l[k].end, false);
    assert s == l[..k] + [x, y] + l[k + 1..];
    var b := MergeHi(l, k);
    assert k + 1 < |l| ==> s[k + 2] == l[k + 1];
    assert MergeHi(s, k + 1) == b + 1 && MergeLo(s, k + 1) == k + 1;
    assert s[..k + 1] == l[..k] + [x] && s[b + 1..] == l[b..];
    assert s[b].end == l[b - 1].end;
    var z := Item(cut, l[b - 1].end, false);
    assert Release(s, k + 1) == s[..k + 1] + [z] + s[b + 1..];
    assert l[..k] + [x] + [z] + l[b..] == l[..k] + [x, z] + l[b..];
  }

  lemma SplitLowest(l: seq<Item>, end: nat, h: nat, p: nat, k: nat, cut: nat)
    requires h > 0 && Tiles(l, 0, end, h) && IsLowestFree(l, end, p) && k < |l| && l[k].used
    requires l[k].start + h <= cut && cut + h <= l[k].end
    ensures IsLowestFree(SplitItems(l, k, cut), end, if cut < p then cut else p)
  {
    var s := SplitItems(l, k, cut);
    var j := LowestIndex(l, end, p);
    Apart(l, 0, end, h);
    assert forall i :: 0 <= i < k ==> s[i] == l[i];
    assert s[k].used && s[k + 1].start == cut && !s[k + 1].used;
    if k < j {
    } else {
      assert s[j] == l[j];
    }
  }
}
