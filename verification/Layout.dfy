/**
 The abstract meaning of a boundary-tag heap, shared by mem.c and memheap.c: a
 sequence of items that tile an address range.  Every item starts with a header of
 `h` bytes.  The allocator operations are splices of that sequence.
 */
module Layout {
  import opened Peaks

  /** The bytes [start, end) of the heap: a header followed by its payload. */
  datatype Item = Item(start: nat, end: nat, used: bool)

  /** The items of `l`, taken in order, cover [lo, hi) exactly, each with room for a header. */
  ghost predicate Tiles(l: seq<Item>, lo: nat, hi: nat, h: nat) {
    && |l| > 0
    && l[0].start == lo
    && l[|l| - 1].end == hi
    && (forall i :: 0 <= i < |l| ==> l[i].start + h <= l[i].end)
    && (forall i, j :: 0 <= i && j == i + 1 && j < |l| ==> l[i].end == l[j].start)
  }

  /** No two neighbouring items are both free. */
  ghost predicate Coalesced(l: seq<Item>) {
    forall i, j :: 0 <= i && j == i + 1 && j < |l| ==> l[i].used || l[j].used
  }

  /** No two neighbouring items are both free, except for pairs that involve item `k`. */
  ghost predicate CoalescedBut(l: seq<Item>, k: int) {
    forall i, j :: 0 <= i && j == i + 1 && j < |l| && i != k && j != k ==> l[i].used || l[j].used
  }

  /** Header and payload bytes of the used items. */
  function UsedBytes(l: seq<Item>): int {
    if l == [] then 0
    else (if l[0].used then l[0].end - l[0].start else 0) + UsedBytes(l[1..])
  }

  /** Payload bytes of the free items. */
  function FreeBytes(l: seq<Item>, h: nat): int {
    if l == [] then 0
    else (if l[0].used then 0 else l[0].end - l[0].start - h) + FreeBytes(l[1..], h)
  }

  /** `p` is the start of the lowest free item, or `hi` when every item is used. */
  ghost predicate IsLowestFree(l: seq<Item>, hi: nat, p: nat) {
    || (p == hi && forall i :: 0 <= i < |l| ==> l[i].used)
    || (exists k :: 0 <= k < |l| && !l[k].used && l[k].start == p && forall i :: 0 <= i < k ==> l[i].used)
  }

  ghost predicate Fits(it: Item, size: nat, h: nat) {
    !it.used && it.end - it.start - h >= size
  }

  /** Item `i` is the lowest item that can hold `size` payload bytes. */
  ghost predicate IsFirstFit(l: seq<Item>, i: nat, size: nat, h: nat) {
    i < |l| && Fits(l[i], size, h) && forall j :: 0 <= j < i ==> !Fits(l[j], size, h)
  }

  ghost predicate NoFit(l: seq<Item>, size: nat, h: nat) {
    forall i :: 0 <= i < |l| ==> !Fits(l[i], size, h)
  }

  /** `l` with the items i..j replaced by `new`. */
  function Splice(l: seq<Item>, i: nat, j: nat, new_: seq<Item>): seq<Item>
    requires i <= j <= |l|
  {
    l[..i] + new_ + l[j..]
  }

  /** Cuts item `i` after `size` payload bytes; the front becomes used, the rest free. */
  function SplitAt(l: seq<Item>, i: nat, j: nat, size: nat, h: nat): seq<Item>
    requires i < j <= |l|
  {
    var cut := l[i].start + h + size;
    Splice(l, i, j, [Item(l[i].start, cut, true), Item(cut, l[j - 1].end, false)])
  }

  /** Takes item `i` for `size` bytes; what is left becomes a free item if it can hold `min` bytes. */
  function Take(l: seq<Item>, i: nat, size: nat, h: nat, min: nat): seq<Item>
    requires i < |l|
  {
    if l[i].end - l[i].start - h >= size + h + min then SplitAt(l, i, i + 1, size, h)
    else l[i := l[i].(used := true)]
  }

  /** First index merged when item `i` becomes free. */
  function MergeLo(l: seq<Item>, i: nat): (lo: nat)
    requires i < |l|
    ensures lo <= i
  {
    if i > 0 && !l[i - 1].used then i - 1 else i
  }

  /** One past the last index merged when item `i` becomes free. */
  function MergeHi(l: seq<Item>, i: nat): (hi: nat)
    requires i < |l|
    ensures i < hi <= |l|
  {
    if i + 1 < |l| && !l[i + 1].used then i + 2 else i + 1
  }

  /** Frees item `i`, merging it with its free neighbours. */
  function Release(l: seq<Item>, i: nat): seq<Item>
    requires i < |l|
  {
    var lo, hi := MergeLo(l, i), MergeHi(l, i);
    Splice(l, lo, hi, [Item(l[lo].start, l[hi - 1].end, false)])
  }

  /** Cuts used item `i` down (or up) to `size` payload bytes, giving the rest to the free item after it. */
  function Recut(l: seq<Item>, i: nat, size: nat, h: nat): seq<Item>
    requires i < |l|
  {
    SplitAt(l, i, MergeHi(l, i), size, h)
  }

  // ---- positions -------------------------------------------------------------

  /** Starts grow strictly along a tiling. */
  lemma {:induction false} StartsGrow(l: seq<Item>, lo: nat, hi: nat, h: nat, i: nat, j: nat)
    requires Tiles(l, lo, hi, h) && h > 0 && i < j < |l|
    ensures l[i].end <= l[j].start
    ensures lo <= l[i].start < l[i].end <= l[j].start < l[j].end <= hi
    decreases j - i
  {
    InRange(l, lo, hi, h, i);
    InRange(l, lo, hi, h, j);
    if i + 1 < j {
      StartsGrow(l, lo, hi, h, i, j - 1);
    }
  }

  lemma {:induction false} InRange(l: seq<Item>, lo: nat, hi: nat, h: nat, i: nat)
    requires Tiles(l, lo, hi, h) && i < |l|
    ensures lo <= l[i].start && l[i].end <= hi
  {
    var k: nat := i;
    while k > 0
      invariant k <= i && l[k].start <= l[i].start
    {
      k := k - 1;
    }
    k := i;
    while k + 1 < |l|
      invariant k < |l| && l[k].end >= l[i].end
    {
      k := k + 1;
    }
  }

  /** Items do not overlap. */
  lemma Apart(l: seq<Item>, lo: nat, hi: nat, h: nat)
    requires Tiles(l, lo, hi, h) && h > 0
    ensures forall i, j :: 0 <= i < j < |l| ==> l[i].start + h <= l[i].end <= l[j].start
    ensures forall i :: 0 <= i < |l| ==> lo <= l[i].start && l[i].start + h <= l[i].end <= hi
  {
    forall i, j | 0 <= i < j < |l|
      ensures l[i].start + h <= l[i].end <= l[j].start
    {
      StartsGrow(l, lo, hi, h, i, j);
    }
    forall i | 0 <= i < |l|
      ensures lo <= l[i].start && l[i].start + h <= l[i].end <= hi
    {
      InRange(l, lo, hi, h, i);
    }
  }

  /** An item is known by its start. */
  lemma StartInjective(l: seq<Item>, lo: nat, hi: nat, h: nat, i: nat, j: nat)
    requires Tiles(l, lo, hi, h) && h > 0 && i < |l| && j < |l| && l[i].start == l[j].start
    ensures i == j
  {
    if i < j {
      StartsGrow(l, lo, hi, h, i, j);
    } else if j < i {
      StartsGrow(l, lo, hi, h, j, i);
    }
  }

  // ---- sums ------------------------------------------------------------------

  lemma {:induction false} UsedConcat(a: seq<Item>, b: seq<Item>)
    ensures UsedBytes(a + b) == UsedBytes(a) + UsedBytes(b)
  {
    if a == [] {
      assert a + b == b;
    } else {
      assert (a + b)[1..] == a[1..] + b;
      UsedConcat(a[1..], b);
    }
  }

  lemma {:induction false} FreeConcat(a: seq<Item>, b: seq<Item>, h: nat)
    ensures FreeBytes(a + b, h) == FreeBytes(a, h) + FreeBytes(b, h)
  {
    if a == [] {
      assert a + b == b;
    } else {
      assert (a + b)[1..] == a[1..] + b;
      FreeConcat(a[1..], b, h);
    }
  }

  /** A splice changes the sums by what it removes and adds. */
  lemma SpliceSums(l: seq<Item>, i: nat, j: nat, new_: seq<Item>, h: nat)
    requires i <= j <= |l|
    ensures UsedBytes(Splice(l, i, j, new_)) == UsedBytes(l) - UsedBytes(l[i..j]) + UsedBytes(new_)
    ensures FreeBytes(Splice(l, i, j, new_), h) == FreeBytes(l, h) - FreeBytes(l[i..j], h) + FreeBytes(new_, h)
  {
    assert l == l[..i] + (l[i..j] + l[j..]);
    UsedConcat(l[..i], l[i..j] + l[j..]);
    UsedConcat(l[i..j], l[j..]);
    assert Splice(l, i, j, new_) == l[..i] + (new_ + l[j..]);
    UsedConcat(l[..i], new_ + l[j..]);
    UsedConcat(new_, l[j..]);
    FreeConcat(l[..i], l[i..j] + l[j..], h);
    FreeConcat(l[i..j], l[j..], h);
    FreeConcat(l[..i], new_ + l[j..], h);
    FreeConcat(new_, l[j..], h);
  }

  lemma SumOne(x: Item, h: nat)
    ensures UsedBytes([x]) == if x.used then x.end - x.start else 0
    ensures FreeBytes([x], h) == if x.used then 0 else x.end - x.start - h
  {
    assert [x][1..] == [];
  }

  lemma SumTwo(x: Item, y: Item, h: nat)
    ensures UsedBytes([x, y]) == UsedBytes([x]) + UsedBytes([y])
    ensures FreeBytes([x, y], h) == FreeBytes([x], h) + FreeBytes([y], h)
  {
    assert [x, y] == [x] + [y];
    UsedConcat([x], [y]);
    FreeConcat([x], [y], h);
  }

  lemma {:induction false} UsedNonNegative(l: seq<Item>)
    requires forall i :: 0 <= i < |l| ==> l[i].start <= l[i].end
    ensures UsedBytes(l) >= 0
  {
    if l != [] {
      UsedNonNegative(l[1..]);
    }
  }

  // ---- what the operations keep ------------------------------------------------

  lemma SpliceAt(l: seq<Item>, i: nat, j: nat, new_: seq<Item>)
    requires i <= j <= |l|
    ensures var r := Splice(l, i, j, new_);
      var n := |new_|;
      && |r| == i + n + |l| - j
      && (forall k :: 0 <= k < i ==> r[k] == l[k])
      && (forall k :: i <= k < i + n ==> r[k] == new_[k - i])
      && (forall k :: i + n <= k < |r| ==> r[k] == l[k - n - i + j])
  {}

  /** A splice of a tiling by a tiling of the same bytes is a tiling. */
  lemma SpliceTiles(l: seq<Item>, lo: nat, hi: nat, h: nat, i: nat, j: nat, new_: seq<Item>)
    requires Tiles(l, lo, hi, h) && i < j <= |l|
    requires Tiles(new_, l[i].start, l[j - 1].end, h)
    ensures Tiles(Splice(l, i, j, new_), lo, hi, h)
  {
    SpliceAt(l, i, j, new_);
    hide Splice;
    var r := Splice(l, i, j, new_);
    var n := |new_|;
    forall a, b | 0 <= a && b == a + 1 && b < |r|
      ensures r[a].end == r[b].start
    {
      if b < i {
      } else if b == i {
        assert r[b] == new_[0];
      } else if b < i + n {
        assert new_[a - i].end == new_[b - i].start;
      } else if b == i + n {
        assert r[a] == new_[n - 1] && r[b] == l[j];
      } else {
        assert l[a - n - i + j].end == l[b - n - i + j].start;
      }
    }
    assert r[|r| - 1].end == hi;
  }

  /** A splice is coalesced if the new part is, both joints are, and the kept parts are. */
  lemma SpliceCoalesced(l: seq<Item>, i: nat, j: nat, new_: seq<Item>)
    requires i < j <= |l| && new_ != [] && Coalesced(new_)
    requires forall a, b :: 0 <= a && b == a + 1 && b < |l| && (b < i || a >= j) ==> l[a].used || l[b].used
    requires i > 0 ==> l[i - 1].used || new_[0].used
    requires j < |l| ==> new_[|new_| - 1].used || l[j].used
    ensures Coalesced(Splice(l, i, j, new_))
  {
    var r := Splice(l, i, j, new_);
    var n := |new_|;
    forall a, b | 0 <= a && b == a + 1 && b < |r|
      ensures r[a].used || r[b].used
    {
      if b < i {
        assert r[a] == l[a] && r[b] == l[b];
      } else if b == i {
        assert r[a] == l[i - 1] && r[b] == new_[0];
      } else if b < i + n {
        assert r[a] == new_[a - i] && r[b] == new_[b - i];
      } else if b == i + n {
        assert r[a] == new_[n - 1] && r[b] == l[j];
      } else {
        assert r[a] == l[a - n - i + j] && r[b] == l[b - n - i + j];
      }
    }
  }

  /** Cutting items i..j into a used front and a free rest keeps the heap a coalesced tiling. */
  lemma SplitKeeps(l: seq<Item>, lo: nat, hi: nat, h: nat, i: nat, j: nat, size: nat)
    requires Tiles(l, lo, hi, h) && Coalesced(l) && i < j <= |l|
    requires l[i].start + h + size + h <= l[j - 1].end
    requires j < |l| ==> l[j].used
    ensures Tiles(SplitAt(l, i, j, size, h), lo, hi, h) && Coalesced(SplitAt(l, i, j, size, h))
  {
    var x := Item(l[i].start, l[i].start + h + size, true);
    var y := Item(x.end, l[j - 1].end, false);
    Pair(x, y, h);
    assert Tiles(SplitAt(l, i, j, size, h), lo, hi, h) by {
      hide Tiles;
      SpliceTiles(l, lo, hi, h, i, j, [x, y]);
    }
    hide Tiles;
    SpliceCoalesced(l, i, j, [x, y]);
  }

  lemma Pair(x: Item, y: Item, h: nat)
    requires x.start + h <= x.end == y.start && y.start + h <= y.end && x.used
    ensures Tiles([x, y], x.start, y.end, h) && Coalesced([x, y])
  {}

  /** Taking a fitting free item keeps the heap a coalesced tiling. */
  lemma TakeKeeps(l: seq<Item>, lo: nat, hi: nat, h: nat, i: nat, size: nat, min: nat)
    requires Tiles(l, lo, hi, h) && Coalesced(l) && i < |l| && Fits(l[i], size, h)
    ensures Tiles(Take(l, i, size, h, min), lo, hi, h) && Coalesced(Take(l, i, size, h, min))
  {
    if l[i].end - l[i].start - h >= size + h + min {
      SplitKeeps(l, lo, hi, h, i, i + 1, size);
    }
  }

  /** Freeing an item keeps the tiling and coalesces it. */
  lemma ReleaseKeeps(l: seq<Item>, lo: nat, hi: nat, h: nat, i: nat)
    requires Tiles(l, lo, hi, h) && CoalescedBut(l, i) && i < |l|
    ensures Tiles(Release(l, i), lo, hi, h) && Coalesced(Release(l, i))
  {
    var a, b := MergeLo(l, i), MergeHi(l, i);
    assert l[a].start + h <= l[b - 1].end by {
      if a < i { assert l[a].end == l[i].start; }
      if b == i + 2 { assert l[i].end == l[i + 1].start; }
    }
    var new_ := [Item(l[a].start, l[b - 1].end, false)];
    SpliceTiles(l, lo, hi, h, a, b, new_);
    SpliceCoalesced(l, a, b, new_);
  }

  /** Moving the boundary behind a used item keeps the heap a coalesced tiling. */
  lemma RecutKeeps(l: seq<Item>, lo: nat, hi: nat, h: nat, i: nat, size: nat)
    requires Tiles(l, lo, hi, h) && Coalesced(l) && i < |l| && l[i].used
    requires l[i].start + h + size + h <= l[MergeHi(l, i) - 1].end
    ensures Tiles(Recut(l, i, size, h), lo, hi, h) && Coalesced(Recut(l, i, size, h))
  {
    var b := MergeHi(l, i);
    if b == i + 2 && b < |l| { assert l[b - 1].used || l[b].used; }
    SplitKeeps(l, lo, hi, h, i, b, size);
  }

  // ---- elementary steps ---------------------------------------------------------------

  /** Headers at `p` and `q` do not overlap. */
  predicate Clear(p: nat, q: nat, h: nat) {
    q + h <= p || p + h <= q
  }

  /** Item `k` is cut in two; the rest is free. */
  function SplitItems(l: seq<Item>, k: nat, cut: nat): seq<Item>
    requires k < |l|
  {
    Splice(l, k, k + 1, [Item(l[k].start, cut, l[k].used), Item(cut, l[k].end, false)])
  }

  /** Item `k` takes over the item behind it. */
  function AbsorbItems(l: seq<Item>, k: nat): seq<Item>
    requires k + 1 < |l|
  {
    Splice(l, k, k + 2, [Item(l[k].start, l[k + 1].end, l[k].used)])
  }

  function Marked(l: seq<Item>, k: nat, u: bool): seq<Item>
    requires k < |l|
  {
    l[k := l[k].(used := u)]
  }

  lemma SplitSums(l: seq<Item>, h: nat, k: nat, cut: nat)
    requires k < |l|
    ensures UsedBytes(SplitItems(l, k, cut)) == UsedBytes(l) - (if l[k].used then l[k].end - cut else 0)
    ensures FreeBytes(SplitItems(l, k, cut), h) == FreeBytes(l, h) - (if l[k].used then h + cut - l[k].end else h)
  {
    var x, y := Item(l[k].start, cut, l[k].used), Item(cut, l[k].end, false);
    SpliceSums(l, k, k + 1, [x, y], h);
    assert l[k..k + 1] == [l[k]];
    SumTwo(x, y, h);
    SumOne(l[k], h);
    SumOne(x, h);
    SumOne(y, h);
  }

  lemma AbsorbSums(l: seq<Item>, h: nat, k: nat)
    requires k + 1 < |l| && !l[k + 1].used && l[k].end == l[k + 1].start
    ensures UsedBytes(AbsorbItems(l, k)) == UsedBytes(l) + (if l[k].used then l[k + 1].end - l[k].end else 0)
    ensures FreeBytes(AbsorbItems(l, k), h) == FreeBytes(l, h) + (if l[k].used then l[k].end - l[k + 1].end + h else h)
  {
    var x := Item(l[k].start, l[k + 1].end, l[k].used);
    SpliceSums(l, k, k + 2, [x], h);
    assert l[k..k + 2] == [l[k], l[k + 1]];
    SumTwo(l[k], l[k + 1], h);
    SumOne(l[k], h);
    SumOne(l[k + 1], h);
    SumOne(x, h);
  }

  lemma MarkSums(l: seq<Item>, h: nat, k: nat, u: bool)
    requires k < |l| && l[k].used != u
    ensures UsedBytes(Marked(l, k, u)) == UsedBytes(l) + (if u then l[k].end - l[k].start else l[k].start - l[k].end)
    ensures FreeBytes(Marked(l, k, u), h) == FreeBytes(l, h) - (if u then l[k].end - l[k].start - h else l[k].start + h - l[k].end)
  {
    hide UsedBytes, FreeBytes;
    var x := l[k].(used := u);
    SpliceSums(l, k, k + 1, [x], h);
    assert l[k..k + 1] == [l[k]];
    assert Marked(l, k, u) == Splice(l, k, k + 1, [x]);
    SumOne(l[k], h);
    SumOne(x, h);
  }

  lemma SplitTiles(l: seq<Item>, lo: nat, hi: nat, h: nat, k: nat, cut: nat)
    requires Tiles(l, lo, hi, h) && k < |l| && l[k].start + h <= cut && cut + h <= l[k].end
    ensures Tiles(SplitItems(l, k, cut), lo, hi, h)
  {
    var x, y := Item(l[k].start, cut, l[k].used), Item(cut, l[k].end, false);
    SpliceTiles(l, lo, hi, h, k, k + 1, [x, y]);
  }

  lemma AbsorbTiles(l: seq<Item>, lo: nat, hi: nat, h: nat, k: nat)
    requires Tiles(l, lo, hi, h) && k + 1 < |l|
    ensures Tiles(AbsorbItems(l, k), lo, hi, h)
  {
    assert l[k].end == l[k + 1].start;
    SpliceTiles(l, lo, hi, h, k, k + 2, [Item(l[k].start, l[k + 1].end, l[k].used)]);
  }

  lemma MarkedTiles(l: seq<Item>, lo: nat, hi: nat, h: nat, k: nat, u: bool)
    requires Tiles(l, lo, hi, h) && k < |l|
    ensures Tiles(Marked(l, k, u), lo, hi, h)
  {}

  lemma SplitItemAt(l: seq<Item>, k: nat, cut: nat)
    requires k < |l|
    ensures var s := SplitItems(l, k, cut);
      |s| == |l| + 1 && s[k] == Item(l[k].start, cut, l[k].used) && s[k + 1] == Item(cut, l[k].end, false)
  {}

  lemma AbsorbItemAt(l: seq<Item>, k: nat)
    requires k + 1 < |l|
    ensures var s := AbsorbItems(l, k); |s| == |l| - 1 && s[k] == Item(l[k].start, l[k + 1].end, l[k].used)
  {}

  lemma MarkedItem(l: seq<Item>, k: nat, u: bool)
    requires k < |l|
    ensures |Marked(l, k, u)| == |l| && Marked(l, k, u)[k] == l[k].(used := u)
  {}

  /** Allocation splits, or not, and marks. */
  lemma TakeIsSplitAndMark(l: seq<Item>, k: nat, n: nat, h: nat, min: nat)
    requires k < |l|
    ensures Take(l, k, n, h, min) ==
      if l[k].end - l[k].start - h >= n + h + min then
        var s := SplitItems(l, k, l[k].start + h + n); assert k < |s|; Marked(s, k, true)
      else Marked(l, k, true)
  {}

  // ---- canonical form ----------------------------------------------------------

  /** The live blocks of a layout. */
  ghost function Live(l: seq<Item>): set<Item> {
    set i | 0 <= i < |l| && l[i].used :: l[i]
  }

  /**
   A coalesced tiling is determined by its live blocks: two heaps over the same range
   that hold the same blocks are laid out identically, whatever calls led to them.
   */
  lemma {:induction false} LayoutUnique(a: seq<Item>, b: seq<Item>, lo: nat, hi: nat, h: nat)
    requires h > 0 && Tiles(a, lo, hi, h) && Tiles(b, lo, hi, h) && Coalesced(a) && Coalesced(b)
    requires Live(a) == Live(b)
    ensures a == b
    decreases |a|
  {
    hide Tiles, Coalesced, Live;
    HeadsAgree(a, b, lo, hi, h);
    Tail(a, lo, hi, h);
    Tail(b, lo, hi, h);
    if |a| > 1 && |b| > 1 {
      TailLive(a, lo, hi, h);
      TailLive(b, lo, hi, h);
      LayoutUnique(a[1..], b[1..], a[0].end, hi, h);
    }
    assert a == [a[0]] + a[1..] && b == [b[0]] + b[1..];
  }

  lemma Tail(a: seq<Item>, lo: nat, hi: nat, h: nat)
    requires h > 0 && Tiles(a, lo, hi, h) && Coalesced(a)
    ensures |a| > 0
    ensures |a| == 1 <==> a[0].end == hi
    ensures |a| > 1 ==> Tiles(a[1..], a[0].end, hi, h) && Coalesced(a[1..])
  {
    if |a| > 1 {
      StartsGrow(a, lo, hi, h, 0, |a| - 1);
      var t := a[1..];
      assert forall i :: 0 <= i < |t| ==> t[i] == a[i + 1];
    }
  }

  lemma TailLive(a: seq<Item>, lo: nat, hi: nat, h: nat)
    requires h > 0 && Tiles(a, lo, hi, h) && |a| > 1
    ensures Live(a[1..]) == Live(a) - {a[0]}
  {
    forall x | x in Live(a[1..])
      ensures x in Live(a) && x != a[0]
    {
      var i :| 0 <= i < |a[1..]| && a[1..][i].used && a[1..][i] == x;
      assert a[i + 1] == x;
      StartsGrow(a, lo, hi, h, 0, i + 1);
    }
    forall x | x in Live(a) && x != a[0]
      ensures x in Live(a[1..])
    {
      var i :| 0 <= i < |a| && a[i].used && a[i] == x;
      assert a[1..][i - 1] == x;
    }
  }

  lemma HeadsAgree(a: seq<Item>, b: seq<Item>, lo: nat, hi: nat, h: nat)
    requires h > 0 && Tiles(a, lo, hi, h) && Tiles(b, lo, hi, h) && Coalesced(a) && Coalesced(b)
    requires Live(a) == Live(b)
    ensures a[0] == b[0]
  {
    if a[0].used {
      HeadInLive(a, b, lo, hi, h);
    } else if b[0].used {
      HeadInLive(b, a, lo, hi, h);
    } else {
      FreeHeadEnd(a, b, lo, hi, h);
      FreeHeadEnd(b, a, lo, hi, h);
    }
  }

  lemma HeadInLive(a: seq<Item>, b: seq<Item>, lo: nat, hi: nat, h: nat)
    requires h > 0 && Tiles(a, lo, hi, h) && Tiles(b, lo, hi, h) && Live(a) == Live(b) && a[0].used
    ensures a[0] == b[0]
  {
    assert a[0] in Live(b);
    var i :| 0 <= i < |b| && b[i].used && b[i] == a[0];
    StartInjective(b, lo, hi, h, 0, i);
  }

  lemma FreeHeadEnd(a: seq<Item>, b: seq<Item>, lo: nat, hi: nat, h: nat)
    requires h > 0 && Tiles(a, lo, hi, h) && Tiles(b, lo, hi, h) && Coalesced(a)
    requires Live(a) == Live(b) && !a[0].used && !b[0].used
    ensures a[0].end >= b[0].end
  {
    if |a| == 1 {
      InRange(b, lo, hi, h, 0);
    } else if a[0].end < b[0].end {
      // the item after b[0] is live, so it is an item of a, so a's second item cannot start inside b[0]
      EndIsLiveStart(a, b, lo, hi, h);
    }
  }

  lemma EndIsLiveStart(a: seq<Item>, b: seq<Item>, lo: nat, hi: nat, h: nat)
    requires h > 0 && Tiles(a, lo, hi, h) && Tiles(b, lo, hi, h)
    requires |a| > 1 && Live(a) == Live(b) && !b[0].used
    ensures a[1].used ==> a[1].start >= b[0].end
  {
    if a[1].used {
      assert a[1] in Live(b);
      var i :| 0 <= i < |b| && b[i].used && b[i] == a[1];
      StartsGrow(b, lo, hi, h, 0, i);
    }
  }

  /** With no live block left, the heap is one free item again. */
  lemma NoneLiveIsWhole(l: seq<Item>, lo: nat, hi: nat, h: nat)
    requires h > 0 && Tiles(l, lo, hi, h) && Coalesced(l) && Live(l) == {}
    ensures l == [Item(lo, hi, false)]
  {
    var w := [Item(lo, hi, false)];
    InRange(l, lo, hi, h, 0);
    LayoutUnique(l, w, lo, hi, h);
  }

  lemma LiveConcat(a: seq<Item>, b: seq<Item>)
    ensures Live(a + b) == Live(a) + Live(b)
  {
    var r := a + b;
    forall x | x in Live(a) + Live(b)
      ensures x in Live(r)
    {
      if x in Live(a) {
        var k :| 0 <= k < |a| && a[k].used && a[k] == x;
        assert r[k] == x;
      } else {
        var k :| 0 <= k < |b| && b[k].used && b[k] == x;
        assert r[|a| + k] == x;
      }
    }
  }

  lemma SpliceLive(l: seq<Item>, i: nat, j: nat, new_: seq<Item>)
    requires i <= j <= |l|
    ensures Live(l) == Live(l[..i]) + Live(l[i..j]) + Live(l[j..])
    ensures Live(Splice(l, i, j, new_)) == Live(l[..i]) + Live(new_) + Live(l[j..])
  {
    assert l == l[..i] + l[i..j] + l[j..];
    LiveConcat(l[..i] + l[i..j], l[j..]);
    LiveConcat(l[..i], l[i..j]);
    LiveConcat(l[..i] + new_, l[j..]);
    LiveConcat(l[..i], new_);
  }

  /** No live block outside items i..j starts inside them. */
  lemma LiveOutside(l: seq<Item>, lo: nat, hi: nat, h: nat, i: nat, j: nat)
    requires h > 0 && Tiles(l, lo, hi, h) && i < j <= |l|
    ensures forall x :: x in Live(l[..i]) ==> x.start < l[i].start
    ensures forall x :: x in Live(l[j..]) ==> x.start >= l[j - 1].end
  {
    Apart(l, lo, hi, h);
    forall x | x in Live(l[..i])
      ensures x.start < l[i].start
    {
      var k :| 0 <= k < i && l[..i][k] == x;
      assert l[k] == x;
    }
    forall x | x in Live(l[j..])
      ensures x.start >= l[j - 1].end
    {
      var k :| 0 <= k < |l| - j && l[j..][k] == x;
      assert l[j + k] == x;
    }
  }

  lemma LiveOne(x: Item)
    ensures Live([x]) == if x.used then {x} else {}
  {
    if x.used { assert [x][0] in Live([x]); }
  }

  lemma LiveRange(l: seq<Item>, i: nat, a: nat, b: nat)
    requires a <= i < b <= |l| && i - 1 <= a && b <= i + 2
    requires a < i ==> !l[a].used
    requires b > i + 1 ==> !l[i + 1].used
    ensures Live(l[a..b]) == Live([l[i]])
  {
    var m := l[a..b];
    assert m[i - a] == l[i];
    assert a < i ==> m[0] == l[a];
    assert b > i + 1 ==> m[i + 1 - a] == l[i + 1];
    LiveOne(l[i]);
    if l[i].used { assert m[i - a] in Live(m); }
  }

  /** Freeing a block removes it, and nothing else, from the live blocks. */
  lemma ReleaseLive(l: seq<Item>, lo: nat, hi: nat, h: nat, i: nat)
    requires h > 0 && Tiles(l, lo, hi, h) && i < |l| && l[i].used
    ensures Live(Release(l, i)) == Live(l) - {l[i]}
  {
    var a, b := MergeLo(l, i), MergeHi(l, i);
    var x := Item(l[a].start, l[b - 1].end, false);
    SpliceLive(l, a, b, [x]);
    LiveRange(l, i, a, b);
    LiveOne(l[i]);
    LiveOne(x);
    LiveOutside(l, lo, hi, h, a, b);
    assert l[a].start <= l[i].start < l[b - 1].end by {
      if a < i { assert l[a].end == l[i].start; }
      if b > i + 1 { assert l[i].end == l[i + 1].start; }
    }
    ghost var left, right := Live(l[..a]), Live(l[b..]);
    assert l[i] !in left && l[i] !in right;
    assert Live(l) == left + {l[i]} + right && Live(Release(l, i)) == left + {} + right;
    hide *;
  }

  /** The block taken is exactly as large as asked, the rest being free, unless the rest is too small to be an item of its own. */
  lemma TakeIsTight(l: seq<Item>, i: nat, size: nat, h: nat, min: nat)
    requires h > 0 && i < |l| && Fits(l[i], size, h)
    ensures var r := Take(l, i, size, h, min);
      if l[i].end - l[i].start - h >= size + h + min
      then |r| == |l| + 1 && r[i] == Item(l[i].start, l[i].start + h + size, true) && r[i + 1] == Item(r[i].end, l[i].end, false)
      else |r| == |l| && r[i] == Item(l[i].start, l[i].end, true)
    ensures var r := Take(l, i, size, h, min);
      r[..i] == l[..i] && r[|r| - (|l| - i - 1)..] == l[i + 1..]
  {}

  /** Allocating adds one block to the live blocks: the front of the item taken. */
  lemma TakeLive(l: seq<Item>, lo: nat, hi: nat, h: nat, i: nat, size: nat, min: nat)
    requires h > 0 && Tiles(l, lo, hi, h) && i < |l| && Fits(l[i], size, h)
    ensures var r := Take(l, i, size, h, min); i < |r| && Live(r) == Live(l) + {r[i]} && r[i] !in Live(l)
  {
    var r := Take(l, i, size, h, min);
    var new_ := if |r| == |l| then [r[i]] else [r[i], r[i + 1]];
    assert r == Splice(l, i, i + 1, new_);
    SpliceLive(l, i, i + 1, new_);
    LiveRange(l, i, i, i + 1);
    LiveOne(l[i]);
    LiveOne(r[i]);
    if |r| != |l| {
      LiveOne(r[i + 1]);
      LiveConcat([r[i]], [r[i + 1]]);
      assert new_ == [r[i]] + [r[i + 1]];
    }
    LiveOutside(l, lo, hi, h, i, i + 1);
    Apart(l, lo, hi, h);
  }

  /** Freeing what was just allocated gives back the very same layout. */
  lemma TakeReleaseIdentity(l: seq<Item>, lo: nat, hi: nat, h: nat, i: nat, size: nat, min: nat)
    requires h > 0 && Tiles(l, lo, hi, h) && Coalesced(l) && i < |l| && Fits(l[i], size, h)
    ensures i < |Take(l, i, size, h, min)| && Release(Take(l, i, size, h, min), i) == l
  {
    var r := Take(l, i, size, h, min);
    TakeKeeps(l, lo, hi, h, i, size, min);
    TakeLive(l, lo, hi, h, i, size, min);
    ReleaseLive(r, lo, hi, h, i);
    ReleaseKeeps(r, lo, hi, h, i);
    assert Live(Release(r, i)) == Live(l);
    LayoutUnique(Release(r, i), l, lo, hi, h);
  }

  /** The order in which two blocks are freed does not matter. */
  lemma ReleaseCommutes(l: seq<Item>, lo: nat, hi: nat, h: nat, i: nat, j: nat, i': nat, j': nat)
    requires h > 0 && Tiles(l, lo, hi, h) && Coalesced(l) && i < |l| && j < |l| && i != j && l[i].used && l[j].used
    requires j' < |Release(l, i)| && Release(l, i)[j'] == l[j]
    requires i' < |Release(l, j)| && Release(l, j)[i'] == l[i]
    ensures Release(Release(l, i), j') == Release(Release(l, j), i')
  {
    hide Release, Tiles, Coalesced, Live;
    FreeTwo(l, lo, hi, h, i, j, j');
    FreeTwo(l, lo, hi, h, j, i, i');
    assert Live(l) - {l[i], l[j]} == Live(l) - {l[j], l[i]};
    LayoutUnique(Release(Release(l, i), j'), Release(Release(l, j), i'), lo, hi, h);
  }

  lemma FreeTwo(l: seq<Item>, lo: nat, hi: nat, h: nat, i: nat, j: nat, j': nat)
    requires h > 0 && Tiles(l, lo, hi, h) && Coalesced(l) && i < |l| && j < |l| && l[i].used && l[j].used
    requires j' < |Release(l, i)| && Release(l, i)[j'] == l[j]
    ensures Tiles(Release(Release(l, i), j'), lo, hi, h) && Coalesced(Release(Release(l, i), j'))
    ensures Live(Release(Release(l, i), j')) == Live(l) - {l[i], l[j]}
  {
    ReleaseKeeps(l, lo, hi, h, i);
    ReleaseLive(l, lo, hi, h, i);
    ReleaseKeeps(Release(l, i), lo, hi, h, j');
    ReleaseLive(Release(l, i), lo, hi, h, j');
  }

  lemma LiveItem(l: seq<Item>, k: nat)
    requires k < |l| && l[k].used
    ensures l[k] in Live(l)
  {}

  lemma IndexOfLive(l: seq<Item>, x: Item) returns (k: nat)
    requires x in Live(l)
    ensures k < |l| && l[k] == x && x.used
  {
    k :| k < |l| && l[k].used && l[k] == x;
  }

  lemma RecutLive(l: seq<Item>, k: nat, n: nat, h: nat)
    requires k < |l| && l[k].used
    ensures Live(Recut(l, k, n, h)) == Live(SplitItems(l, k, l[k].start + h + n))
    ensures Live(Recut(l, k, n, h)) == Live(l[..k]) + {Item(l[k].start, l[k].start + h + n, true)} + Live(l[k + 1..])
  {
    hide Live;
    var b := MergeHi(l, k);
    var cut := l[k].start + h + n;
    var x := Item(l[k].start, cut, true);
    var y, z := Item(cut, l[k].end, false), Item(cut, l[b - 1].end, false);
    SpliceLive(l, k, k + 1, [x, y]);
    SpliceLive(l, k, b, [x, z]);
    PairLive(x, y);
    PairLive(x, z);
    if b == k + 2 {
      assert l[k + 1..] == [l[k + 1]] + l[b..];
      LiveConcat([l[k + 1]], l[b..]);
      LiveOne(l[k + 1]);
    }
  }

  lemma PairLive(x: Item, y: Item)
    requires x.used && !y.used
    ensures Live([x, y]) == {x}
  {
    assert [x, y] == [x] + [y];
    LiveConcat([x], [y]);
    LiveOne(x);
    LiveOne(y);
  }

  /** After a resize in place the block is where it was, and no other block has changed. */
  lemma RecutMoved(l: seq<Item>, end: nat, h: nat, k: nat, n: nat)
    requires h > 0 && Tiles(l, 0, end, h) && k < |l| && l[k].used
    ensures var r := Recut(l, k, n, h);
      && k < |r| && r[k] == Item(l[k].start, l[k].start + h + n, true)
      && Live(r) == Live(l) - {l[k]} + {r[k]}
  {
    assert l[k].start < l[k].end;
    hide Live, Tiles;
    var r := Recut(l, k, n, h);
    var x := Item(l[k].start, l[k].start + h + n, true);
    assert r[k] == x;
    RecutLive(l, k, n, h);
    SpliceLive(l, k, k + 1, [x]);
    assert l[k..k + 1] == [l[k]];
    LiveOne(l[k]);
    LiveOutside(l, 0, end, h, k, k + 1);
    ghost var left, right := Live(l[..k]), Live(l[k + 1..]);
    assert l[k] !in left && l[k] !in right;
    assert Live(l) == left + {l[k]} + right && Live(r) == left + {r[k]} + right;
    hide *;
  }

  // ---- all runs ----------------------------------------------------------------------------

  /** What one call of an allocator does to the layout. */
  datatype Op = Alloc(i: nat, size: nat) | Free(i: nat) | Resize(i: nat, size: nat)

  ghost predicate Enabled(l: seq<Item>, op: Op, h: nat) {
    match op
    case Alloc(i, size) => i < |l| && Fits(l[i], size, h)
    case Free(i) => i < |l| && l[i].used
    case Resize(i, size) => i < |l| && l[i].used && l[i].start + h + size + h <= l[MergeHi(l, i) - 1].end
  }

  function Apply(l: seq<Item>, op: Op, h: nat, min: nat): seq<Item>
    requires op.i < |l|
  {
    match op
    case Alloc(i, size) => Take(l, i, size, h, min)
    case Free(i) => Release(l, i)
    case Resize(i, size) => Recut(l, i, size, h)
  }

  /** A run starts with one free item; every call is one the heap can serve. */
  ghost predicate IsRun(ls: seq<seq<Item>>, ops: seq<Op>, lo: nat, hi: nat, h: nat, min: nat) {
    && |ls| == |ops| + 1 && ls[0] == [Item(lo, hi, false)]
    && forall a, b :: 0 <= a < |ops| && b == a + 1 ==> Enabled(ls[a], ops[a], h) && ls[b] == Apply(ls[a], ops[a], h, min)
  }

  lemma StepKeeps(l: seq<Item>, op: Op, lo: nat, hi: nat, h: nat, min: nat)
    requires Tiles(l, lo, hi, h) && Coalesced(l) && Enabled(l, op, h)
    ensures Tiles(Apply(l, op, h, min), lo, hi, h) && Coalesced(Apply(l, op, h, min))
  {
    hide Tiles, Coalesced, Take, Release, Recut;
    match op
    case Alloc(i, size) => TakeKeeps(l, lo, hi, h, i, size, min);
    case Free(i) =>
      assert CoalescedBut(l, i) by { CoalescedWeakens(l, i); }
      ReleaseKeeps(l, lo, hi, h, i);
    case Resize(i, size) => RecutKeeps(l, lo, hi, h, i, size);
  }

  lemma CoalescedWeakens(l: seq<Item>, k: int)
    requires Coalesced(l)
    ensures CoalescedBut(l, k)
  {}

  /** Every heap that any run reaches is a coalesced tiling of the whole range. */
  lemma {:induction false} RunKeeps(ls: seq<seq<Item>>, ops: seq<Op>, lo: nat, hi: nat, h: nat, min: nat, k: nat)
    requires IsRun(ls, ops, lo, hi, h, min) && lo + h <= hi && k < |ls|
    ensures Tiles(ls[k], lo, hi, h) && Coalesced(ls[k])
  {
    hide Tiles, Coalesced, Apply;
    if k == 0 {
      WholeKeeps(lo, hi, h);
    } else {
      var i := k - 1;
      RunKeeps(ls, ops, lo, hi, h, min, i);
      assert Enabled(ls[i], ops[i], h) && ls[k] == Apply(ls[i], ops[i], h, min);
      StepKeeps(ls[i], ops[i], lo, hi, h, min);
    }
  }

  lemma WholeKeeps(lo: nat, hi: nat, h: nat)
    requires lo + h <= hi
    ensures Tiles([Item(lo, hi, false)], lo, hi, h) && Coalesced([Item(lo, hi, false)])
  {}

  /** The layout does not remember history: two runs that leave the same blocks live leave the same heap. */
  lemma HistoryIndependent(ls: seq<seq<Item>>, ops: seq<Op>, ms: seq<seq<Item>>, mops: seq<Op>, lo: nat, hi: nat, h: nat, min: nat)
    requires IsRun(ls, ops, lo, hi, h, min) && IsRun(ms, mops, lo, hi, h, min) && h > 0 && lo + h <= hi
    requires Live(ls[|ops|]) == Live(ms[|mops|])
    ensures ls[|ops|] == ms[|mops|]
  {
    RunKeeps(ls, ops, lo, hi, h, min, |ops|);
    RunKeeps(ms, mops, lo, hi, h, min, |mops|);
    hide Tiles, Coalesced, Live;
    LayoutUnique(ls[|ops|], ms[|mops|], lo, hi, h);
  }

  // ---- bytes in use over a run -----------------------------------------------------------------

  /** What an allocation adds to the totals. */
  lemma TakeTotals(l: seq<Item>, i: nat, size: nat, h: nat, min: nat)
    requires i < |l| && Fits(l[i], size, h)
    ensures var r := Take(l, i, size, h, min);
      i < |r| && UsedBytes(r) == UsedBytes(l) + (r[i].end - r[i].start) && FreeBytes(r, h) <= FreeBytes(l, h)
  {
    hide UsedBytes, FreeBytes, SplitItems, Take;
    TakeIsSplitAndMark(l, i, size, h, min);
    if l[i].end - l[i].start - h >= size + h + min {
      var cut := l[i].start + h + size;
      SplitSums(l, h, i, cut);
      SplitItemAt(l, i, cut);
      MarkSums(SplitItems(l, i, cut), h, i, true);
    } else {
      MarkSums(l, h, i, true);
    }
  }

  /** Payload of item `i`, if it is there and free, and nothing otherwise. */
  function FreePayload(l: seq<Item>, i: int, h: nat): int {
    if 0 <= i < |l| && !l[i].used then l[i].end - l[i].start - h else 0
  }

  /** The totals of an item and its free neighbours. */
  lemma RangeTotals(l: seq<Item>, i: nat, a: nat, b: nat, h: nat)
    requires i < |l| && a == MergeLo(l, i) && b == MergeHi(l, i) && l[i].used
    ensures UsedBytes(l[a..b]) == l[i].end - l[i].start
    ensures FreeBytes(l[a..b], h) == (if a < i then FreePayload(l, i - 1, h) else 0) + (if b > i + 1 then FreePayload(l, i + 1, h) else 0)
    ensures UsedBytes(l[i..b]) == l[i].end - l[i].start
    ensures FreeBytes(l[i..b], h) == if b > i + 1 then FreePayload(l, i + 1, h) else 0
  {
    var front, back := l[a..i], l[i + 1..b];
    assert l[i..b] == [l[i]] + back;
    assert l[a..b] == front + l[i..b];
    assert a < i ==> front == [l[i - 1]];
    assert a == i ==> front == [];
    assert b > i + 1 ==> back == [l[i + 1]];
    assert b == i + 1 ==> back == [];
    UsedConcat(front, l[i..b]);
    UsedConcat([l[i]], back);
    FreeConcat(front, l[i..b], h);
    FreeConcat([l[i]], back, h);
    SumOne(l[i], h);
    if a < i { SumOne(l[i - 1], h); }
    if b > i + 1 { SumOne(l[i + 1], h); }
  }

  /** What a free takes from the totals. */
  lemma ReleaseTotals(l: seq<Item>, lo: nat, hi: nat, h: nat, i: nat)
    requires Tiles(l, lo, hi, h) && i < |l| && l[i].used
    ensures UsedBytes(Release(l, i)) == UsedBytes(l) - (l[i].end - l[i].start) && FreeBytes(Release(l, i), h) >= FreeBytes(l, h)
  {
    hide UsedBytes, FreeBytes, Splice;
    var a, b := MergeLo(l, i), MergeHi(l, i);
    var x := Item(l[a].start, l[b - 1].end, false);
    SpliceSums(l, a, b, [x], h);
    SumOne(x, h);
    RangeTotals(l, i, a, b, h);
    assert a < i ==> l[a].end == l[i].start;
    assert b > i + 1 ==> l[i].end == l[i + 1].start;
  }

  /** What a resize in place does to the totals. */
  lemma RecutTotals(l: seq<Item>, lo: nat, hi: nat, h: nat, i: nat, size: nat)
    requires Tiles(l, lo, hi, h) && i < |l| && l[i].used
    ensures UsedBytes(Recut(l, i, size, h)) == UsedBytes(l) + (l[i].start + h + size - l[i].end)
    ensures FreeBytes(Recut(l, i, size, h), h) ==
      FreeBytes(l, h) + (l[i].end - (l[i].start + h + size)) - (if MergeHi(l, i) == i + 1 then h else 0)
  {
    hide UsedBytes, FreeBytes, Splice;
    var b := MergeHi(l, i);
    var cut := l[i].start + h + size;
    var x, y := Item(l[i].start, cut, true), Item(cut, l[b - 1].end, false);
    SpliceSums(l, i, b, [x, y], h);
    SumTwo(x, y, h);
    SumOne(x, h);
    SumOne(y, h);
    RangeTotals(l, i, MergeLo(l, i), b, h);
    assert b > i + 1 ==> l[i].end == l[i + 1].start;
  }

  /** A call grows the block it resizes. */
  ghost predicate Grows(l: seq<Item>, op: Op, h: nat)
    requires op.i < |l|
  {
    op.Resize? && l[op.i].start + h + op.size > l[op.i].end
  }

  /**
   The books of an allocator: `max` follows the bytes in use at every allocation and at every growth
   in place, and is left alone otherwise.  A realloc that moves a block is an allocation and a free.
   */
  ghost predicate BooksKept(ls: seq<seq<Item>>, ops: seq<Op>, us: seq<int>, ms: seq<int>, h: nat) {
    && |ls| == |us| == |ms| == |ops| + 1 && ms[0] == us[0]
    && forall a, b :: 0 <= a < |ops| && b == a + 1 ==>
      ops[a].i < |ls[a]| && ms[b] == if ops[a].Alloc? || Grows(ls[a], ops[a], h) then Peak(ms[a], us[b]) else ms[a]
  }

  /** Whether bytes in use are counted with the headers of used blocks (mem.c) or as what is not free payload (memheap.c). */
  function InUse(l: seq<Item>, pool: nat, h: nat, small: bool): int {
    if small then UsedBytes(l) else pool - FreeBytes(l, h)
  }

  /** The recorded maximum is the running peak of the bytes in use over every run, moving reallocs included. */
  lemma MaxIsPeak(ls: seq<seq<Item>>, ops: seq<Op>, us: seq<int>, ms: seq<int>, lo: nat, hi: nat, h: nat, min: nat, pool: nat, small: bool, k: nat)
    requires IsRun(ls, ops, lo, hi, h, min) && lo + h <= hi && BooksKept(ls, ops, us, ms, h) && k < |us|
    requires forall j :: 0 <= j < |us| ==> us[j] == InUse(ls[j], pool, h, small)
    ensures IsPeak(us, k, ms[k])
  {
    forall a, b | 0 <= a && b == a + 1 && b < |us|
      ensures Accounted(ms[a], us[a], ms[b], us[b])
    {
      RunKeeps(ls, ops, lo, hi, h, min, a);
      assert Enabled(ls[a], ops[a], h) && ls[b] == Apply(ls[a], ops[a], h, min);
      assert us[a] == InUse(ls[a], pool, h, small) && us[b] == InUse(ls[b], pool, h, small);
      assert ms[b] == if ops[a].Alloc? || Grows(ls[a], ops[a], h) then Peak(ms[a], us[b]) else ms[a];
      hide Tiles, Coalesced, IsRun, Release, Recut, UsedBytes, FreeBytes, Take;
      if ops[a].Free? {
        ReleaseTotals(ls[a], lo, hi, h, ops[a].i);
      } else if ops[a].Resize? && !Grows(ls[a], ops[a], h) {
        RecutTotals(ls[a], lo, hi, h, ops[a].i, ops[a].size);
      }
    }
    RunningPeak(us, ms, k);
  }
}
