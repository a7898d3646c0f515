/** The allocator object of memheap.c: a circular block list kept in step with a free list. */
module MemHeap {
  import opened Arith
  import opened Layout
  import opened Peaks
  import opened Ring
  import opened MemHeapChain

  /** RT_MEMHEAP_MINIALLOC */
  const MINIALLOC: nat := 12

  datatype Ptr = NullPtr | To(addr: nat)

  // ---- free references through the elementary steps -------------------------------------

  lemma SplitRefs(l: seq<Item>, k: nat, cut: nat)
    requires k < |l|
    ensures FreeRefs(SplitItems(l, k, cut)) == FreeRefs(l) + {At(cut)}
  {
    hide FreeRefs;
    var x, y := Item(l[k].start, cut, l[k].used), Item(cut, l[k].end, false);
    SpliceRefs(l, k, k + 1, [x, y]);
    assert l[k..k + 1] == [l[k]];
    RefsTwo(x, y);
    RefsOne(x);
    RefsOne(y);
    RefsOne(l[k]);
  }

  lemma AbsorbRefs(l: seq<Item>, t: nat, h: nat, k: nat)
    requires h > 0 && Tiles(l, 0, t, h) && k + 1 < |l| && !l[k + 1].used
    ensures FreeRefs(AbsorbItems(l, k)) == FreeRefs(l) - {At(l[k + 1].start)}
  {
    hide FreeRefs;
    var x := Item(l[k].start, l[k + 1].end, l[k].used);
    SpliceRefs(l, k, k + 2, [x]);
    assert l[k..k + 2] == [l[k], l[k + 1]];
    RefsTwo(l[k], l[k + 1]);
    RefsOne(x);
    RefsOne(l[k]);
    RefsOne(l[k + 1]);
    RefsOutside(l, t, h, k, k + 2);
    assert l[k].start < l[k + 1].start < l[k + 1].end;
  }

  lemma MarkRefs(l: seq<Item>, t: nat, h: nat, k: nat, u: bool)
    requires h > 0 && Tiles(l, 0, t, h) && k < |l|
    ensures FreeRefs(Marked(l, k, u)) == if u then FreeRefs(l) - {At(l[k].start)} else FreeRefs(l) + {At(l[k].start)}
  {
    hide FreeRefs;
    var x := l[k].(used := u);
    assert Marked(l, k, u) == Splice(l, k, k + 1, [x]);
    SpliceRefs(l, k, k + 1, [x]);
    assert l[k..k + 1] == [l[k]];
    RefsOne(x);
    RefsOne(l[k]);
    RefsOutside(l, t, h, k, k + 1);
    assert l[k].start < l[k].end;
  }

  /** A free item is in the free references, and free references are starts of items. */
  lemma RefOf(l: seq<Item>, k: nat)
    requires k < |l|
    ensures !l[k].used ==> At(l[k].start) in FreeRefs(l)
  {}

  lemma ItemOfRef(l: seq<Item>, x: Ref) returns (k: nat)
    requires x in FreeRefs(l)
    ensures k < |l| && !l[k].used && x == At(l[k].start)
  {
    k :| k < |l| && !l[k].used && x == At(l[k].start);
  }

  lemma PositionOf(ring: seq<Ref>, x: Ref) returns (f: nat)
    requires x in Elems(ring)
    ensures f < |ring| && ring[f] == x
  {
    f :| f < |ring| && ring[f] == x;
  }

  /** A used item is not referenced from the free list. */
  lemma UsedNotRef(l: seq<Item>, t: nat, h: nat, k: nat)
    requires h > 0 && Tiles(l, 0, t, h) && k < |l| && l[k].used
    ensures At(l[k].start) !in FreeRefs(l)
  {
    if At(l[k].start) in FreeRefs(l) {
      var j := ItemOfRef(l, At(l[k].start));
      StartInjective(l, 0, t, h, j, k);
    }
  }

  /** A header inside item `k`, behind its own, overlaps no free header. */
  lemma RefsSurvive(l: seq<Item>, ring: seq<Ref>, t: nat, h: nat, k: nat, cut: nat)
    requires h > 0 && Tiles(l, 0, t, h) && k < |l| && l[k].start + h <= cut && cut + h <= l[k].end
    requires Elems(ring) <= FreeRefs(l)
    ensures forall x :: x in ring ==> Survives(x, cut, h)
    ensures At(cut) !in ring
  {
    forall x | x in ring
      ensures Survives(x, cut, h) && x != At(cut)
    {
      var f :| 0 <= f < |ring| && ring[f] == x;
      assert x in Elems(ring);
      var j := ItemOfRef(l, x);
      if j < k { StartsGrow(l, 0, t, h, j, k); }
      if k < j { StartsGrow(l, 0, t, h, k, j); }
    }
  }

  /** The payload size searched for: rounded, and at least MINIALLOC. */
  function Need(x: nat, align: nat, word: nat): nat
    requires align > 0 && word > 0
  {
    if AlignUp(x, align, word) < MINIALLOC then MINIALLOC else AlignUp(x, align, word)
  }

  /** The block at `x` is free and can hold `n` bytes. */
  ghost predicate RefFits(l: seq<Item>, x: Ref, n: nat, h: nat) {
    exists k :: 0 <= k < |l| && x == At(l[k].start) && Fits(l[k], n, h)
  }

  lemma RefFitsItem(l: seq<Item>, t: nat, h: nat, k: nat, n: nat)
    requires h > 0 && Tiles(l, 0, t, h) && k < |l|
    ensures RefFits(l, At(l[k].start), n, h) <==> Fits(l[k], n, h)
  {
    if RefFits(l, At(l[k].start), n, h) {
      var j :| 0 <= j < |l| && At(l[k].start) == At(l[j].start) && Fits(l[j], n, h);
      StartInjective(l, 0, t, h, j, k);
    }
  }

  lemma NoneFits(l: seq<Item>, ring: seq<Ref>, n: nat, h: nat)
    requires Elems(ring) == FreeRefs(l) && forall g :: 0 <= g < |ring| ==> !RefFits(l, ring[g], n, h)
    ensures NoFit(l, n, h)
  {
    forall k | 0 <= k < |l|
      ensures !Fits(l[k], n, h)
    {
      if Fits(l[k], n, h) {
        RefOf(l, k);
        var g := PositionOf(ring, At(l[k].start));
        assert RefFits(l, ring[g], n, h);
      }
    }
  }

  /** The free payload total covers every free item. */
  lemma {:induction false} FreeNonNegative(l: seq<Item>, h: nat)
    requires forall i :: 0 <= i < |l| ==> l[i].start + h <= l[i].end
    ensures FreeBytes(l, h) >= 0
  {
    if l != [] {
      FreeNonNegative(l[1..], h);
    }
  }

  lemma FreeAtLeast(l: seq<Item>, t: nat, h: nat, k: nat)
    requires Tiles(l, 0, t, h) && k < |l| && !l[k].used
    ensures FreeBytes(l, h) >= l[k].end - l[k].start - h
  {
    assert l == l[..k] + ([l[k]] + l[k + 1..]);
    FreeConcat(l[..k], [l[k]] + l[k + 1..], h);
    FreeConcat([l[k]], l[k + 1..], h);
    SumOne(l[k], h);
    FreeNonNegative(l[..k], h);
    FreeNonNegative(l[k + 1..], h);
  }

  /** Used and free bytes, with one header for each free item, add up to the pool. */
  lemma {:induction false} Conservation(l: seq<Item>, lo: nat, hi: nat, h: nat)
    requires Tiles(l, lo, hi, h)
    ensures UsedBytes(l) + FreeBytes(l, h) + h * FreeCount(l) == hi - lo
  {
    var t := l[1..];
    if |l| == 1 {
      assert t == [];
    } else {
      assert forall i :: 0 <= i < |t| ==> t[i] == l[i + 1];
      Conservation(t, l[0].end, hi, h);
    }
    Distribute(h, FreeCount(t));
  }

  function FreeCount(l: seq<Item>): nat {
    if l == [] then 0 else (if l[0].used then 0 else 1) + FreeCount(l[1..])
  }

  lemma Distribute(h: nat, n: nat)
    ensures h * (1 + n) == h + h * n
  {}

  /** Alignment divides the word range and the header; the header holds at least three words. */
  ghost predicate WordOk(h: nat, align: nat, word: nat) {
    0 < align && word % align == 0 && MINIALLOC + align <= word && h % align == 0 && MINIALLOC <= h
  }

  class MemHeap {
    const h: nat                // RT_MEMHEAP_SIZE
    const align: nat            // RT_ALIGN_SIZE
    const word: nat
    const pool: nat             // pool_size
    var blk: Blocks
    var links: Links<Ref>
    var available: nat          // available_size
    var maxUsed: nat            // max_used_size
    ghost var layout: seq<Item>
    ghost var ring: seq<Ref>

    /** Both lists are intact: the block list tiles the pool up to the tailer, the free list is a ring. */
    ghost predicate Linked()
      reads this
    {
      && 0 < h && 2 * h <= pool < word
      && Tiles(layout, 0, pool - h, h)
      && Chained(blk, layout, pool - h)
      && IsRing(links, FreeHeader, ring)
    }

    ghost predicate Valid()
      reads this
    {
      && Linked()
      && WordOk(h, align, word)
      && Coalesced(layout)
      && Elems(ring) == FreeRefs(layout)
      && available == FreeBytes(layout, h)
      && pool - available <= maxUsed
    }

    // ---- relinking --------------------------------------------------------------------

    method SplitBlock(p: nat, cut: nat, ghost k: nat)
      requires Linked() && k < |layout| && layout[k].start == p
      requires p + h <= cut && cut + h <= layout[k].end
      requires forall x :: x in ring ==> Survives(x, cut, h)
      modifies this`blk, this`links, this`layout
      ensures Linked() && layout == SplitItems(old(layout), k, cut)
    {
      hide Tiles, Chained, WasSplit, SplitItems, IsRing;
      ghost var l, m := layout, blk;
      Neighbours(m, l, pool - h, h, k);
      SplitEffect(m, p, cut, h);
      SplitTiles(l, 0, pool - h, h, k, cut);
      DropKeepsRing(links, ring, cut, h);
      links := DropLinks(links, cut, h);
      blk := SplitBlocks(blk, p, cut, h);
      SplitChained(m, blk, l, pool - h, h, k, cut);
      layout := SplitItems(l, k, cut);
    }

    /** The block behind `p` is unlinked from the block list. */
    method Absorb(p: nat, ghost k: nat)
      requires Linked() && k + 1 < |layout| && layout[k].start == p
      modifies this`blk, this`layout
      ensures Linked() && layout == AbsorbItems(old(layout), k)
    {
      hide Tiles, Chained, AbsorbItems, IsRing;
      ghost var l, m := layout, blk;
      Neighbours(m, l, pool - h, h, k);
      AbsorbTiles(l, 0, pool - h, h, k);
      blk := AbsorbBlocks(blk, p);
      AbsorbChained(m, blk, l, pool - h, h, k);
      layout := AbsorbItems(l, k);
    }

    method SetUsed(p: nat, u: bool, ghost k: nat)
      requires Linked() && k < |layout| && layout[k].start == p
      modifies this`blk, this`layout
      ensures Linked() && layout == Marked(old(layout), k, u)
    {
      hide Tiles, Chained, Marked, IsRing;
      MarkChained(blk, layout, pool - h, h, k, u);
      MarkedTiles(layout, 0, pool - h, h, k, u);
      blk := blk[p := blk[p].(used := u)];
      layout := Marked(layout, k, u);
    }

    /** Puts a block at the front of the free list. */
    method PushFree(p: nat)
      requires Linked() && At(p) !in ring
      modifies this`links, this`ring
      ensures Linked() && ring == Inserted(old(ring), 0, At(p))
    {
      hide Tiles, Chained, IsRing;
      InsertAfterIsInsert(links, FreeHeader, ring, 0, At(p));
      links := InsertAfter(links, FreeHeader, At(p));
      ring := Inserted(ring, 0, At(p));
    }

    /** Takes a block out of the free list. */
    method DropFree(p: nat, ghost f: nat)
      requires Linked() && f < |ring| && ring[f] == At(p)
      modifies this`links, this`ring
      ensures Linked() && ring == Removed(old(ring), f)
    {
      hide Tiles, Chained, IsRing;
      UnlinkIsRemove(links, FreeHeader, ring, f);
      links := Unlink(links, At(p));
      ring := Removed(ring, f);
    }

    // ---- allocation -----------------------------------------------------------------------

    /** The search along the free list. */
    method FindFit(size: nat) returns (found: bool, p: nat, ghost f: nat, ghost k: nat)
      requires Valid() && size > 0
      ensures found ==>
        && f < |ring| && k < |layout| && ring[f] == At(p) && layout[k].start == p && Fits(layout[k], size, h)
        && forall g :: 0 <= g < f ==> !RefFits(layout, ring[g], size, h)
      ensures !found ==> NoFit(layout, size, h)
    {
      hide WordOk, Tiles, Chained, Coalesced, IsRing, Elems, FreeRefs, RefFits, NoFit;
      f, k, p := 0, 0, 0;
      var freeSize := 0;
      RingRefs(layout, ring);
      Ring.Around(links, FreeHeader, ring, 0);
      var header := links.next[FreeHeader];
      while header != FreeHeader && freeSize < size
        invariant f <= |ring| && header == NodeAt(FreeHeader, ring, f)
        invariant forall g :: 0 <= g < f ==> !RefFits(layout, ring[g], size, h)
        invariant freeSize >= size ==>
          && f < |ring| && k < |layout| && header == At(layout[k].start) && Fits(layout[k], size, h)
        decreases |ring| - f, freeSize < size
      {
        k := RingItem(layout, ring, links, f);
        Neighbours(blk, layout, pool - h, h, k);
        RefFitsItem(layout, pool - h, h, k, size);
        freeSize := blk[header.addr].next - header.addr - h;
        if freeSize < size {
          Ring.Around(links, FreeHeader, ring, f + 1);
          header := links.next[header];
          f := f + 1;
        }
      }
      if freeSize >= size {
        return true, header.addr, f, k;
      }
      NoneFits(layout, ring, size, h);
      found := false;
    }

    /** Lines 221-300: block `k`, entry `f` of the free list, is taken for `size` bytes. */
    method TakeBlock(p: nat, size: nat, ghost f: nat, ghost k: nat)
      requires Valid() && f < |ring| && k < |layout| && ring[f] == At(p) && layout[k].start == p && Fits(layout[k], size, h)
      modifies this
      ensures Valid()
      ensures layout == Take(old(layout), k, size, h, MINIALLOC)
      ensures maxUsed == Peak(old(maxUsed), pool - available)
    {
      hide WordOk, Tiles, Chained, Coalesced, IsRing, Elems, FreeRefs, SplitItems, Marked, Removed, Inserted, Take;
      ghost var l, t := layout, pool - h;
      Neighbours(blk, l, t, h, k);
      TakeKeeps(l, 0, t, h, k, size, MINIALLOC);
      TakeIsSplitAndMark(l, k, size, h, MINIALLOC);
      FreeAtLeast(l, t, h, k);
      RingDistinct(links, ring);
      ElemsRemoved(ring, f);
      var freeSize := blk[p].next - p - h;
      if freeSize >= size + h + MINIALLOC {
        var new_ := p + size + h;
        RefsSurvive(l, ring, t, h, k, new_);
        SplitBlock(p, new_, k);
        SplitItemAt(l, k, new_);
        SplitRefs(l, k, new_);
        SplitSums(l, h, k, new_);
        DropFree(p, f);
        NotInRemoved(old(ring), f, At(new_));
        PushFree(new_);
        ElemsInserted(Removed(old(ring), f), 0, At(new_));
        available := available - size - h;
      } else {
        available := available - freeSize;
        DropFree(p, f);
      }
      if pool - available > maxUsed {
        maxUsed := pool - available;
      }
      ghost var l1 := layout;
      MarkRefs(l1, t, h, k, true);
      MarkSums(l1, h, k, true);
      SetUsed(p, true, k);
    }

    /** rt_memheap_alloc.  The gate on available_size is strict. */
    method Alloc(request: nat) returns (r: Ptr, ghost f: nat, ghost k: nat)
      requires Valid() && request < word
      modifies this
      ensures Valid()
      ensures var n := Need(request, align, word);
        && (r.NullPtr? <==> Refused(old(layout), old(available), n, h))
        && (r.NullPtr? ==> unchanged(this))
        && (r.To? ==>
          && Chosen(old(layout), old(ring), n, h, f, k) && r.addr == old(layout)[k].start + h
          && layout == Take(old(layout), k, n, h, MINIALLOC))
      ensures r.To? ==> k < |layout| && r.addr == layout[k].start + h && (layout[k].end - r.addr >= request <==> request + align <= word)
      ensures maxUsed == Peak(old(maxUsed), pool - available)
    {
      hide Linked, Coalesced, Elems, FreeRefs, NoFit, RefFits, Take, AlignUp, Tiles;
      f, k := 0, 0;
      ghost var l := layout;
      LinkedConfig();
      var size := Need(request, align, word);
      if size < available {
        var found, p;
        found, p, f, k := FindFit(size);
        if found {
          FitMeansFit(layout, pool - h, h, k, size);
          BlockRoom(l, pool, h, align, word, k, request);
          TakeBlock(p, size, f, k);
          return To(p + h), f, k;
        }
      }
      r := NullPtr;
    }

    // ---- release --------------------------------------------------------------------------

    /** `ptr` is null, or points to the payload of the live block `k`. */
    ghost predicate Owns(ptr: Ptr, k: nat)
      reads this
    {
      ptr.To? ==> k < |layout| && layout[k].used && ptr.addr == layout[k].start + h
    }

    /** Lines 669-681: unlinks the free block behind `p` from both lists. */
    method AbsorbFree(p: nat, ghost k: nat)
      requires Linked() && k + 1 < |layout| && layout[k].start == p && !layout[k + 1].used
      requires At(layout[k + 1].start) in Elems(ring)
      modifies this`blk, this`links, this`layout, this`ring
      ensures Linked() && layout == AbsorbItems(old(layout), k)
      ensures Elems(ring) == Elems(old(ring)) - {At(old(layout)[k + 1].start)}
    {
      hide Tiles, Chained, IsRing, Elems, AbsorbItems, Removed;
      Neighbours(blk, layout, pool - h, h, k);
      var q := blk[p].next;
      ghost var f := PositionOf(ring, At(q));
      RingDistinct(links, ring);
      ElemsRemoved(ring, f);
      Absorb(p, k);
      DropFree(q, f);
    }

    /** Lines 664-682: the free block behind the free block `k` is folded into it. */
    method MergeRight(p: nat, ghost k: nat)
      requires Linked() && k < |layout| && layout[k].start == p && !layout[k].used
      requires Elems(ring) == FreeRefs(layout) || Elems(ring) == FreeRefs(layout) - {At(p)}
      requires available == FreeBytes(layout, h)
      modifies this`blk, this`links, this`layout, this`ring, this`available
      ensures Linked() && layout == MergedRight(old(layout), k) && available == FreeBytes(layout, h) >= old(available)
      ensures At(p) in FreeRefs(layout) && At(p) in FreeRefs(old(layout))
      ensures Elems(ring) == if Elems(old(ring)) == FreeRefs(old(layout)) then FreeRefs(layout) else FreeRefs(layout) - {At(p)}
    {
      hide Tiles, Chained, IsRing, Elems, FreeRefs, AbsorbItems;
      ghost var l, t := layout, pool - h;
      Neighbours(blk, l, t, h, k);
      RefOf(l, k);
      if !blk[blk[p].next].used {
        available := available + h;
        RefOf(l, k + 1);
        AbsorbRefs(l, t, h, k);
        AbsorbSums(l, h, k);
        AbsorbFree(p, k);
      }
    }

    /** Lines 542-572: the free rest `k` of a shrunk block joins a free block behind it and the free list. */
    method JoinRest(cut: nat, ghost k: nat)
      requires Linked() && k < |layout| && layout[k].start == cut && !layout[k].used
      requires Elems(ring) == FreeRefs(layout) - {At(cut)}
      requires available == FreeBytes(layout, h) - (layout[k].end - cut - h)
      modifies this`blk, this`links, this`layout, this`ring, this`available
      ensures Linked() && layout == MergedRight(old(layout), k) && available == FreeBytes(layout, h) >= old(available)
      ensures Elems(ring) == FreeRefs(layout)
    {
      hide Tiles, Chained, IsRing, Elems, FreeRefs, AbsorbItems, Inserted;
      ghost var l, t := layout, pool - h;
      Neighbours(blk, l, t, h, k);
      RefOf(l, k);
      if !blk[blk[cut].next].used {
        FreePairAtLeast(l, t, h, k);
        RefOf(l, k + 1);
        AbsorbRefs(l, t, h, k);
        AbsorbSums(l, h, k);
        AbsorbItemAt(l, k);
        available := available - (blk[blk[cut].next].next - blk[cut].next - h);
        AbsorbFree(cut, k);
      }
      Neighbours(blk, layout, t, h, k);
      RefNotInRing(ring, At(cut));
      ElemsInserted(ring, 0, At(cut));
      PushFree(cut);
      available := available + (blk[cut].next - cut - h);
    }

    /** Lines 640-661: block `k` is marked free and folded into a free block in front of it. */
    method MergeLeft(p: nat, ghost k: nat) returns (header: nat, insert: bool, ghost k2: nat)
      requires Valid() && k < |layout| && layout[k].start == p && layout[k].used
      modifies this`blk, this`layout, this`available
      ensures Linked() && layout == FreeLeft(old(layout), k) && available == FreeBytes(layout, h) >= old(available)
      ensures k2 == MergeLo(old(layout), k) < |layout| && layout[k2].start == header && !layout[k2].used
      ensures Elems(ring) == if insert then FreeRefs(layout) - {At(header)} else FreeRefs(layout)
      ensures insert ==> At(header) in FreeRefs(layout)
    {
      hide WordOk, Tiles, Chained, Coalesced, IsRing, Elems, FreeRefs, Marked, AbsorbItems;
      ghost var l, t := layout, pool - h;
      Neighbours(blk, l, t, h, k);
      ReleaseSteps(l, t, h, k);
      UsedNotRef(l, t, h, k);
      MarkRefs(l, t, h, k, false);
      MarkSums(l, h, k, false);
      MarkedItem(l, k, false);
      SetUsed(p, false, k);
      ghost var l1 := layout;
      Neighbours(blk, l1, t, h, k);
      available := available + (blk[p].next - p - h);
      header, insert, k2 := p, true, k;
      RefOf(l1, k);
      if !blk[blk[p].prev].used {
        available := available + h;
        k2 := k - 1;
        AbsorbRefs(l1, t, h, k2);
        AbsorbSums(l1, h, k2);
        AbsorbItemAt(l1, k2);
        header := blk[p].prev;
        Absorb(header, k2);
        insert := false;
      }
    }

    /** rt_memheap_free of block `k`. */
    method Free(ptr: Ptr, ghost k: nat)
      requires Valid() && Owns(ptr, k)
      modifies this
      ensures Valid()
      ensures ptr.NullPtr? ==> unchanged(this)
      ensures ptr.To? ==> layout == Release(old(layout), k) && maxUsed == old(maxUsed)
    {
      hide WordOk, Tiles, Chained, Coalesced, IsRing, Elems, FreeRefs, AbsorbItems, Release, Inserted, FreeLeft;
      if ptr.NullPtr? {
        return;
      }
      ghost var l, t := layout, pool - h;
      ReleaseSteps(l, t, h, k);
      UsedMeansCoalescedBut(l, k);
      ReleaseKeeps(l, 0, t, h, k);
      var header, insert;
      ghost var k2;
      header, insert, k2 := MergeLeft(ptr.addr - h, k);
      MergeRight(header, k2);
      if insert {
        RefNotInRing(ring, At(header));
        ElemsInserted(ring, 0, At(header));
        PushFree(header);
      }
    }

    // ---- resizing in place ----------------------------------------------------------------

    /** Lines 421-468: block `k`, at `p`, grows to `n` bytes into the free block behind it. */
    method Grow(p: nat, n: nat, ghost k: nat)
      requires Valid() && k + 1 < |layout| && layout[k].start == p && layout[k].used && !layout[k + 1].used
      requires layout[k].end - p - h < n && p + h + n + h <= layout[k + 1].end
      modifies this
      ensures Valid()
      ensures layout == Recut(old(layout), k, n, h)
      ensures available == old(available) - (n - (old(layout)[k].end - p - h))
      ensures maxUsed == Peak(old(maxUsed), pool - available)
    {
      hide WordOk, Tiles, Chained, Coalesced, IsRing, Elems, FreeRefs, AbsorbItems, SplitItems, Recut, Inserted;
      ghost var l, t := layout, pool - h;
      Neighbours(blk, l, t, h, k);
      FreeAtLeast(l, t, h, k + 1);
      RecutKeeps(l, 0, t, h, k, n);
      RecutSteps(l, k, n, h);
      RefOf(l, k + 1);
      AbsorbRefs(l, t, h, k);
      AbsorbSums(l, h, k);
      AbsorbItemAt(l, k);
      available := available - (n - (blk[p].next - p - h));
      if pool - available > maxUsed {
        maxUsed := pool - available;
      }
      AbsorbFree(p, k);
      ghost var l1 := layout;
      var cut := p + h + n;
      RefsSurvive(l1, ring, t, h, k, cut);
      SplitRefs(l1, k, cut);
      SplitSums(l1, h, k, cut);
      SplitBlock(p, cut, k);
      ElemsInserted(ring, 0, At(cut));
      PushFree(cut);
    }

    /** Lines 515-572: block `k`, at `p`, is cut down to `n` bytes; the rest joins a free block behind it. */
    method Shrink(p: nat, n: nat, ghost k: nat)
      requires Valid() && k < |layout| && layout[k].start == p && layout[k].used
      requires p + h + n + h <= layout[k].end
      modifies this
      ensures Valid()
      ensures layout == Recut(old(layout), k, n, h) && maxUsed == old(maxUsed)
    {
      hide WordOk, Tiles, Chained, Coalesced, IsRing, Elems, FreeRefs, AbsorbItems, SplitItems, Recut, Inserted;
      ghost var l, t := layout, pool - h;
      var cut := p + h + n;
      Neighbours(blk, l, t, h, k);
      RecutFits(l, t, h, k, n);
      RecutKeeps(l, 0, t, h, k, n);
      RecutSteps(l, k, n, h);
      RefsSurvive(l, ring, t, h, k, cut);
      SplitItemAt(l, k, cut);
      SplitRefs(l, k, cut);
      SplitSums(l, h, k, cut);
      RefNew(l, ring, cut);
      SplitBlock(p, cut, k);
      JoinRest(cut, k + 1);
    }

    // ---- rt_memheap_realloc ---------------------------------------------------------------

    /** Lines 489-494: a new block for `n` bytes, after which block `k` is freed. */
    method Move(ptr: Ptr, n: nat, ghost k: nat) returns (r: Ptr, ghost k': nat)
      requires Valid() && Owns(ptr, k) && ptr.To? && n < word
      modifies this
      ensures Valid()
      ensures r.NullPtr? <==> Refused(old(layout), old(available), Need(n, align, word), h)
      ensures r.NullPtr? ==> unchanged(this)
      ensures r.To? ==> Resized(h, old(layout), layout, k, k', Need(n, align, word), r.addr)
      ensures r.To? ==>
        MovedThrough(old(layout), old(ring), layout, k, Need(n, align, word), h, pool, old(maxUsed), maxUsed)
    {
      hide Linked, Coalesced, Elems, FreeRefs, NoFit, RefFits, Take, Release, Live, Need, Tiles, MovedAs, Refused, Chosen;
      LinkedConfig();
      ghost var l, g, m := layout, ring, maxUsed;
      LiveItem(l, k);
      k' := 0;
      ghost var f, j;
      r, f, j := Alloc(n);
      if r.To? {
        ghost var l1, m1 := layout, maxUsed;
        LinkedConfig();
        ChosenFits(l, g, Need(n, align, word), h, f, j);
        TakeLive(l, 0, pool - h, h, j, Need(n, align, word), MINIALLOC);
        TakenRoom(l, j, Need(n, align, word), h);
        ghost var k2 := IndexOfLive(l1, l[k]);
        LiveItem(l1, j);
        ReleaseLive(l1, 0, pool - h, h, k2);
        AvailableIs();
        Free(ptr, k2);
        k' := IndexOfLive(layout, l1[j]);
        assert Live(layout) == Live(l) - {l[k]} + {l1[j]};
        MovedIs(l, g, layout, k, Need(n, align, word), h, pool, m, m1, f, j, k2);
      }
    }

    /** Lines 377-581: a live block `k` gets room for `n` bytes, `n` being rounded already. */
    method Resize(ptr: Ptr, n: nat, ghost k: nat) returns (r: Ptr, ghost k': nat)
      requires Valid() && Owns(ptr, k) && ptr.To? && n < word && Need(n, align, word) >= n
      requires !GrowsWithoutRoom(layout, k, n, h, word)
      modifies this
      ensures Valid()
      ensures r.NullPtr? ==> unchanged(this)
      ensures r.NullPtr? <==> Refused(old(layout), old(available), Need(n, align, word), h) && MustMove(old(layout), k, n, h, word)
      ensures r.To? ==> Resized(h, old(layout), layout, k, k', n, r.addr)
      ensures r.To? ==> ResizedAs(old(layout), old(ring), layout, k, n, align, word, h, pool, old(maxUsed), maxUsed)
      ensures !MustMove(old(layout), k, n, h, word) ==> r == ptr
    {
      hide Tiles, Chained, Coalesced, IsRing, Elems, FreeRefs, FreeBytes, Release, Live, Need, Resized, Recut, Refused, MovedThrough, GrowTest;
      k' := k;
      ghost var l, t := layout, pool - h;
      var p := ptr.addr - h;
      Neighbours(blk, l, t, h, k);
      var oldSize := blk[p].next - p - h;
      if n > oldSize {
        GrowTestIs(l, k, n, h, word);
        var next := blk[p].next;
        if !blk[next].used {
          var nextSize := blk[next].next - next - h;
          if nextSize + oldSize > (n + MINIALLOC) % word {
            RecutResized(l, t, h, k, n);
            Grow(p, n, k);
            return ptr, k;
          }
        }
        r, k' := Move(ptr, n, k);
        if r.To? { ResizedLess(h, l, layout, k, k', Need(n, align, word), n, r.addr); }
        return;
      }
      if n + h + MINIALLOC >= oldSize {
        StayResized(l, h, k, n);
        return ptr, k;
      }
      RecutResized(l, t, h, k, n);
      Shrink(p, n, k);
      return ptr, k;
    }

    /** rt_memheap_realloc.  `k` is the block at `ptr`, `k'` the block at the result. */
    method Realloc(ptr: Ptr, request: nat, ghost k: nat) returns (r: Ptr, ghost k': nat)
      requires Valid() && Owns(ptr, k) && request < word
      requires ptr.To? ==> !GrowsWithoutRoom(layout, k, Need(request, align, word), h, word)
      modifies this
      ensures Valid()
      ensures request == 0 ==> r.NullPtr? && maxUsed == old(maxUsed)
      ensures request == 0 ==> if ptr.To? then layout == Release(old(layout), k) else unchanged(this)
      ensures request > 0 && r.NullPtr? ==> unchanged(this)
      ensures request > 0 ==>
        (r.NullPtr? <==>
          && Refused(old(layout), old(available), Need(Need(request, align, word), align, word), h)
          && (ptr.To? ==> MustMove(old(layout), k, Need(request, align, word), h, word)))
      ensures request > 0 && ptr.NullPtr? && r.To? ==>
        && AllocatedAs(old(layout), old(ring), layout, Need(Need(request, align, word), align, word), h, k')
        && r.addr == old(layout)[k'].start + h && maxUsed == Peak(old(maxUsed), pool - available)
      ensures ptr.To? && r.To? ==>
        && Resized(h, old(layout), layout, k, k', Need(request, align, word), r.addr)
        && ResizedAs(old(layout), old(ring), layout, k, Need(request, align, word), align, word, h, pool, old(maxUsed), maxUsed)
        && (!MustMove(old(layout), k, Need(request, align, word), h, word) ==> r == ptr)
      ensures r.To? ==> k' < |layout| && r.addr == layout[k'].start + h && (layout[k'].end - r.addr >= request <==> request + align <= word)
    {
      hide Linked, Coalesced, Elems, FreeRefs, FreeBytes, Release, Need, Resized, ResizedAs, Refused, Chosen, Take, GrowTest, MustMove, Tiles,
        AllocatedAs, AlignUp;
      k' := k;
      if request == 0 {
        Free(ptr, k);
        return NullPtr, k;
      }
      ghost var l, g := layout, ring;
      var n := Need(request, align, word);
      NeedGrows(request, align, word);
      if ptr.NullPtr? {
        ghost var f;
        r, f, k' := Alloc(n);
        if r.To? {
          ChosenFits(l, g, Need(n, align, word), h, f, k');
          AllocatedIs(l, g, layout, Need(n, align, word), h, f, k');
          assert layout[k'].end - r.addr >= n;
          LinkedConfig();
          ResultRoom(layout, pool, h, align, word, k', request);
        }
      } else {
        r, k' := Resize(ptr, n, k);
        if r.To? {
          RoomOfResized(h, l, layout, k, k', n, r.addr);
          LinkedConfig();
          ResultRoom(layout, pool, h, align, word, k', request);
        }
      }
    }

    /** An application store into [a, b), inside the payload of its own block `k`. */
    method Scribble(a: nat, b: nat, ghost k: nat)
      requires Valid() && k < |layout| && layout[k].used && layout[k].start + h <= a <= b <= layout[k].end
      modifies this`blk, this`links
      ensures Valid()
    {
      hide WordOk, Coalesced, FreeBytes;
      ScrubKeeps(blk, links, layout, ring, pool - h, h, k, a, b);
      blk := ScrubBlocks(blk, a, b, h);
      links := ScrubLinks(links, a, b, h);
    }

    /** rt_memheap_init: one free block, then the used tailer. */
    constructor (h: nat, align: nat, word: nat, size: nat)
      requires WordOk(h, align, word) && size < word && 2 * h <= size / align * align
      ensures Valid()
      ensures layout == [Item(0, size / align * align - h, false)] && available == pool - 2 * h && maxUsed == 2 * h
      ensures this.h == h && this.align == align && this.word == word && pool == size / align * align
    {
      this.h := h;
      this.align := align;
      this.word := word;
      RoundDown(size, align);
      var pool := size / align * align;
      this.pool := pool;
      available := pool - 2 * h;
      maxUsed := pool - (pool - 2 * h);
      var t := pool - h;
      blk := map[0 := Block(false, t, t), t := Block(true, 0, 0)];
      links := Links(map[FreeHeader := At(0), At(0) := FreeHeader], map[FreeHeader := At(0), At(0) := FreeHeader]);
      layout := [Item(0, t, false)];
      ring := [At(0)];
      new;
      assert Elems(ring) == {At(0)} by { assert ring[0] in Elems(ring); }
      RefsOne(layout[0]);
      SumOne(layout[0], h);
    }

    lemma AvailableIs()
      requires Valid()
      ensures available == FreeBytes(layout, h)
    {}

    lemma LinkedConfig()
      requires Linked()
      ensures 0 < h && 2 * h <= pool < word
      ensures Tiles(layout, 0, pool - h, h)
    {}
  }

  /** Something that fits is not nothing that fits. */
  lemma FitMeansFit(l: seq<Item>, t: nat, h: nat, k: nat, n: nat)
    requires k < |l| && Fits(l[k], n, h)
    ensures !NoFit(l, n, h)
  {}

  lemma RingItem(l: seq<Item>, ring: seq<Ref>, links: Links<Ref>, f: nat) returns (k: nat)
    requires Elems(ring) == FreeRefs(l) && f < |ring|
    ensures k < |l| && !l[k].used && ring[f] == At(l[k].start)
  {
    assert ring[f] in Elems(ring);
    k := ItemOfRef(l, ring[f]);
  }

  lemma RingRefs(l: seq<Item>, ring: seq<Ref>)
    requires Elems(ring) == FreeRefs(l)
    ensures forall g :: 0 <= g < |ring| ==> ring[g].At?
  {
    forall g | 0 <= g < |ring|
      ensures ring[g].At?
    {
      assert ring[g] in Elems(ring);
      var k := ItemOfRef(l, ring[g]);
    }
  }

  lemma RingDistinct(links: Links<Ref>, ring: seq<Ref>)
    requires IsRing(links, FreeHeader, ring)
    ensures Distinct(ring)
  {}

  lemma NotInRemoved(ring: seq<Ref>, f: nat, x: Ref)
    requires f < |ring| && x !in ring
    ensures x !in Removed(ring, f)
  {}

  lemma RefNotInRing(ring: seq<Ref>, x: Ref)
    requires x !in Elems(ring)
    ensures x !in ring
  {}

  lemma UsedMeansCoalescedBut(l: seq<Item>, k: nat)
    requires Coalesced(l)
    ensures CoalescedBut(l, k)
  {}

  lemma FreePairAtLeast(l: seq<Item>, t: nat, h: nat, k: nat)
    requires h > 0 && Tiles(l, 0, t, h) && k + 1 < |l| && !l[k].used && !l[k + 1].used
    ensures FreeBytes(l, h) >= (l[k].end - l[k].start - h) + (l[k + 1].end - l[k + 1].start - h)
  {
    AbsorbTiles(l, 0, t, h, k);
    AbsorbSums(l, h, k);
    AbsorbItemAt(l, k);
    FreeAtLeast(AbsorbItems(l, k), t, h, k);
    assert l[k].end == l[k + 1].start;
  }

  /** Item `k` with the free item behind it folded in. */
  function MergedRight(l: seq<Item>, k: nat): seq<Item>
    requires k < |l|
  {
    if k + 1 < |l| && !l[k + 1].used then AbsorbItems(l, k) else l
  }

  /** rt_memheap_free marks, then merges with the block in front, then with the block behind. */
  function FreeLeft(l: seq<Item>, k: nat): seq<Item>
    requires k < |l|
  {
    var l1 := Marked(l, k, false);
    if k > 0 && !l[k - 1].used then AbsorbItems(l1, k - 1) else l1
  }

  lemma ReleaseSteps(l: seq<Item>, t: nat, h: nat, k: nat)
    requires h > 0 && Tiles(l, 0, t, h) && k < |l| && l[k].used
    ensures var k2 := MergeLo(l, k); var l2 := FreeLeft(l, k);
      && k2 < |l2| && (k2 + 1 < |l2| <==> k + 1 < |l|)
      && (k + 1 < |l| ==> l2[k2 + 1] == l[k + 1])
      && Release(l, k) == if k2 + 1 < |l2| && !l2[k2 + 1].used then AbsorbItems(l2, k2) else l2
    ensures k > 0 ==> Marked(l, k, false)[k - 1] == l[k - 1]
    ensures k + 1 < |l| ==> Marked(l, k, false)[k + 1] == l[k + 1]
  {
    hide Tiles;
    FreeLeftIs(l, k);
    var k2, l2 := MergeLo(l, k), FreeLeft(l, k);
    var x := Item(l[k2].start, l[k].end, false);
    if MergeHi(l, k) == k + 2 {
      AbsorbAfter(l[..k2], x, l[k + 1], l[k + 2..]);
      assert l[k + 1..] == [l[k + 1]] + l[k + 2..];
    }
  }

  lemma FreeLeftIs(l: seq<Item>, k: nat)
    requires k < |l| && l[k].used
    ensures var k2 := MergeLo(l, k);
      var x := Item(l[k2].start, l[k].end, false);
      && FreeLeft(l, k) == l[..k2] + [x] + l[k + 1..]
      && |FreeLeft(l, k)| == k2 + |l| - k && (k + 1 < |l| ==> FreeLeft(l, k)[k2 + 1] == l[k + 1])
  {
    var l1 := Marked(l, k, false);
    assert l1[k + 1..] == l[k + 1..];
    if k > 0 && !l[k - 1].used {
      var j := k - 1;
      assert l1[..j] == l[..j];
    } else {
      assert l1 == l[..k] + [l1[k]] + l[k + 1..];
    }
  }

  lemma AbsorbAfter(a: seq<Item>, x: Item, y: Item, b: seq<Item>)
    ensures var l := a + [x] + ([y] + b);
      |a| + 1 < |l| && AbsorbItems(l, |a|) == a + [Item(x.start, y.end, x.used)] + b
  {
    var l := a + [x] + ([y] + b);
    assert l[..|a|] == a && l[|a| + 2..] == b;
  }

  lemma RefNew(l: seq<Item>, ring: seq<Ref>, cut: nat)
    requires Elems(ring) == FreeRefs(l) && At(cut) !in ring
    ensures At(cut) !in FreeRefs(l)
  {
    if At(cut) in FreeRefs(l) {
      var f := PositionOf(ring, At(cut));
      assert false;
    }
  }

  lemma RecutFits(l: seq<Item>, t: nat, h: nat, k: nat, n: nat)
    requires h > 0 && Tiles(l, 0, t, h) && k < |l| && l[k].start + h + n + h <= l[k].end
    ensures l[k].start + h + n + h <= l[MergeHi(l, k) - 1].end
  {
    if MergeHi(l, k) == k + 2 { assert l[k].end == l[k + 1].start; }
  }

  /** Both ways of moving the boundary behind block `k` come to the same layout. */
  lemma RecutSteps(l: seq<Item>, k: nat, n: nat, h: nat)
    requires k < |l| && l[k].used
    ensures k + 1 < |l| && !l[k + 1].used ==>
      && k < |AbsorbItems(l, k)|
      && Recut(l, k, n, h) == SplitItems(AbsorbItems(l, k), k, l[k].start + h + n)
    ensures var s := SplitItems(l, k, l[k].start + h + n);
      && k + 1 < |s| && (k + 2 < |s| <==> k + 1 < |l|) && (k + 1 < |l| ==> s[k + 2] == l[k + 1])
      && Recut(l, k, n, h) == if k + 2 < |s| && !s[k + 2].used then AbsorbItems(s, k + 1) else s
    ensures |Recut(l, k, n, h)| > k + 1 && Recut(l, k, n, h)[k + 1] == Item(l[k].start + h + n, l[MergeHi(l, k) - 1].end, false)
  {
    var cut := l[k].start + h + n;
    var s := SplitItems(l, k, cut);
    var x := Item(l[k].start, cut, true);
    var b := MergeHi(l, k);
    var z := Item(cut, l[b - 1].end, false);
    assert Recut(l, k, n, h) == l[..k] + [x, z] + l[b..];
    assert s == l[..k] + [x, Item(cut, l[k].end, false)] + l[k + 1..];
    if b == k + 2 {
      assert s[..k + 1] == l[..k] + [x] && s[k + 3..] == l[k + 2..];
      assert AbsorbItems(s, k + 1) == s[..k + 1] + [z] + s[k + 3..];
      assert AbsorbItems(s, k + 1) == l[..k] + [x, z] + l[b..];
      var a := AbsorbItems(l, k);
      assert a[..k] == l[..k] && a[k + 1..] == l[k + 2..];
      assert SplitItems(a, k, cut) == l[..k] + [x, z] + l[b..];
    }
  }

  /** Block `k` of `l` has become block `k'` of `l'`, at `addr`, with room for `n` bytes; no other block has changed. */
  ghost predicate Resized(h: nat, l: seq<Item>, l': seq<Item>, k: nat, k': nat, n: nat, addr: nat) {
    && k < |l| && k' < |l'| && l'[k'].used && l'[k'].start + h == addr && l'[k'].end - addr >= n
    && Live(l') == Live(l) - {l[k]} + {l'[k']}
  }

  /** The gate on available_size is strict, and without a fitting block the search fails. */
  ghost predicate Refused(l: seq<Item>, available: int, n: nat, h: nat) {
    n >= available || NoFit(l, n, h)
  }

  /** Block `k` is the first one along the free list that can hold `n` bytes; it is entry `f`. */
  ghost predicate Chosen(l: seq<Item>, ring: seq<Ref>, n: nat, h: nat, f: nat, k: nat) {
    && f < |ring| && k < |l| && ring[f] == At(l[k].start) && Fits(l[k], n, h)
    && forall g :: 0 <= g < f ==> !RefFits(l, ring[g], n, h)
  }

  lemma ChosenFits(l: seq<Item>, ring: seq<Ref>, n: nat, h: nat, f: nat, k: nat)
    requires Chosen(l, ring, n, h, f, k)
    ensures k < |l| && Fits(l[k], n, h)
  {}

  /** `l'` is `l` with the chosen block taken. */
  ghost predicate AllocatedAs(l: seq<Item>, ring: seq<Ref>, l': seq<Item>, n: nat, h: nat, k: nat) {
    k < |l| && l' == Take(l, k, n, h, MINIALLOC) && exists f :: Chosen(l, ring, n, h, f, k)
  }

  lemma AllocatedIs(l: seq<Item>, ring: seq<Ref>, l': seq<Item>, n: nat, h: nat, f: nat, k: nat)
    requires Chosen(l, ring, n, h, f, k) && k < |l| && l' == Take(l, k, n, h, MINIALLOC)
    ensures AllocatedAs(l, ring, l', n, h, k)
  {}

  /** Block `j` was taken for `n` bytes, then the old block was released; the maximum saw both in use. */
  ghost predicate MovedAs(l: seq<Item>, ring: seq<Ref>, l': seq<Item>, k: nat, n: nat, h: nat, pool: nat, m: int, m': int, f: nat, j: nat, i: nat) {
    && k < |l| && j < |l| && Chosen(l, ring, n, h, f, j)
    && var t := Take(l, j, n, h, MINIALLOC);
      i < |t| && t[i] == l[k] && l' == Release(t, i) && m' == Peak(m, pool - FreeBytes(t, h))
  }

  ghost predicate MovedThrough(l: seq<Item>, ring: seq<Ref>, l': seq<Item>, k: nat, n: nat, h: nat, pool: nat, m: int, m': int) {
    exists f, j, i :: MovedAs(l, ring, l', k, n, h, pool, m, m', f, j, i)
  }

  lemma MovedIs(l: seq<Item>, ring: seq<Ref>, l': seq<Item>, k: nat, n: nat, h: nat, pool: nat, m: int, m': int, f: nat, j: nat, i: nat)
    requires k < |l| && j < |l| && Chosen(l, ring, n, h, f, j)
    requires var t := Take(l, j, n, h, MINIALLOC);
      i < |t| && t[i] == l[k] && l' == Release(t, i) && m' == Peak(m, pool - FreeBytes(t, h))
    ensures MovedThrough(l, ring, l', k, n, h, pool, m, m')
  {
    assert MovedAs(l, ring, l', k, n, h, pool, m, m', f, j, i);
  }

  /** A moving realloc is an allocation and a free in a run, with the maximum taken in between. */
  lemma MoveIsAllocThenFree(l: seq<Item>, ring: seq<Ref>, l': seq<Item>, k: nat, n: nat, h: nat, pool: nat, m: int, m': int, f: nat, j: nat, i: nat)
    requires k < |l| && l[k].used && MovedAs(l, ring, l', k, n, h, pool, m, m', f, j, i)
    ensures var a := Op.Alloc(j, n);
      && Enabled(l, a, h)
      && var t := Apply(l, a, h, MINIALLOC);
        && Enabled(t, Op.Free(i), h) && l' == Apply(t, Op.Free(i), h, MINIALLOC)
        && m' == Peak(m, InUse(t, pool, h, false))
  {
    hide Take, Release, FreeBytes;
  }

  /** What a successful realloc of block `k` to `n` bytes does to the layout and to the maximum. */
  ghost predicate ResizedAs(l: seq<Item>, ring: seq<Ref>, l': seq<Item>, k: nat, n: nat, align: nat, word: nat, h: nat, pool: nat, m: int, m': int)
    requires align > 0 && word > 0
  {
    && k < |l|
    && if n > Payload(l, k, h) then
        if GrowTest(l, k, n, h, word) then l' == Recut(l, k, n, h) && m' == Peak(m, pool - FreeBytes(l', h))
        else MovedThrough(l, ring, l', k, Need(n, align, word), h, pool, m, m')
      else if n + h + MINIALLOC >= Payload(l, k, h) then l' == l && m' == m
      else l' == Recut(l, k, n, h) && m' == m
  }

  function Payload(l: seq<Item>, k: nat, h: nat): int
    requires k < |l|
  {
    l[k].end - l[k].start - h
  }

  /** Line 421, on unsigned words: the block behind is free and the test for growing in place succeeds. */
  predicate GrowTest(l: seq<Item>, k: nat, n: nat, h: nat, word: nat)
    requires word > 0
  {
    k + 1 < |l| && !l[k + 1].used && (n + MINIALLOC) % word < Payload(l, k, h) + Payload(l, k + 1, h)
  }

  /** The larger size cannot be had in place. */
  predicate MustMove(l: seq<Item>, k: nat, n: nat, h: nat, word: nat)
    requires word > 0 && k < |l|
  {
    n > Payload(l, k, h) && !GrowTest(l, k, n, h, word)
  }

  /** The test succeeds although the two blocks together are too small. */
  predicate GrowsWithoutRoom(l: seq<Item>, k: nat, n: nat, h: nat, word: nat)
    requires word > 0
  {
    && k < |l| && n > Payload(l, k, h) && GrowTest(l, k, n, h, word)
    && n + MINIALLOC >= Payload(l, k, h) + Payload(l, k + 1, h)
  }

  /** Without such a success the test says what it should. */
  lemma GrowTestIs(l: seq<Item>, k: nat, n: nat, h: nat, word: nat)
    requires word > 0 && k < |l| && n > Payload(l, k, h) && !GrowsWithoutRoom(l, k, n, h, word)
    ensures GrowTest(l, k, n, h, word) ==> n + MINIALLOC < Payload(l, k, h) + Payload(l, k + 1, h)
    ensures GrowTest(l, k, n, h, word) <==>
      k + 1 < |l| && !l[k + 1].used && (n + MINIALLOC) % word < Payload(l, k, h) + Payload(l, k + 1, h)
  {}

  /**
   The unsigned test of line 421 takes the grow branch without room exactly when adding MINIALLOC to
   the size wraps around, the next block is free, and the wrapped sum is below the two payloads.
   For every other size the branch is taken exactly when more than MINIALLOC bytes remain.
   */
  lemma GrowTestIsSound(l: seq<Item>, t: nat, h: nat, k: nat, n: nat, word: nat)
    requires h > 0 && Tiles(l, 0, t, h) && k < |l| && l[k].used && t < word && MINIALLOC < word && n < word && n > Payload(l, k, h)
    ensures GrowsWithoutRoom(l, k, n, h, word) <==>
      && n > word - 1 - MINIALLOC && k + 1 < |l| && !l[k + 1].used
      && n + MINIALLOC - word < Payload(l, k, h) + Payload(l, k + 1, h)
    ensures !GrowsWithoutRoom(l, k, n, h, word) ==>
      (GrowTest(l, k, n, h, word) <==>
        k + 1 < |l| && !l[k + 1].used && n + MINIALLOC < Payload(l, k, h) + Payload(l, k + 1, h))
  {
    if k + 1 < |l| {
      PayloadsInPool(l, t, h, k);
      hide Tiles, Payload;
      WrappedSum(n, word, Payload(l, k, h) + Payload(l, k + 1, h));
    }
  }

  lemma PayloadsInPool(l: seq<Item>, t: nat, h: nat, k: nat)
    requires h > 0 && Tiles(l, 0, t, h) && k + 1 < |l|
    ensures 0 <= Payload(l, k, h) && 0 <= Payload(l, k + 1, h) && Payload(l, k, h) + Payload(l, k + 1, h) < t
  {
    InRange(l, 0, t, h, k);
    InRange(l, 0, t, h, k + 1);
    assert l[k].end == l[k + 1].start;
  }

  /** Comparing a wrapped sum with a room of less than a word. */
  lemma WrappedSum(n: nat, word: nat, room: nat)
    requires MINIALLOC < word && n < word && room < word
    ensures n + MINIALLOC < word ==> (n + MINIALLOC) % word == n + MINIALLOC
    ensures n + MINIALLOC >= word ==> (n + MINIALLOC) % word == n + MINIALLOC - word && n + MINIALLOC >= room
  {
    if n + MINIALLOC < word {
      DivUnique(n + MINIALLOC, word, 0, n + MINIALLOC);
    } else {
      DivUnique(n + MINIALLOC, word, 1, n + MINIALLOC - word);
    }
  }

  /** In that case the header of the rest is written at `ptr + n`, which wraps to a place inside the block's own header. */
  lemma GrowOverwritesHeader(l: seq<Item>, t: nat, h: nat, k: nat, n: nat, word: nat)
    requires MINIALLOC <= h && Tiles(l, 0, t, h) && k < |l| && l[k].used && t < word && n < word
    requires word > 0 && MINIALLOC < word && GrowsWithoutRoom(l, k, n, h, word)
    ensures var new_ := l[k].start + h + n - word; l[k].start <= new_ < l[k].start + h && !Clear(new_, l[k].start, h)
  {
    GrowTestIsSound(l, t, h, k, n, word);
  }

  /** A 32-bit pool with 8-byte alignment, one block of 40 bytes, and a realloc to 0xFFFFFFF8 bytes. */
  lemma GrowWithoutRoomHappens()
    ensures var l := [Item(0, 64, true), Item(64, 1000, false)];
      && Take([Item(0, 1000, false)], 0, 40, 24, MINIALLOC) == l
      && Need(0xFFFF_FFF8, 8, 0x1_0000_0000) == 0xFFFF_FFF8
      && GrowsWithoutRoom(l, 0, 0xFFFF_FFF8, 24, 0x1_0000_0000)
  {
    AlignUpValue(0xFFFF_FFF8, 0xFFFF_FFF8, 8, 0x1_0000_0000);
    hide AlignUp;
    DivUnique(0xFFFF_FFF8 + MINIALLOC, 0x1_0000_0000, 1, 4);
  }

  /** The strict gate: a fresh pool refuses a request for its whole payload, although the block fits. */
  lemma WholePoolIsRefused(pool: nat, h: nat)
    requires 0 < h && 2 * h <= pool
    ensures var l := [Item(0, pool - h, false)];
      FreeBytes(l, h) == pool - 2 * h && Fits(l[0], pool - 2 * h, h) && Refused(l, FreeBytes(l, h), pool - 2 * h, h)
      && (pool > 2 * h ==> !Refused(l, FreeBytes(l, h), pool - 2 * h - 1, h))
  {
    var l := [Item(0, pool - h, false)];
    SumOne(l[0], h);
    assert pool > 2 * h ==> Fits(l[0], pool - 2 * h - 1, h);
  }

  /** The same in numbers: 1024 bytes with 24-byte headers hold 976 bytes, and 976 are refused. */
  lemma PoolOf1024Refuses976()
    ensures Refused([Item(0, 1000, false)], FreeBytes([Item(0, 1000, false)], 24), 976, 24) && Need(976, 8, 0x1_0000_0000) == 976
  {
    WholePoolIsRefused(1024, 24);
    AlignUpValue(976, 976, 8, 0x1_0000_0000);
    hide AlignUp;
  }

  lemma RoomOfResized(h: nat, l: seq<Item>, l': seq<Item>, k: nat, k': nat, n: nat, addr: nat)
    requires Resized(h, l, l', k, k', n, addr)
    ensures k' < |l'| && l'[k'].start + h == addr && l'[k'].end - addr >= n
  {}

  /** A block with room for the rounded request holds the request exactly when rounding did not wrap around. */
  lemma ResultRoom(l: seq<Item>, pool: nat, h: nat, align: nat, word: nat, k: nat, request: nat)
    requires WordOk(h, align, word) && 2 * h <= pool < word && Tiles(l, 0, pool - h, h) && request < word
    requires k < |l| && l[k].end - (l[k].start + h) >= Need(request, align, word)
    ensures l[k].end - (l[k].start + h) >= request <==> request + align <= word
  {
    hide AlignUp;
    AlignUpIsNextMultiple(request, align, word);
    InRange(l, 0, pool - h, h, k);
    if h < align {
      MultipleBelow(h, 0, align);
      assert false;
    }
  }

  /**
   Rounding that wraps around, on a pool of 1024 bytes with 8-byte alignment: a block for 40 bytes is
   "resized" to 0xFFFFFFFC bytes, and realloc returns it as it is, with room for 40.
   */
  method WrappedRealloc() returns (p: Ptr, q: Ptr, ghost room: int)
    ensures p == To(24) && q == p && room == 40
  {
    hide AlignUp;
    PoolOfEight();
    var heap := new MemHeap(24, 8, 0x1_0000_0000, 1024);
    ghost var f, k, j;
    p, f, k := heap.Alloc(40);
    q, j := heap.Realloc(p, 0xFFFF_FFFC, k);
    room := heap.layout[j].end - q.addr;
  }

  lemma PoolOfEight()
    ensures WordOk(24, 8, 0x1_0000_0000) && 1024 / 8 * 8 == 1024
    ensures Need(40, 8, 0x1_0000_0000) == 40 && Need(0xFFFF_FFFC, 8, 0x1_0000_0000) == MINIALLOC
  {
    AlignUpValue(40, 40, 8, 0x1_0000_0000);
    AlignUpIsNextMultiple(0xFFFF_FFFC, 8, 0x1_0000_0000);
  }

  /** The block that an allocation makes holds the request exactly when rounding the request did not wrap around. */
  lemma BlockRoom(l: seq<Item>, pool: nat, h: nat, align: nat, word: nat, k: nat, request: nat)
    requires WordOk(h, align, word) && 2 * h <= pool < word && Tiles(l, 0, pool - h, h) && request < word
    requires k < |l| && Fits(l[k], Need(request, align, word), h)
    ensures var t := Take(l, k, Need(request, align, word), h, MINIALLOC);
      k < |t| && t[k].start == l[k].start && (t[k].end - (t[k].start + h) >= request <==> request + align <= word)
  {
    hide AlignUp;
    AlignUpIsNextMultiple(request, align, word);
    InRange(l, 0, pool - h, h, k);
    if h < align {
      MultipleBelow(h, 0, align);
      assert false;
    }
  }

  lemma TakenRoom(l: seq<Item>, j: nat, n: nat, h: nat)
    requires j < |l| && Fits(l[j], n, h)
    ensures var r := Take(l, j, n, h, MINIALLOC); j < |r| && r[j].used && r[j].start == l[j].start && r[j].end - r[j].start - h >= n
  {}

  lemma RecutResized(l: seq<Item>, t: nat, h: nat, k: nat, n: nat)
    requires h > 0 && Tiles(l, 0, t, h) && k < |l| && l[k].used
    ensures Resized(h, l, Recut(l, k, n, h), k, k, n, l[k].start + h)
  {
    hide Live, Tiles, Recut;
    RecutMoved(l, t, h, k, n);
  }

  lemma StayResized(l: seq<Item>, h: nat, k: nat, n: nat)
    requires k < |l| && l[k].used && n <= l[k].end - l[k].start - h
    ensures Resized(h, l, l, k, k, n, l[k].start + h)
  {
    LiveItem(l, k);
  }

  lemma ResizedLess(h: nat, l: seq<Item>, l': seq<Item>, k: nat, k': nat, n: nat, m: nat, addr: nat)
    requires Resized(h, l, l', k, k', n, addr) && m <= n
    ensures Resized(h, l, l', k, k', m, addr)
  {}

  /** Rounding a rounded size again does not make it smaller. */
  lemma NeedGrows(x: nat, align: nat, word: nat)
    requires 0 < align && word % align == 0 && MINIALLOC + align <= word && x < word
    ensures x + align <= word && Need(x, align, word) != MINIALLOC ==> x <= Need(x, align, word) < x + align && Need(x, align, word) % align == 0
    ensures Need(x, align, word) + align <= word && Need(Need(x, align, word), align, word) >= Need(x, align, word)
  {
    hide AlignUp;
    AlignUpIsNextMultiple(x, align, word);
    AlignUpIdempotent(x, align, word);
    AlignUpIsNextMultiple(MINIALLOC, align, word);
  }

  lemma ScrubKeeps(m: Blocks, links: Links<Ref>, l: seq<Item>, ring: seq<Ref>, t: nat, h: nat, k: nat, a: nat, b: nat)
    requires h > 0 && Tiles(l, 0, t, h) && Chained(m, l, t) && IsRing(links, FreeHeader, ring) && Elems(ring) == FreeRefs(l)
    requires k < |l| && l[k].used && l[k].start + h <= a <= b <= l[k].end
    ensures Chained(ScrubBlocks(m, a, b, h), l, t) && IsRing(ScrubLinks(links, a, b, h), FreeHeader, ring)
  {
    Apart(l, 0, t, h);
    var m' := ScrubBlocks(m, a, b, h);
    forall i | 0 <= i < |l|
      ensures l[i].start in m' && m'[l[i].start] == m[l[i].start]
    {
      if i < k { assert l[i].start + h <= l[k].start; }
      if k < i { assert l[k].end <= l[i].start; }
    }
    var k' := ScrubLinks(links, a, b, h);
    forall g | 0 <= g < |ring|
      ensures ring[g] in k'.next && ring[g] in k'.prev && k'.next[ring[g]] == links.next[ring[g]] && k'.prev[ring[g]] == links.prev[ring[g]]
    {
      var i := RingItem(l, ring, links, g);
      if i < k { assert l[i].start + h <= l[k].start; } else { assert l[k].end <= l[i].start; }
    }
  }
}
