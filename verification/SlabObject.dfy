/** struct rt_slab and the operations that change it in place. */
module SlabObject {
  import opened Arith
  import opened IpcList
  import opened Pages
  import opened SlabZone
  import opened Slab

  /** The zone size that rt_slab_init picks for a heap of `bytes` bytes. */
  method ChooseZoneSize(bytes: nat) returns (size: nat)
    ensures size == 0x8000 || size == 0x1_0000 || size == 0x2_0000
    ensures size == 0x2_0000 || bytes / 1024 <= size * 2
    ensures size == 0x8000 || size < bytes / 1024
  {
    size := 0x8000;
    while size < 0x2_0000 && size * 2 < bytes / 1024
      invariant size == 0x8000 || size == 0x1_0000 || size == 0x2_0000
      invariant size == 0x8000 || size < bytes / 1024
      decreases 0x2_0000 - size
    {
      size := size * 2;
    }
  }

  /** The loop that takes a zone out of the list of its index. */
  method UnlinkZone(q: seq<nat>, z: nat) returns (r: seq<nat>)
    requires z in q
    ensures r == Minus(q, z)
  {
    hide Minus;
    var i := 0;
    assert q[0..] == q && q[..0] + Minus(q, z) == Minus(q, z);
    while q[i] != z
      invariant i < |q| && z in q[i..] && Minus(q, z) == q[..i] + Minus(q[i..], z)
      decreases |q| - i
    {
      MinusUnfold(q, i, z);
      assert q[..i] + ([q[i]] + Minus(q[i + 1..], z)) == q[..i + 1] + Minus(q[i + 1..], z);
      i := i + 1;
    }
    MinusUnfold(q, i, z);
    return q[..i] + q[i + 1..];
  }

  class SlabObject {
    const c: Config
    const word: nat                 // addresses range over this
    var runs: seq<Run>              // page_list
    var usage: seq<Usage>           // memusage
    var zones: map<nat, Zone>       // the headers inside the zones
    var arrays: seq<seq<nat>>       // zone_array
    var idle: seq<nat>              // zone_free
    var idleCount: nat              // zone_free_cnt
    var used: int
    var max: int
    ghost var s: State

    ghost predicate Matches()
      reads this
    {
      && s.c == c && s.runs == runs && s.usage == usage && s.zones == zones && s.arrays == arrays
      && s.idle == idle && idleCount == |idle| && s.used == used && s.max == max
      && 0 < c.page <= word && word % c.page == 0
    }

    ghost predicate Valid()
      reads this
    {
      Inv(s) && Matches()
    }

    /**
     rt_slab_init: null exactly when no whole page lies between the object and the end of the range.
     Addresses wrap around; `start` is heap_start.
     */
    static method Init(begin: nat, size: nat, object_: nat, header: nat, align: nat, page: nat, word: nat)
      returns (r: SlabObject?, start: nat)
      requires PageOk(page, word)
      requires 0 < header <= 64 && 0 < align <= word && begin < word && size < word
      ensures start == HeapStart(begin, object_, align, page, word)
      ensures r == null <==> start >= HeapEnd(begin, size, page, word)
      ensures r != null ==>
        && fresh(r) && r.Valid() && r.s.live == map[] && r.used == 0 && r.c.page == page && r.word == word
        && |r.usage| == HeapPages(begin, size, object_, align, page, word)
    {
      start := HeapStart(begin, object_, align, page, word);
      var end := HeapEnd(begin, size, page, word);
      if start >= end {
        return null, start;
      }
      PageFacts(page, word);
      HeapPagesFit(begin, size, object_, align, page, word);
      hide PageOk, HeapPages, HeapStart, HeapEnd;
      var total := HeapPages(begin, size, object_, align, page, word);
      r := new SlabObject(page, header, total, word);
    }

    /** rt_slab_init for `total` pages. */
    constructor (page: nat, header: nat, total: nat, word: nat)
      requires 4 <= page <= 0x8000 && 0x8000 % page == 0 && page <= word && word % page == 0
      requires 0 < header <= 64 && total > 0 && total * 4 + page <= word
      ensures Valid() && s.live == map[] && c.page == page && c.header == header && used == 0 && |usage| == total && this.word == word
    {
      var size := ChooseZoneSize(total * page);
      var limit := size / 4;
      if limit > 0x4000 {
        limit := 0x4000;
      }
      var t := TablePages(total, page, word);
      ZoneSizeDivides(size, page);
      c, this.word := Config(page, size, limit, header), word;
      usage, zones, arrays, idle, idleCount := seq(total, _ => Usage(KFree, 0)), map[], seq(NZONES, _ => []), [], 0;
      used, max := 0, 0;
      runs := [Run(0, total)];
      new;
      ghost var i := Initial(c, total, t);
      InitialInv(c, total, t);
      var f := PageAlloc(t);
      s := i;
    }

    /** rt_slab_page_alloc */
    method PageAlloc(n: nat) returns (f: Found)
      modifies this`runs
      ensures n == 0 ==> f == Nothing && runs == old(runs)
      ensures n > 0 ==> (f, runs) == TakePages(old(runs), n)
    {
      if n == 0 {
        return Nothing;
      }
      var i := 0;
      assert runs[0..] == runs && runs[..0] + TakePages(runs, n).1 == TakePages(runs, n).1;
      while i < |runs|
        invariant i <= |runs| && runs == old(runs)
        invariant TakePages(runs, n) == (TakePages(runs[i..], n).0, runs[..i] + TakePages(runs[i..], n).1)
      {
        var b := runs[i];
        assert runs[i..][0] == b && runs[i..][1..] == runs[i + 1..];
        if b.count > n {
          assert TakePages(runs[i..], n) == (At(b.start), [Run(b.start + n, b.count - n)] + runs[i + 1..]);
          runs := runs[..i] + ([Run(b.start + n, b.count - n)] + runs[i + 1..]);
          return At(b.start);
        }
        if b.count == n {
          runs := runs[..i] + runs[i + 1..];
          return At(b.start);
        }
        assert runs[..i] + ([b] + TakePages(runs[i + 1..], n).1) == runs[..i + 1] + TakePages(runs[i + 1..], n).1;
        i := i + 1;
      }
      assert runs[i..] == [] && runs[..i] + [] == runs;
      return Nothing;
    }

    /** The search of rt_slab_page_free for the run that the freed pages touch or precede. */
    method FindPlace(b: nat, n: nat) returns (i: nat)
      requires n > 0 && Canonical(runs) && NoneFree(runs, b, n)
      ensures i <= |runs| && PutPages(runs, b, n) == runs[..i] + PutPages(runs[i..], b, n)
      ensures i < |runs| ==> runs[i].start + runs[i].count == b || runs[i].start >= b + n
    {
      hide Canonical, NoneFree, PutPages;
      i := 0;
      assert runs[0..] == runs && runs[..0] + PutPages(runs, b, n) == PutPages(runs, b, n);
      while i < |runs|
        invariant i <= |runs|
        invariant PutPages(runs, b, n) == runs[..i] + PutPages(runs[i..], b, n)
        invariant Canonical(runs[i..]) && NoneFree(runs[i..], b, n)
      {
        var h := runs[i];
        PutBeside(runs[i..], b, n);
        assert h.start > b || h.start + h.count <= b;
        if h.start + h.count == b || h.start == b + n || h.start > b + n {
          break;
        }
        PutUnfold(runs, i, b, n);
        assert runs[..i] + ([h] + PutPages(runs[i + 1..], b, n)) == runs[..i + 1] + PutPages(runs[i + 1..], b, n);
        NoneFreeRest(runs[i..], b, n);
        assert runs[i..][1..] == runs[i + 1..];
        i := i + 1;
      }
    }

    /** rt_slab_page_free */
    method PageFree(b: nat, n: nat)
      requires n > 0 && Canonical(runs) && NoneFree(runs, b, n)
      modifies this`runs
      ensures runs == PutPages(old(runs), b, n)
    {
      hide Canonical, NoneFree, PutPages;
      var i := FindPlace(b, n);
      if i == |runs| {
        PutAtEnd(b, n);
        assert runs[i..] == [];
        runs := runs[..i] + [Run(b, n)];
        return;
      }
      PutUnfold(runs, i, b, n);
      var h := runs[i];
      if h.start + h.count == b {
        var grown := h.(count := h.count + n);
        if i + 1 < |runs| && b + n == runs[i + 1].start {
          runs := runs[..i] + ([grown.(count := grown.count + runs[i + 1].count)] + runs[i + 2..]);
        } else {
          runs := runs[..i] + ([grown] + runs[i + 1..]);
        }
      } else if h.start == b + n {
        runs := runs[..i] + ([Run(b, h.count + n)] + runs[i + 1..]);
      } else {
        runs := runs[..i] + ([Run(b, n)] + runs[i..]);
      }
    }

    /** The loops over the usage entries of the pages of a zone. */
    method SetUsage(z: nat, n: nat, small: bool)
      requires z + n <= |usage|
      modifies this`usage
      ensures usage == Mark(old(usage), z, n, small)
    {
      var off := 0;
      while off < n
        invariant off <= n && |usage| == |old(usage)|
        invariant forall i :: 0 <= i < |usage| ==>
          usage[i] == if z <= i < z + off then (if small then Usage(KSmall, i - z) else Usage(KFree, 0)) else old(usage)[i]
      {
        usage := usage[z + off := if small then Usage(KSmall, off) else Usage(KFree, 0)];
        off := off + 1;
      }
      assert usage == Mark(old(usage), z, n, small);
    }

    method Account(size: nat)
      modifies this`used, this`max
      ensures used == old(used) + size && max == if old(used) + size > old(max) then old(used) + size else old(max)
    {
      used := used + size;
      if used > max {
        max := used;
      }
    }

    /** The large branch of rt_slab_alloc. */
    method AllocPages(n: nat) returns (p: Ptr)
      requires Valid()
      modifies this
      ensures Valid() && old(Core(s)) && (p, s) == AllocLarge(old(s), n)
    {
      hide Core, TakePages, Paint;
      AllocLargeIs(s, n, 0);
      InvCore(s);
      var f := PageAlloc(n);
      if f == Nothing {
        if n > 0 { LeftAlone(s, n); }
        return Null;
      }
      TookLargeCore(s, n);
      usage := usage[f.page := Usage(KLarge, n)];
      Account(n * c.page);
      s := TookLarge(s, n, f.page, runs);
      return To(f.page * c.page);
    }

    /** A new zone from the first idle one. */
    method UseIdle(zi: nat) returns (p: Ptr)
      requires Core(s) && Matches() && s.idle != [] && zi < NZONES && ChunkOf(zi) <= c.limit
      modifies this
      ensures Core(s) && Matches() && old(Core(s) && s.idle != []) && (p, s) == AllocIdle(old(s), zi)
    {
      hide Core, ChunkOf, Offset, NewZone;
      ActivatedCore(s, zi);
      ActivateAllowed(s, zi);
      var z := idle[0];
      idle := idle[1..];
      idleCount := idleCount - 1;
      var zn := NewZone(c, z, zi);
      zones := zones[z := zn];
      arrays := arrays[zi := [z] + arrays[zi]];
      Account(zn.chunk);
      s := Activated(s, zi);
      return To(zn.base);
    }

    /** The zone branch of rt_slab_alloc. */
    method AllocChunk(zi: nat) returns (p: Ptr)
      requires Valid() && zi < NZONES && ChunkOf(zi) <= c.limit
      modifies this
      ensures Valid() && old(Core(s)) && (p, s) == AllocSmall(old(s), zi)
    {
      hide Core, ChunkOf, TakePages, Handed, AllocIdle, Mark, Paint;
      AllocSmallIs(s, zi);
      InvCore(s);
      if arrays[zi] != [] {
        p := TakeChunk(zi);
        return;
      }
      if idle == [] {
        ZonePagesPositive(c);
        var f := PageAlloc(c.ZonePages());
        if f == Nothing {
          LeftAlone(s, c.ZonePages());
          return Null;
        }
        AcquiredCore(s);
        ZoneRoom(s);
        SetUsage(f.page, c.ZonePages(), true);
        idle, idleCount := [f.page] + idle, 1;
        s := Acquired(s, f.page, runs);
      }
      p := UseIdle(zi);
    }

    /** A chunk from the first zone in the list. */
    method TakeChunk(zi: nat) returns (p: Ptr)
      requires Core(s) && Matches() && zi < NZONES && s.arrays[zi] != []
      modifies this
      ensures old(CanCarve(s, zi)) && Matches() && s == Handed(old(s), zi)
      ensures p == To(CarvedZone(old(s).zones[old(s).arrays[zi][0]]).0)
    {
      hide Core, ZoneOk;
      ArrayHead(s, zi);
      ghost var u := Handed(s, zi);
      var z := arrays[zi][0];
      var zn := zones[z].(nfree := zones[z].nfree - 1);
      if zn.nfree == 0 {
        arrays := arrays[zi := arrays[zi][1..]];
      }
      var a;
      if zn.uindex + 1 != zn.nmax {
        zn := zn.(uindex := zn.uindex + 1);
        a := zn.base + zn.uindex * zn.chunk;
      } else {
        a := zn.free[0];
        zn := zn.(free := zn.free[1..]);
      }
      zones := zones[z := zn];
      Account(zn.chunk);
      s := u;
      return To(a);
    }

    /** rt_slab_alloc */
    method Alloc(size: nat) returns (p: Ptr)
      requires Valid() && size < word
      modifies this
      ensures Valid() && old(Core(s)) && (p, s) == Slab.Alloc(old(s), size, word)
    {
      hide Core, AllocLarge, AllocSmall, ZoneIndex, ChunkOf, AlignUp;
      InvCore(s);
      if size == 0 {
        return Null;
      }
      if size >= c.limit {
        p := AllocPages(AlignUp(size, c.page, word) / c.page);
        return;
      }
      SmallClassLegal(c, size);
      p := AllocChunk(ZoneIndex(size).zi);
    }

    /** rt_slab_free */
    method Free(p: Ptr)
      requires Valid() && (p.To? ==> p.a in s.live)
      modifies this
      ensures Valid() && old(Core(s)) && s == if p == Null then old(s) else Freed(old(s), p.a)
    {
      hide Inv, Core, Freed;
      InvCore(s);
      if p == Null {
        return;
      }
      FreeLive(p.a);
    }

    method FreeLive(a: nat)
      requires Valid() && a in s.live
      modifies this
      ensures Valid() && old(Core(s)) && s == Freed(old(s), a)
    {
      hide Core, PutPages, Minus, Mark, Paint, PageOf;
      InvCore(s);
      FreedIs(s, a);
      LookedUp(s, a);
      var page := a / c.page;
      var kup := usage[page];
      if kup.kind == KLarge {
        LiveWhole(s, a);
        PutLargeCore(s, page);
        PutLargeReady(s, page);
        usage := usage[page := kup.(size := 0)];
        used := used - kup.size * c.page;
        PageFree(page, kup.size);
        s := PutLarge(s, page);
        return;
      }
      var z := page - kup.size;
      ReturnedCore(s, a);
      ghost var before := s;
      GiveBack(z, a);
      var zn := zones[z];
      if zn.nfree == zn.nmax && |arrays[zn.zi]| > 1 {
        RetiredCore(s, z);
        Retire(z);
        if idleCount > RELEASE_THRESHOLD {
          Release();
        }
      }
      assert s == Freed(before, a);
    }

    method GiveBack(z: nat, a: nat)
      requires Core(s) && Matches() && z in zones && z in s.taken && zones[z].zi < |arrays|
      modifies this
      ensures Matches() && s == Returned(old(s), z, a)
    {
      hide Core;
      var zn := zones[z];
      zn := zn.(free := [a] + zn.free);
      used := used - zn.chunk;
      if zn.nfree == 0 {
        arrays := arrays[zn.zi := [z] + arrays[zn.zi]];
      }
      zn := zn.(nfree := zn.nfree + 1);
      zones := zones[z := zn];
      s := Returned(s, z, a);
    }

    method Retire(z: nat)
      requires Core(s) && Matches() && z in zones && zones[z].zi < |arrays| && zones[z].nfree > 0
      modifies this
      ensures Matches() && s == Retired(old(s), z)
    {
      hide Core, Minus;
      InItsArray(s, z);
      var q := UnlinkZone(arrays[zones[z].zi], z);
      arrays := arrays[zones[z].zi := q];
      s := Retired(s, z);
      zones := zones - {z};
      idle, idleCount := [z] + idle, idleCount + 1;
    }

    method Release()
      requires Core(s) && Matches() && idle != []
      modifies this
      ensures Matches() && s == Discarded(old(s))
    {
      hide Core, PutPages, Mark, Paint;
      var z := idle[0];
      IdleReady(s);
      idle, idleCount := idle[1..], idleCount - 1;
      SetUsage(z, c.ZonePages(), false);
      PageFree(z, c.ZonePages());
      s := Discarded(s);
    }
  }

  // ---- small facts -----------------------------------------------------------------------------------

  /** Where the pages of a new heap start and end. */
  function HeapStart(begin: nat, object_: nat, align: nat, page: nat, word: nat): nat
    requires align > 0 && page > 0 && word > 0
  {
    AlignUp((AlignUp(begin, align, word) + object_) % word, page, word)
  }

  function HeapEnd(begin: nat, size: nat, page: nat, word: nat): nat
    requires page > 0 && word > 0
  {
    (begin + size) % word / page * page
  }

  function HeapPages(begin: nat, size: nat, object_: nat, align: nat, page: nat, word: nat): nat
    requires align > 0 && page > 0 && word > 0 && HeapStart(begin, object_, align, page, word) <= HeapEnd(begin, size, page, word)
  {
    (HeapEnd(begin, size, page, word) - HeapStart(begin, object_, align, page, word)) / page
  }

  /** A page size that divides the smallest zone and the range of addresses. */
  ghost predicate PageOk(page: nat, word: nat) {
    8 <= page <= 0x8000 && 0x8000 % page == 0 && 0x1_0000 <= word <= 0x1_0000_0000 && word % page == 0
  }

  lemma PageFacts(page: nat, word: nat)
    requires PageOk(page, word)
    ensures 4 <= page <= 0x8000 && 0x8000 % page == 0 && page <= word && word % page == 0
  {}

  /** Both ends lie on pages; without wrap-around the pages lie behind the object and inside the range. */
  lemma HeapRange(begin: nat, size: nat, object_: nat, align: nat, page: nat, word: nat)
    requires 0 < align <= word && PageOk(page, word) && begin < word
    ensures var start, end := HeapStart(begin, object_, align, page, word), HeapEnd(begin, size, page, word);
      && start % page == 0 && end % page == 0 && end < word
      && (word % align == 0 && begin + align + object_ + page <= word && begin + size < word ==> begin + object_ <= start && end <= begin + size)
  {
    hide AlignUp;
    var a := (AlignUp(begin, align, word) + object_) % word;
    AlignUpIsNextMultiple(a, page, word);
    RoundDown((begin + size) % word, page);
    if word % align == 0 && begin + align + object_ + page <= word && begin + size < word {
      AlignUpIsNextMultiple(begin, align, word);
      DivUnique(AlignUp(begin, align, word) + object_, word, 0, AlignUp(begin, align, word) + object_);
      DivUnique(begin + size, word, 0, begin + size);
    }
  }

  lemma HeapPagesFit(begin: nat, size: nat, object_: nat, align: nat, page: nat, word: nat)
    requires 0 < align <= word && PageOk(page, word) && begin < word
    requires HeapStart(begin, object_, align, page, word) < HeapEnd(begin, size, page, word)
    ensures var total := HeapPages(begin, size, object_, align, page, word); total > 0 && total * 4 + page <= word
  {
    HeapRange(begin, size, object_, align, page, word);
    hide HeapStart, HeapEnd, PageOk;
    var start, end := HeapStart(begin, object_, align, page, word), HeapEnd(begin, size, page, word);
    PageFacts(page, word);
    SubMod(end, start, page);
    TotalFits(end - start, page, word);
  }

  lemma TotalFits(bytes: nat, page: nat, word: nat)
    requires PageOk(page, word) && 0 < bytes < word && bytes % page == 0
    ensures bytes / page > 0 && bytes / page * 4 + page <= word
  {
    var t := bytes / page;
    assert bytes == t * page;
    MulMonotone(8, page, t);
  }

  /** Pages of the usage table: four bytes for every page. */
  function TablePages(total: nat, page: nat, word: nat): (t: nat)
    requires 4 <= page <= word && word % page == 0 && total > 0 && total * 4 + page <= word
    ensures 0 < t <= total
  {
    TableFits(total, page, word);
    AlignUp(total * 4, page, word) / page
  }

  lemma TableFits(total: nat, page: nat, word: nat)
    requires 4 <= page <= word && word % page == 0 && total > 0 && total * 4 + page <= word
    ensures 0 < AlignUp(total * 4, page, word) / page <= total
  {
    hide AlignUp;
    AlignUpIsNextMultiple(total * 4, page, word);
    var a := AlignUp(total * 4, page, word);
    var t := a / page;
    assert a == t * page;
    if t > total {
      MulMonotone(total + 1, t, page);
      assert (total + 1) * page == total * page + page;
      MulMonotone(4, page, total);
      assert false;
    }
    if t <= 0 { MulMonotone(t, 0, page); assert false; }
  }

  lemma ZoneSizeDivides(size: nat, page: nat)
    requires page > 0 && 0x8000 % page == 0 && (size == 0x8000 || size == 0x1_0000 || size == 0x2_0000)
    ensures size % page == 0
  {
    AddMod(0x8000, 0x8000, page);
    AddMod(0x1_0000, 0x1_0000, page);
  }

  lemma LeftAlone(s: State, n: nat)
    requires Core(s) && n > 0 && TakePages(s.runs, n).0 == Nothing
    ensures TakePages(s.runs, n).1 == s.runs
  {
    hide OwnersOk, UsageOk, LiveOk, ArraysOk, SumOk, TakePages;
    RunsCanonical(s);
    TakeIsLowestFit(s.runs, n);
  }

  /** One step of the search for the place of the freed pages. */
  lemma PutUnfold(l: seq<Run>, i: nat, b: nat, n: nat)
    requires i < |l|
    ensures var h := l[i];
      PutPages(l[i..], b, n) ==
        if h.start + h.count == b then
          if i + 1 < |l| && b + n == l[i + 1].start then [Run(h.start, h.count + n + l[i + 1].count)] + l[i + 2..]
          else [Run(h.start, h.count + n)] + l[i + 1..]
        else if h.start == b + n then [Run(b, h.count + n)] + l[i + 1..]
        else if h.start > b + n then [Run(b, n)] + l[i..]
        else [h] + PutPages(l[i + 1..], b, n)
  {
    var t := l[i..];
    assert t[0] == l[i] && t[1..] == l[i + 1..];
    assert |t| > 1 ==> t[1] == l[i + 1] && t[2..] == l[i + 2..];
  }

  lemma MinusUnfold(q: seq<nat>, i: nat, z: nat)
    requires i < |q|
    ensures q[i..] == [q[i]] + q[i + 1..]
    ensures Minus(q[i..], z) == if q[i] == z then q[i + 1..] else [q[i]] + Minus(q[i + 1..], z)
  {
    assert q[i..][1..] == q[i + 1..];
  }

  lemma PutAtEnd(b: nat, n: nat)
    ensures PutPages([], b, n) == [Run(b, n)]
  {}

  lemma NoneFreeRest(l: seq<Run>, b: nat, n: nat)
    requires Canonical(l) && l != [] && NoneFree(l, b, n)
    ensures Canonical(l[1..]) && NoneFree(l[1..], b, n)
  {
    forall p: nat | Within(p, b, n)
      ensures !Pages.Free(l[1..], p)
    {
      Beyond(l, p);
    }
  }

  lemma ZoneRoom(s: State)
    requires Core(s) && TakePages(s.runs, s.c.ZonePages()).0.At?
    ensures TakePages(s.runs, s.c.ZonePages()).0.page + s.c.ZonePages() <= |s.usage|
  {
    hide UsageOk, LiveOk, ArraysOk, SumOk, TakePages;
    ZonePagesPositive(s.c);
    FoundPages(s, s.c.ZonePages());
  }

  /** The usage entry of the page of a live block tells large blocks and chunks apart. */
  lemma LookedUp(s: State, a: nat)
    requires Core(s) && a in s.live
    ensures var p := a / s.c.page;
      && p < |s.usage|
      && (s.usage[p].kind == KLarge <==> s.live[a].home.Whole?)
      && (s.live[a].home.Whole? ==> p == s.live[a].home.b && p in s.large && s.usage[p].size == s.large[p])
      && (s.live[a].home.InZone? ==> s.usage[p].size <= p && p - s.usage[p].size == s.live[a].home.z && s.live[a].home.z in s.zones)
  {
    hide Core;
    if s.live[a].home.Whole? {
      LiveWhole(s, a);
      FreeFindsBlock(s, a);
    } else {
      FreeFindsZone(s, a);
    }
  }

  lemma PutLargeReady(s: State, b: nat)
    requires Core(s) && b in s.large
    ensures s.large[b] > 0 && Canonical(s.runs) && NoneFree(s.runs, b, s.large[b])
  {
    hide UsageOk, LiveOk, ArraysOk, SumOk, PutPages;
    PutLargeOwners(s, b);
  }

  lemma InItsArray(s: State, z: nat)
    requires Core(s) && z in s.zones && s.zones[z].zi < |s.arrays| && s.zones[z].nfree > 0
    ensures z in s.arrays[s.zones[z].zi]
  {
    hide OwnersOk, UsageOk, LiveOk, SumOk;
  }

  lemma IdleReady(s: State)
    requires Core(s) && s.idle != []
    ensures s.c.ZonePages() > 0 && s.idle[0] + s.c.ZonePages() <= |s.usage| && Canonical(s.runs)
    ensures NoneFree(s.runs, s.idle[0], s.c.ZonePages())
  {
    hide UsageOk, LiveOk, SumOk, PutPages;
    ZonePagesPositive(s.c);
    assert s.idle[0] in s.idle;
    DiscardedOwners(s);
    assert ZoneAt(s, s.idle[0]);
  }
}
