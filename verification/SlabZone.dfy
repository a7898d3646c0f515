/** One zone of the slab allocator: an array of equal chunks behind an in-band header (slab.c:408-653). */
module SlabZone {
  import opened Arith
  import opened Ring

  /** RT_MM_PAGE_SIZE, zone_size, zone_limit and sizeof(struct rt_slab_zone). */
  datatype Config = Config(page: nat, zoneSize: nat, limit: nat, header: nat) {
    /** What rt_slab_init chooses. */
    ghost predicate Ok() {
      && page > 0 && zoneSize % page == 0 && 0 < header <= 64
      && (zoneSize == 0x8000 || zoneSize == 0x1_0000 || zoneSize == 0x2_0000)
      && limit == if zoneSize / 4 > 0x4000 then 0x4000 else zoneSize / 4
    }

    function ZonePages(): nat
      requires page > 0
    {
      zoneSize / page
    }
  }

  const NZONES: nat := 72
  const RELEASE_THRESHOLD: nat := 2

  /** x rounded up to a multiple of a. */
  function Up(x: nat, a: nat): nat
    requires a > 0
  {
    (x + a - 1) / a * a
  }

  lemma UpIs(x: nat, a: nat)
    requires a > 0
    ensures x <= Up(x, a) < x + a && Up(x, a) % a == 0
  {
    RoundDown(x + a - 1, a);
  }

  // ---- size classes ------------------------------------------------------------------------------

  datatype Class = Class(zi: nat, chunk: nat)

  /** zoneindex: the size class of a request; larger ones go to the page allocator. */
  function ZoneIndex(n: nat): Class
    requires 0 < n < 0x4000
  {
    if n < 128 then UpIs(n, 8); var b := Up(n, 8); Class(b / 8 - 1, b)
    else if n < 256 then var b := Up(n, 16); Class(b / 16 + 7, b)
    else if n < 512 then var b := Up(n, 32); Class(b / 32 + 15, b)
    else if n < 1024 then var b := Up(n, 64); Class(b / 64 + 23, b)
    else if n < 2048 then var b := Up(n, 128); Class(b / 128 + 31, b)
    else if n < 4096 then var b := Up(n, 256); Class(b / 256 + 39, b)
    else if n < 8192 then var b := Up(n, 512); Class(b / 512 + 47, b)
    else var b := Up(n, 1024); Class(b / 1024 + 55, b)
  }

  /** The chunk size that goes with a zone index. */
  function ChunkOf(zi: nat): nat {
    if zi < 16 then (zi + 1) * 8
    else if zi < 24 then (zi - 7) * 16
    else if zi < 32 then (zi - 15) * 32
    else if zi < 40 then (zi - 23) * 64
    else if zi < 48 then (zi - 31) * 128
    else if zi < 56 then (zi - 39) * 256
    else if zi < 64 then (zi - 47) * 512
    else (zi - 55) * 1024
  }

  ghost predicate GoodClass(n: nat, k: Class) {
    && k.zi < NZONES && n <= k.chunk == ChunkOf(k.zi) && k.chunk % 8 == 0
    && (k.chunk < n + 8 || (k.chunk - n) * 8 < n)
    && (n <= 0x2000 ==> k.chunk <= 0x2000) && k.chunk <= 0x4000
  }

  /** A chunk is big enough for its request, and wastes less than 8 bytes or an eighth of it. */
  lemma ZoneIndexFits(n: nat)
    requires 0 < n < 0x4000
    ensures GoodClass(n, ZoneIndex(n))
  {
    hide Up, ZoneIndex, GoodClass;
    if n < 256 { SmallClass(n); } else if n < 2048 { MiddleClass(n); } else { LargeClass(n); }
  }

  lemma SmallClass(n: nat)
    requires 0 < n < 256
    ensures GoodClass(n, ZoneIndex(n))
  {
    hide Up;
    if n < 128 { UpIs(n, 8); } else { UpIs(n, 16); }
  }

  lemma MiddleClass(n: nat)
    requires 256 <= n < 2048
    ensures GoodClass(n, ZoneIndex(n))
  {
    hide Up;
    if n < 512 { UpIs(n, 32); } else if n < 1024 { UpIs(n, 64); } else { UpIs(n, 128); }
  }

  lemma LargeClass(n: nat)
    requires 2048 <= n < 0x4000
    ensures GoodClass(n, ZoneIndex(n))
  {
    hide Up;
    if n < 4096 { UpIs(n, 256); } else if n < 8192 { UpIs(n, 512); } else { UpIs(n, 1024); }
  }

  /** Chunk sizes grow strictly with the zone index. */
  lemma ChunksGrow(i: nat, j: nat)
    requires i < j < NZONES
    ensures ChunkOf(i) < ChunkOf(j)
  {}

  /** Two requests share a zone index exactly when they get the same chunk size. */
  lemma SameIndexSameChunk(m: nat, n: nat)
    requires 0 < m < 0x4000 && 0 < n < 0x4000
    ensures ZoneIndex(m).zi == ZoneIndex(n).zi <==> ZoneIndex(m).chunk == ZoneIndex(n).chunk
  {
    hide ZoneIndex;
    ZoneIndexFits(m);
    ZoneIndexFits(n);
    var i, j := ZoneIndex(m).zi, ZoneIndex(n).zi;
    if i < j { ChunksGrow(i, j); } else if j < i { ChunksGrow(j, i); }
  }

  // ---- zones -------------------------------------------------------------------------------------

  /** struct rt_slab_zone; addresses are offsets from heap_start. */
  datatype Zone = Zone(zi: nat, chunk: nat, base: nat, nmax: nat, nfree: nat, uindex: nat, free: seq<nat>)

  predicate PowerOfTwo(n: nat) {
    n == 1 || (n > 1 && n % 2 == 0 && PowerOfTwo(n / 2))
  }

  /** Where the chunk array starts: aligned to the chunk size if that is a power of two, else to 8. */
  function Offset(c: Config, chunk: nat): nat
    requires chunk > 0
  {
    if PowerOfTwo(chunk) then Up(c.header, chunk) else Up(c.header, 8)
  }

  /** The end of the part of the chunk array that has been handed out at least once. */
  function Limit(zn: Zone): nat {
    zn.base + (zn.uindex + 1) * zn.chunk
  }

  /** `a` is a chunk that has been handed out at least once. */
  ghost predicate Carved(zn: Zone, a: nat)
    requires zn.chunk > 0
  {
    zn.base <= a && (a - zn.base) % zn.chunk == 0 && a + zn.chunk <= Limit(zn)
  }

  /**
   The zone at page `z`, whose live chunks are `taken`: live and free chunks are different, together
   they are what has been carved, and z_nfree counts the free and the never-used ones.
   */
  ghost predicate ZoneOk(c: Config, z: nat, zn: Zone, taken: set<nat>) {
    && zn.zi < NZONES && zn.chunk == ChunkOf(zn.zi) && zn.chunk > 0
    && zn.nmax >= 2 && zn.uindex < zn.nmax && zn.base == z * c.page + Offset(c, zn.chunk)
    && z * c.page + c.header <= zn.base && zn.base + zn.nmax * zn.chunk <= z * c.page + c.zoneSize
    && Distinct(zn.free)
    && (forall a :: a in zn.free ==> Carved(zn, a) && a !in taken)
    && (forall a :: a in taken ==> Carved(zn, a))
    && |taken| + |zn.free| == zn.uindex + 1
    && zn.nfree == zn.nmax - 1 - zn.uindex + |zn.free|
  }

  /** A new zone; its first chunk is handed out at once. */
  function NewZone(c: Config, z: nat, zi: nat): Zone
    requires ChunkOf(zi) > 0 && Offset(c, ChunkOf(zi)) <= c.zoneSize && (c.zoneSize - Offset(c, ChunkOf(zi))) / ChunkOf(zi) > 0
  {
    var chunk := ChunkOf(zi);
    var off := Offset(c, chunk);
    var nmax := (c.zoneSize - off) / chunk;
    Zone(zi, chunk, z * c.page + off, nmax, nmax - 1, 0, [])
  }

  /** Hand out a never-used chunk, or else the first free one. */
  function CarvedZone(zn: Zone): (nat, Zone)
    requires zn.nfree > 0 && (zn.uindex + 1 == zn.nmax ==> zn.free != [])
  {
    if zn.uindex + 1 != zn.nmax then
      (zn.base + (zn.uindex + 1) * zn.chunk, zn.(nfree := zn.nfree - 1, uindex := zn.uindex + 1))
    else (zn.free[0], zn.(nfree := zn.nfree - 1, free := zn.free[1..]))
  }

  function ReturnedZone(zn: Zone, a: nat): Zone {
    zn.(nfree := zn.nfree + 1, free := [a] + zn.free)
  }

  /** Every class that slab_alloc can ask for leaves room for several chunks. */
  lemma ClassFits(c: Config, zi: nat)
    requires c.Ok() && zi < NZONES && ChunkOf(zi) <= c.limit
    ensures ChunkOf(zi) > 0 && Offset(c, ChunkOf(zi)) <= c.zoneSize && (c.zoneSize - Offset(c, ChunkOf(zi))) / ChunkOf(zi) >= 2
    ensures c.header <= Offset(c, ChunkOf(zi))
  {
    ChunkPositive(zi);
    hide PowerOfTwo, Up, ChunkOf;
    var k := ChunkOf(zi);
    UpIs(c.header, k);
    UpIs(c.header, 8);
    RoomForTwo(c.zoneSize - Offset(c, k), k);
  }

  lemma ChunkPositive(zi: nat)
    requires zi < NZONES
    ensures 8 <= ChunkOf(zi) <= 0x4000
  {}

  lemma RoomForTwo(room: int, k: nat)
    requires k > 0 && room >= 2 * k
    ensures room / k >= 2
  {
    RoundDown(room, k);
    if room / k < 2 {
      MulMonotone(room / k, 1, k);
      assert false;
    }
  }

  lemma NewZoneOk(c: Config, z: nat, zi: nat)
    requires c.Ok() && zi < NZONES && ChunkOf(zi) <= c.limit
    ensures ChunkOf(zi) > 0 && Offset(c, ChunkOf(zi)) <= c.zoneSize && (c.zoneSize - Offset(c, ChunkOf(zi))) / ChunkOf(zi) > 0
    ensures var zn := NewZone(c, z, zi); ZoneOk(c, z, zn, {zn.base}) && zn.nfree > 0
  {
    hide ChunkOf, Offset;
    ClassFits(c, zi);
    var zn := NewZone(c, z, zi);
    var room := c.zoneSize - Offset(c, zn.chunk);
    RoundDown(room, zn.chunk);
    assert Carved(zn, zn.base);
  }

  /** Handing out: the chunk is inside the zone, was not live, and only it becomes live. */
  lemma CarvedZoneOk(c: Config, z: nat, zn: Zone, taken: set<nat>)
    requires ZoneOk(c, z, zn, taken) && zn.nfree > 0
    ensures zn.uindex + 1 == zn.nmax ==> zn.free != []
    ensures var (a, u) := CarvedZone(zn);
      && a !in taken && ZoneOk(c, z, u, taken + {a}) && u.zi == zn.zi && u.chunk == zn.chunk && u.nfree == zn.nfree - 1
  {
    hide Limit, ChunkOf, Offset;
    var (a, u) := CarvedZone(zn);
    if zn.uindex + 1 != zn.nmax {
      LimitIs(zn);
      LimitIs(u);
      MulMod(zn.uindex + 1, zn.chunk);
      assert u.base + (u.uindex + 1) * u.chunk == zn.base + (zn.uindex + 1) * zn.chunk + zn.chunk;
      forall x | Carved(zn, x)
        ensures Carved(u, x) && x != a
      {}
      assert |taken + {a}| == |taken| + 1;
    } else {
      assert zn.free == [a] + u.free;
      SameLimit(zn, u);
      assert forall x | Carved(zn, x) :: Carved(u, x);
      assert a in zn.free;
      forall x | x in u.free
        ensures x in zn.free && x != a
      {
        var j :| 0 <= j < |u.free| && u.free[j] == x;
        assert zn.free[j + 1] == x;
      }
    }
  }

  lemma LimitIs(zn: Zone)
    ensures Limit(zn) == zn.base + (zn.uindex + 1) * zn.chunk
  {}

  lemma SameLimit(zn: Zone, u: Zone)
    requires zn.base == u.base && zn.uindex == u.uindex && zn.chunk == u.chunk
    ensures Limit(zn) == Limit(u)
  {}

  lemma ReturnedZoneOk(c: Config, z: nat, zn: Zone, taken: set<nat>, a: nat)
    requires ZoneOk(c, z, zn, taken) && a in taken
    ensures ZoneOk(c, z, ReturnedZone(zn, a), taken - {a})
    ensures ReturnedZone(zn, a).nfree == zn.nmax <==> taken == {a}
  {
    hide Limit, ChunkOf, Offset;
    var u := ReturnedZone(zn, a);
    SameLimit(zn, u);
    assert forall x | Carved(zn, x) :: Carved(u, x);
    assert |taken - {a}| == |taken| - 1;
    if taken != {a} {
      var b :| b in taken - {a};
      assert |taken - {a}| > 0;
    }
  }

  /** Two chunks of a zone do not overlap, and both lie behind the header and inside the zone. */
  lemma ChunksApart(c: Config, z: nat, zn: Zone, taken: set<nat>, a: nat, b: nat)
    requires ZoneOk(c, z, zn, taken) && a in taken && b in taken && a < b
    ensures a + zn.chunk <= b
  {
    hide ChunkOf;
    if b < a + zn.chunk {
      MultipleBelow(b - zn.base, a - zn.base, zn.chunk);
      assert false;
    }
  }

  lemma ChunkInside(c: Config, z: nat, zn: Zone, taken: set<nat>, a: nat)
    requires ZoneOk(c, z, zn, taken) && a in taken
    ensures z * c.page + c.header <= a && a + zn.chunk <= z * c.page + c.zoneSize
  {
    hide ChunkOf;
    MulMonotone(zn.uindex + 1, zn.nmax, zn.chunk);
  }

  // ---- powers of two -----------------------------------------------------------------------------

  /** The smaller of two powers of two divides the larger one. */
  lemma {:induction false} PowerDivides(a: nat, b: nat)
    requires PowerOfTwo(a) && PowerOfTwo(b) && a <= b
    ensures a > 0 && b % a == 0
  {
    if a > 1 {
      var h, g := a / 2, b / 2;
      PowerDivides(h, g);
      var k := g / h;
      assert b == k * a by { assert g == k * h; }
      MulMod(k, a);
    }
  }

  lemma Powers()
    ensures PowerOfTwo(8) && PowerOfTwo(16) && PowerOfTwo(32) && PowerOfTwo(64) && PowerOfTwo(128) && PowerOfTwo(256)
    ensures PowerOfTwo(512) && PowerOfTwo(1024) && PowerOfTwo(4096) && PowerOfTwo(8192)
  {
    assert PowerOfTwo(8) && PowerOfTwo(16) && PowerOfTwo(64) && PowerOfTwo(256) && PowerOfTwo(1024) && PowerOfTwo(4096);
  }

  lemma UpOfMultiple(n: nat, a: nat)
    requires a > 0 && n % a == 0
    ensures Up(n, a) == n
  {
    UpIs(n, a);
    hide Up;
    MultipleBelow(Up(n, a), n, a);
  }

  /** A power-of-two request gets a chunk of just that size, or of 8 bytes if it is smaller. */
  lemma PowerClass(n: nat)
    requires 0 < n < 0x4000 && PowerOfTwo(n)
    ensures ZoneIndex(n).chunk == (if n < 8 then 8 else n)
    ensures PowerOfTwo(ZoneIndex(n).chunk) && ZoneIndex(n).chunk % n == 0
  {
    hide PowerOfTwo, Up;
    Powers();
    if n < 8 {
      UpIs(n, 8);
      PowerDivides(n, 8);
    } else {
      var g := if n < 128 then 8 else if n < 256 then 16 else if n < 512 then 32 else if n < 1024 then 64
        else if n < 2048 then 128 else if n < 4096 then 256 else if n < 8192 then 512 else 1024;
      PowerDivides(g, n);
      UpOfMultiple(n, g);
    }
  }

  lemma DivisorOf(x: nat, k: nat, n: nat)
    requires k > 0 && n > 0 && x % k == 0 && k % n == 0
    ensures x % n == 0
  {
    assert x == x / k * k && k == k / n * n;
    assert x == (x / k * (k / n)) * n;
    MulMod(x / k * (k / n), n);
  }

  /** A chunk of power-of-two size is aligned to any `n` that divides the chunk size and the page size. */
  lemma ChunkAligned(c: Config, z: nat, zn: Zone, taken: set<nat>, a: nat, n: nat)
    requires ZoneOk(c, z, zn, taken) && a in taken && PowerOfTwo(zn.chunk) && n > 0 && zn.chunk % n == 0 && c.page % n == 0
    ensures a % n == 0
  {
    hide ChunkOf, PowerOfTwo, Limit;
    assert Carved(zn, a);
    var off := Offset(c, zn.chunk);
    OffsetOfPower(c, zn.chunk);
    hide Up;
    DivisorOf(off, zn.chunk, n);
    DivisorOf(a - zn.base, zn.chunk, n);
    MultipleOfPage(z, c.page, n);
    AddMod(z * c.page, off, n);
    AddMod(zn.base, a - zn.base, n);
  }

  lemma OffsetOfPower(c: Config, chunk: nat)
    requires chunk > 0 && PowerOfTwo(chunk)
    ensures Offset(c, chunk) % chunk == 0
  {
    hide PowerOfTwo;
    UpIs(c.header, chunk);
  }

  lemma MultipleOfPage(z: nat, page: nat, n: nat)
    requires n > 0 && page % n == 0
    ensures z * page % n == 0
  {
    assert page == page / n * n;
    assert z * page == (z * (page / n)) * n;
    MulMod(z * (page / n), n);
  }
}
