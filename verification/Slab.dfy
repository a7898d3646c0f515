/**
 The slab allocator (slab.c:487-853): zones of equal chunks over the page list.  Addresses are
 offsets from heap_start, page numbers count from there.
 */
module Slab {
  import opened Arith
  import opened Ring
  import opened IpcList
  import opened Pages
  import opened Peaks
  import opened SlabZone

  datatype Kind = KFree | KSmall | KLarge

  /** struct rt_slab_memusage: what a page is used for, and its place in its zone or the length of its block. */
  datatype Usage = Usage(kind: Kind, size: nat)

  datatype Home = InZone(z: nat) | Whole(b: nat)

  /** A live block: the bytes it holds and where they come from. */
  datatype Piece = Piece(size: nat, home: Home)

  datatype Owner = Nobody | Zoned(z: nat) | Block(b: nat) | Table

  datatype State = State(
    c: Config,
    runs: seq<Run>,                 // page_list
    usage: seq<Usage>,              // memusage
    zones: map<nat, Zone>,          // zones in use, by their first page
    arrays: seq<seq<nat>>,          // zone_array
    idle: seq<nat>,                 // zone_free
    used: int,
    max: int,
    // what the proof remembers
    owner: seq<Owner>,              // who holds each page
    large: map<nat, nat>,           // first page and length of the large blocks
    taken: map<nat, set<nat>>,      // live chunks of each zone
    live: map<nat, Piece>)          // live blocks by address

  function PageOf(c: Config, a: nat): nat
    requires c.page > 0
  {
    a / c.page
  }

  function OwnerOf(h: Home): Owner {
    match h case InZone(z) => Zoned(z) case Whole(b) => Block(b)
  }

  // ---- bytes in use ------------------------------------------------------------------------------

  ghost function Sum(m: map<nat, Piece>): nat
    decreases |m|
  {
    if m == map[] then 0 else
      var k :| k in m;
      m[k].size + Sum(m - {k})
  }

  lemma {:induction false} SumWithout(m: map<nat, Piece>, k: nat)
    requires k in m
    ensures Sum(m) == m[k].size + Sum(m - {k})
    decreases |m|
  {
    var j :| j in m && Sum(m) == m[j].size + Sum(m - {j});
    if j != k {
      SumWithout(m - {j}, k);
      SumWithout(m - {k}, j);
      assert m - {j} - {k} == m - {k} - {j};
    }
  }

  lemma SumWith(m: map<nat, Piece>, k: nat, v: Piece)
    requires k !in m
    ensures Sum(m[k := v]) == Sum(m) + v.size
  {
    SumWithout(m[k := v], k);
    assert m[k := v] - {k} == m;
  }

  // ---- invariant ---------------------------------------------------------------------------------

  predicate ZoneAt(s: State, z: nat) {
    z in s.zones || z in s.idle
  }

  /** Every page is free, in exactly one zone, in exactly one large block, or in the usage table. */
  ghost predicate OwnersOk(s: State)
    requires s.c.page > 0
  {
    var zp := s.c.ZonePages();
    && Canonical(s.runs) && |s.usage| == |s.owner|
    && (forall p: nat :: Free(s.runs, p) <==> p < |s.owner| && s.owner[p] == Nobody)
    && (forall p :: 0 <= p < |s.owner| && s.owner[p].Zoned? ==> ZoneAt(s, s.owner[p].z) && Within(p, s.owner[p].z, zp))
    && (forall p :: 0 <= p < |s.owner| && s.owner[p].Block? ==> s.owner[p].b in s.large && Within(p, s.owner[p].b, s.large[s.owner[p].b]))
    && (forall z: nat :: ZoneAt(s, z) ==> z + zp <= |s.owner|)
    && (forall z: nat, p: nat :: ZoneAt(s, z) && Within(p, z, zp) && p < |s.owner| ==> s.owner[p] == Zoned(z))
    && (forall b :: b in s.large ==> s.large[b] > 0 && b + s.large[b] <= |s.owner|)
    && (forall b, p: nat :: b in s.large && Within(p, b, s.large[b]) && p < |s.owner| ==> s.owner[p] == Block(b))
  }

  /** The usage table leads from any page of a zone to the zone, and from a large block to its length. */
  ghost predicate UsageOk(s: State)
    requires s.c.page > 0
  {
    var zp := s.c.ZonePages();
    && (forall z: nat, p: nat :: ZoneAt(s, z) && Within(p, z, zp) && p < |s.usage| ==> s.usage[p] == Usage(KSmall, p - z))
    && (forall b :: b in s.large && b < |s.usage| ==> s.usage[b] == Usage(KLarge, s.large[b]))
  }

  ghost predicate ZonesOk(s: State) {
    s.zones.Keys == s.taken.Keys && forall z :: z in s.zones ==> z in s.taken && ZoneOk(s.c, z, s.zones[z], s.taken[z])
  }

  ghost predicate ChunksLive(s: State) {
    forall z, a {:trigger a in s.taken[z]} :: z in s.taken && a in s.taken[z] ==> z in s.zones && a in s.live && s.live[a] == Piece(s.zones[z].chunk, InZone(z))
  }

  ghost predicate BlocksLive(s: State) {
    forall b :: b in s.large ==> b * s.c.page in s.live && s.live[b * s.c.page] == Piece(s.large[b] * s.c.page, Whole(b))
  }

  ghost predicate PiecesOk(s: State)
    requires s.c.page > 0
  {
    forall a :: a in s.live ==>
      PageOf(s.c, a) < |s.owner| && s.owner[PageOf(s.c, a)] == OwnerOf(s.live[a].home) && HomeOk(s, a, s.live[a].home)
  }

  /** Live blocks, live chunks and large blocks describe each other. */
  ghost predicate LiveOk(s: State)
    requires s.c.page > 0
  {
    ZonesOk(s) && ChunksLive(s) && BlocksLive(s) && PiecesOk(s)
  }

  predicate HomeOk(s: State, a: nat, h: Home) {
    if h.InZone? then h.z in s.taken && a in s.taken[h.z] else h.b in s.large && a == h.b * s.c.page
  }

  /** A zone is in the list of its index exactly when it has free chunks. */
  ghost predicate ArraysOk(s: State) {
    && |s.arrays| == NZONES
    && (forall i :: 0 <= i < |s.arrays| ==> Distinct(s.arrays[i]))
    && (forall i, z :: 0 <= i < |s.arrays| ==> (z in s.arrays[i] <==> z in s.zones && s.zones[z].zi == i && s.zones[z].nfree > 0))
    && Distinct(s.idle) && (forall z :: z in s.idle ==> z !in s.zones)
  }

  ghost predicate SumOk(s: State) {
    s.used == Sum(s.live) && s.used <= s.max
  }

  ghost predicate Core(s: State) {
    s.c.Ok() && OwnersOk(s) && UsageOk(s) && LiveOk(s) && ArraysOk(s) && SumOk(s)
  }

  /** Between calls at most two idle zones are kept. */
  ghost predicate Inv(s: State) {
    Core(s) && |s.idle| <= RELEASE_THRESHOLD
  }

  // ---- what the invariant means ------------------------------------------------------------------

  lemma ZoneBytes(c: Config, z: nat)
    requires c.Ok()
    ensures (z + c.ZonePages()) * c.page == z * c.page + c.zoneSize
  {
    assert c.zoneSize == c.ZonePages() * c.page;
    Distribute(z, c.ZonePages(), c.page);
  }

  lemma PageBetween(c: Config, p: nat, n: nat, b: nat)
    requires c.page > 0 && p * c.page <= b < (p + n) * c.page
    ensures Within(PageOf(c, b), p, n)
  {
    var q := PageOf(c, b);
    assert b == q * c.page + b % c.page;
    Distribute(q, 1, c.page);
    hide PageOf;
    if q < p { MulMonotone(q + 1, p, c.page); assert false; }
    if q >= p + n { MulMonotone(p + n, q, c.page); assert false; }
  }

  lemma PageRange(c: Config, z: nat, a: nat)
    requires c.Ok() && z * c.page <= a < z * c.page + c.zoneSize
    ensures Within(PageOf(c, a), z, c.ZonePages())
  {
    ZoneBytes(c, z);
    PageBetween(c, z, c.ZonePages(), a);
  }

  /** rt_slab_free of a chunk looks up the very zone the chunk came from. */
  lemma FreeFindsZone(s: State, a: nat)
    requires Core(s) && a in s.live && s.live[a].home.InZone?
    ensures var p := PageOf(s.c, a);
      && p < |s.usage| && s.usage[p].kind == KSmall && s.usage[p].size <= p && p - s.usage[p].size == s.live[a].home.z
      && s.live[a].home.z in s.zones && s.zones[s.live[a].home.z].chunk == s.live[a].size
  {
    hide ZoneOk, Canonical, ArraysOk, SumOk;
    assert ZoneAt(s, s.live[a].home.z);
  }

  lemma FreeFindsBlock(s: State, a: nat)
    requires Core(s) && a in s.live && s.live[a].home.Whole?
    ensures var p := PageOf(s.c, a);
      && p < |s.usage| && s.usage[p] == Usage(KLarge, s.large[s.live[a].home.b]) && p == s.live[a].home.b
  {
    hide ZoneOk, Canonical, ArraysOk, SumOk;
    MulMod(s.live[a].home.b, s.c.page);
  }

  // ---- steps -------------------------------------------------------------------------------------

  function Paint(o: seq<Owner>, b: nat, n: nat, w: Owner): (r: seq<Owner>)
    ensures |r| == |o| && forall i :: 0 <= i < |o| ==> r[i] == if Within(i, b, n) then w else o[i]
  {
    seq(|o|, i requires 0 <= i < |o| => if Within(i, b, n) then w else o[i])
  }

  /** The usage entries of a zone, or of pages given back. */
  function Mark(u: seq<Usage>, b: nat, n: nat, small: bool): (r: seq<Usage>)
    ensures |r| == |u|
    ensures forall i :: 0 <= i < |u| ==>
      r[i] == if Within(i, b, n) then (if small then Usage(KSmall, i - b) else Usage(KFree, 0)) else u[i]
  {
    seq(|u|, i requires 0 <= i < |u| =>
      if Within(i, b, n) then (if small then Usage(KSmall, i - b) else Usage(KFree, 0)) else u[i])
  }

  function Grown(s: State, size: nat): State {
    s.(used := s.used + size, max := if s.used + size > s.max then s.used + size else s.max)
  }

  /** A large block of `n` pages at page `b`, leaving the free runs `r`. */
  function TookLarge(s: State, n: nat, b: nat, r: seq<Run>): State
    requires b < |s.usage|
  {
    Grown(s, n * s.c.page).(runs := r, usage := s.usage[b := Usage(KLarge, n)], owner := Paint(s.owner, b, n, Block(b)),
      large := s.large[b := n], live := s.live[b * s.c.page := Piece(n * s.c.page, Whole(b))])
  }

  /** rt_slab_free of a large block. */
  function PutLarge(s: State, b: nat): State
    requires b in s.large && b < |s.usage|
  {
    var n := s.large[b];
    s.(runs := PutPages(s.runs, b, n), usage := s.usage[b := s.usage[b].(size := 0)], used := s.used - n * s.c.page,
      owner := Paint(s.owner, b, n, Nobody), large := s.large - {b}, live := s.live - {b * s.c.page})
  }

  /** Pages for a zone, which waits at the head of the idle list. */
  function Acquired(s: State, z: nat, r: seq<Run>): State
    requires s.c.page > 0
  {
    var zp := s.c.ZonePages();
    s.(runs := r, usage := Mark(s.usage, z, zp, true), owner := Paint(s.owner, z, zp, Zoned(z)), idle := [z] + s.idle)
  }

  /** The first idle zone goes back to the page list. */
  function Discarded(s: State): State
    requires s.c.page > 0 && s.idle != []
  {
    var z, zp := s.idle[0], s.c.ZonePages();
    s.(runs := PutPages(s.runs, z, zp), usage := Mark(s.usage, z, zp, false), owner := Paint(s.owner, z, zp, Nobody), idle := s.idle[1..])
  }

  ghost predicate CanActivate(s: State, zi: nat) {
    && s.idle != [] && zi < |s.arrays|
    && ChunkOf(zi) > 0 && Offset(s.c, ChunkOf(zi)) <= s.c.zoneSize && (s.c.zoneSize - Offset(s.c, ChunkOf(zi))) / ChunkOf(zi) > 0
  }

  /** The first idle zone becomes a zone of index `zi`; its first chunk is handed out. */
  function Activated(s: State, zi: nat): State
    requires CanActivate(s, zi)
  {
    var z := s.idle[0];
    var zn := NewZone(s.c, z, zi);
    Grown(s, zn.chunk).(idle := s.idle[1..], zones := s.zones[z := zn], taken := s.taken[z := {zn.base}],
      arrays := s.arrays[zi := [z] + s.arrays[zi]], live := s.live[zn.base := Piece(zn.chunk, InZone(z))])
  }

  ghost predicate CanCarve(s: State, zi: nat) {
    && zi < |s.arrays| && s.arrays[zi] != []
    && var z := s.arrays[zi][0];
      z in s.zones && z in s.taken && s.zones[z].nfree > 0 && (s.zones[z].uindex + 1 == s.zones[z].nmax ==> s.zones[z].free != [])
  }

  /** The first zone of the list hands out a chunk, and leaves the list if it was the last one. */
  function Handed(s: State, zi: nat): State
    requires CanCarve(s, zi)
  {
    var z := s.arrays[zi][0];
    var (a, zn) := CarvedZone(s.zones[z]);
    Grown(s, zn.chunk).(zones := s.zones[z := zn], taken := s.taken[z := s.taken[z] + {a}],
      arrays := if zn.nfree == 0 then s.arrays[zi := s.arrays[zi][1..]] else s.arrays,
      live := s.live[a := Piece(zn.chunk, InZone(z))])
  }

  /** rt_slab_free of chunk `a` of zone `z`, up to the question whether the zone is idle now. */
  function Returned(s: State, z: nat, a: nat): State
    requires z in s.zones && z in s.taken && s.zones[z].zi < |s.arrays|
  {
    var zn := ReturnedZone(s.zones[z], a);
    s.(zones := s.zones[z := zn], taken := s.taken[z := s.taken[z] - {a}], used := s.used - zn.chunk,
      arrays := if s.zones[z].nfree == 0 then s.arrays[zn.zi := [z] + s.arrays[zn.zi]] else s.arrays,
      live := s.live - {a})
  }

  /** A zone without live chunks moves to the idle list. */
  function Retired(s: State, z: nat): State
    requires z in s.zones && s.zones[z].zi < |s.arrays|
  {
    var zi := s.zones[z].zi;
    s.(arrays := s.arrays[zi := Minus(s.arrays[zi], z)], zones := s.zones - {z}, taken := s.taken - {z}, idle := [z] + s.idle)
  }

  // ---- the steps keep the invariant: large blocks and pages --------------------------------------

  lemma FoundPages(s: State, n: nat)
    requires s.c.page > 0 && OwnersOk(s) && n > 0 && TakePages(s.runs, n).0.At?
    ensures var b := TakePages(s.runs, n).0.page;
      && b + n <= |s.owner| && Canonical(TakePages(s.runs, n).1)
      && (forall p: nat :: Within(p, b, n) ==> p < |s.owner| && s.owner[p] == Nobody)
      && (forall p: nat :: Free(TakePages(s.runs, n).1, p) <==> Free(s.runs, p) && !Within(p, b, n))
  {
    hide Canonical, Free, TakePages;
    TakeIsLowestFit(s.runs, n);
    var b := TakePages(s.runs, n).0.page;
    assert Within(b + n - 1, b, n);
    assert Free(s.runs, b + n - 1);
  }

  lemma TookLargeOwners(s: State, n: nat)
    requires s.c.page > 0 && OwnersOk(s) && n > 0 && TakePages(s.runs, n).0.At?
    ensures var b := TakePages(s.runs, n).0.page; b < |s.usage| && b !in s.large && OwnersOk(TookLarge(s, n, b, TakePages(s.runs, n).1))
  {
    hide Canonical, Free, TakePages;
    FoundPages(s, n);
    var b := TakePages(s.runs, n).0.page;
    assert Within(b, b, n);
    assert b in s.large ==> Within(b, b, s.large[b]);
    var u := TookLarge(s, n, b, TakePages(s.runs, n).1);
    assert forall z :: ZoneAt(u, z) == ZoneAt(s, z);
  }

  /** A page that nobody holds belongs to no zone and no large block. */
  lemma FreshPage(s: State, p: nat)
    requires s.c.page > 0 && s.c.ZonePages() > 0 && OwnersOk(s) && p < |s.owner| && s.owner[p] == Nobody
    ensures !ZoneAt(s, p) && p !in s.large
  {
    hide Canonical, Free;
    assert p in s.large ==> Within(p, p, s.large[p]);
    assert Within(p, p, s.c.ZonePages());
  }

  lemma TookLargeUsage(s: State, n: nat, b: nat, r: seq<Run>)
    requires s.c.page > 0 && UsageOk(s) && OwnersOk(s) && b < |s.usage| && s.owner[b] == Nobody && b !in s.large
    ensures UsageOk(TookLarge(s, n, b, r))
  {
    hide Canonical, Free;
    var u := TookLarge(s, n, b, r);
    assert forall z :: ZoneAt(u, z) == ZoneAt(s, z);
  }

  /** No live block starts in a page that nobody holds. */
  lemma FreshAddress(s: State, a: nat)
    requires s.c.page > 0 && LiveOk(s) && PageOf(s.c, a) < |s.owner| && s.owner[PageOf(s.c, a)] == Nobody
    ensures a !in s.live
  {
    hide ZoneOk;
  }

  lemma TookLargeLive(s: State, n: nat, b: nat, r: seq<Run>)
    requires s.c.page > 0 && LiveOk(s) && b < |s.usage| == |s.owner| && n > 0 && b !in s.large
    requires forall p: nat :: Within(p, b, n) ==> p < |s.owner| && s.owner[p] == Nobody
    ensures b * s.c.page !in s.live && LiveOk(TookLarge(s, n, b, r))
  {
    hide ZoneOk, ZonesOk, Free, PageOf;
    PageOfBlock(s.c, b);
    assert Within(b, b, n);
    FreshAddress(s, b * s.c.page);
    var u := TookLarge(s, n, b, r);
    assert BlocksLive(u) by {
      hide PiecesOk, ChunksLive;
      forall x | x in s.large
        ensures x * s.c.page != b * s.c.page
      {
        PageOfBlock(s.c, x);
      }
    }
    assert u.taken == s.taken && u.zones == s.zones;
    assert ChunksLive(u) by { hide PiecesOk, BlocksLive, TookLarge; }
    assert PiecesOk(u) by {
      hide BlocksLive, ChunksLive;
      TookLargePieces(s, n, b, r);
    }
    assert ZonesOk(u) by { SameZones(s, u); }
  }

  lemma KeysAgree(s: State)
    requires ZonesOk(s)
    ensures s.zones.Keys == s.taken.Keys
  {}

  lemma SameZones(s: State, u: State)
    requires ZonesOk(s) && u.zones == s.zones && u.taken == s.taken && u.c == s.c
    ensures ZonesOk(u)
  {
    hide ZoneOk;
  }

  lemma TookLargePieces(s: State, n: nat, b: nat, r: seq<Run>)
    requires s.c.page > 0 && PiecesOk(s) && b < |s.usage| == |s.owner| && n > 0 && b !in s.large
    requires forall p: nat :: Within(p, b, n) ==> p < |s.owner| && s.owner[p] == Nobody
    ensures PiecesOk(TookLarge(s, n, b, r))
  {
    hide PageOf;
    var u := TookLarge(s, n, b, r);
    PageOfBlock(s.c, b);
    assert Within(b, b, n);
    forall a | a in u.live
      ensures PageOf(s.c, a) < |u.owner| && u.owner[PageOf(s.c, a)] == OwnerOf(u.live[a].home) && HomeOk(u, a, u.live[a].home)
    {
      if a != b * s.c.page {
        assert s.owner[PageOf(s.c, a)] != Nobody;
        assert HomeOk(s, a, s.live[a].home);
      }
    }
  }

  lemma PageOfBlock(c: Config, b: nat)
    requires c.page > 0
    ensures PageOf(c, b * c.page) == b
  {
    MulMod(b, c.page);
  }

  lemma TookLargeCore(s: State, n: nat)
    requires Core(s) && n > 0 && TakePages(s.runs, n).0.At?
    ensures var (f, r) := TakePages(s.runs, n);
      f.page < |s.usage| && f.page * s.c.page !in s.live && Core(TookLarge(s, n, f.page, r))
  {
    hide OwnersOk, UsageOk, LiveOk, TakePages, Sum, ArraysOk, TookLarge;
    var (f, r) := TakePages(s.runs, n);
    var b := f.page;
    UsageLength(s);
    FoundPages(s, n);
    TookLargeOwners(s, n);
    assert Within(b, b, n);
    TookLargeUsage(s, n, b, r);
    TookLargeLive(s, n, b, r);
    TookLargeRest(s, n, b, r);
  }

  lemma UsageLength(s: State)
    requires s.c.page > 0 && OwnersOk(s)
    ensures |s.usage| == |s.owner|
  {
    hide Canonical, Free;
  }

  lemma TookLargeRest(s: State, n: nat, b: nat, r: seq<Run>)
    requires ArraysOk(s) && SumOk(s) && b < |s.usage| && b * s.c.page !in s.live
    ensures ArraysOk(TookLarge(s, n, b, r)) && SumOk(TookLarge(s, n, b, r)) && TookLarge(s, n, b, r).c == s.c
  {
    hide Sum;
    SumWith(s.live, b * s.c.page, Piece(n * s.c.page, Whole(b)));
  }

  lemma PutLargeOwners(s: State, b: nat)
    requires s.c.page > 0 && OwnersOk(s) && b in s.large
    ensures b < |s.usage| && NoneFree(s.runs, b, s.large[b]) && OwnersOk(PutLarge(s, b))
  {
    hide Canonical, Free, PutPages;
    var n := s.large[b];
    assert forall p: nat :: Within(p, b, n) ==> p < |s.owner| && s.owner[p] == Block(b);
    PutAddsExactly(s.runs, b, n);
    var u := PutLarge(s, b);
    assert forall z :: ZoneAt(u, z) == ZoneAt(s, z);
  }

  lemma PutLargeUsage(s: State, b: nat)
    requires s.c.page > 0 && UsageOk(s) && OwnersOk(s) && b in s.large && b < |s.usage|
    ensures UsageOk(PutLarge(s, b))
  {
    hide Canonical, Free;
    var u := PutLarge(s, b);
    assert Within(b, b, s.large[b]);
    assert forall z :: ZoneAt(u, z) == ZoneAt(s, z);
  }

  lemma PutLargeLive(s: State, b: nat)
    requires s.c.page > 0 && LiveOk(s) && OwnersOk(s) && b in s.large && b < |s.usage|
    ensures b * s.c.page in s.live && s.live[b * s.c.page].size == s.large[b] * s.c.page && LiveOk(PutLarge(s, b))
  {
    hide ZoneOk, ZonesOk, OwnersOk, PageOf, PutPages;
    var u := PutLarge(s, b);
    assert BlocksLive(u) by {
      hide PiecesOk, ChunksLive;
      PageOfBlock(s.c, b);
      forall x | x in u.large
        ensures x * s.c.page in u.live
      {
        PageOfBlock(s.c, x);
      }
    }
    assert u.taken == s.taken && u.zones == s.zones && u.live == s.live - {b * s.c.page};
    assert ChunksLive(u) by {
      hide PiecesOk, PutLarge;
      assert s.live[b * s.c.page].home == Whole(b);
    }
    assert PiecesOk(u) by {
      hide ChunksLive, BlocksLive;
      PutLargePieces(s, b);
    }
    assert ZonesOk(u) by { SameZones(s, u); }
  }

  lemma PutLargePieces(s: State, b: nat)
    requires s.c.page > 0 && PiecesOk(s) && OwnersOk(s) && b in s.large && b < |s.usage|
    ensures PiecesOk(PutLarge(s, b))
  {
    hide Canonical, Free, PageOf, PutPages;
    var u := PutLarge(s, b);
    var n := s.large[b];
    assert forall p: nat :: Within(p, b, n) && p < |s.owner| ==> s.owner[p] == Block(b);
    forall a | a in u.live
      ensures u.owner[PageOf(s.c, a)] == OwnerOf(s.live[a].home) && HomeOk(u, a, s.live[a].home)
    {
      assert HomeOk(s, a, s.live[a].home);
    }
  }

  lemma PutLargeCore(s: State, b: nat)
    requires Core(s) && b in s.large
    ensures b < |s.usage| && b * s.c.page in s.live && Core(PutLarge(s, b))
  {
    hide OwnersOk, UsageOk, LiveOk, PutPages;
    PutLargeOwners(s, b);
    PutLargeUsage(s, b);
    PutLargeLive(s, b);
    SumWithout(s.live, b * s.c.page);
  }

  // ---- the steps keep the invariant: idle zones ----------------------------------------------------

  lemma AcquiredOwners(s: State)
    requires s.c.page > 0 && OwnersOk(s) && s.c.ZonePages() > 0 && TakePages(s.runs, s.c.ZonePages()).0.At?
    ensures var (f, r) := TakePages(s.runs, s.c.ZonePages()); !ZoneAt(s, f.page) && OwnersOk(Acquired(s, f.page, r))
  {
    hide Canonical, Free, TakePages;
    var zp := s.c.ZonePages();
    FoundPages(s, zp);
    var (f, r) := TakePages(s.runs, zp);
    var z := f.page;
    assert Within(z, z, zp);
    FreshPage(s, z);
    var u := Acquired(s, z, r);
    assert forall x :: ZoneAt(u, x) == (ZoneAt(s, x) || x == z);
  }

  lemma AcquiredUsage(s: State, z: nat, r: seq<Run>)
    requires s.c.page > 0 && UsageOk(s) && OwnersOk(s) && !ZoneAt(s, z)
    requires forall p: nat :: Within(p, z, s.c.ZonePages()) ==> p < |s.owner| && s.owner[p] == Nobody
    ensures UsageOk(Acquired(s, z, r))
  {
    hide Canonical, Free;
    var u := Acquired(s, z, r);
    assert forall x :: ZoneAt(u, x) == (ZoneAt(s, x) || x == z);
    forall b | b in s.large && b < |s.usage|
      ensures u.usage[b] == s.usage[b]
    {
      assert Within(b, b, s.large[b]);
      assert s.owner[b] == Block(b);
    }
  }

  lemma AcquiredLive(s: State, z: nat, r: seq<Run>)
    requires s.c.page > 0 && LiveOk(s)
    requires forall p: nat :: Within(p, z, s.c.ZonePages()) ==> p < |s.owner| && s.owner[p] == Nobody
    ensures LiveOk(Acquired(s, z, r))
  {
    hide ZoneOk, PageOf, ZonesOk;
    var u := Acquired(s, z, r);
    SameZones(s, u);
    assert u.taken == s.taken && u.zones == s.zones && u.live == s.live && u.large == s.large;
    assert ChunksLive(u) && BlocksLive(u);
    forall a | a in s.live
      ensures u.owner[PageOf(s.c, a)] == OwnerOf(s.live[a].home)
    {
      assert s.owner[PageOf(s.c, a)] != Nobody;
      assert HomeOk(s, a, s.live[a].home);
    }
  }

  lemma ZonePagesPositive(c: Config)
    requires c.Ok()
    ensures c.ZonePages() > 0
  {
    assert c.zoneSize == c.ZonePages() * c.page;
  }

  lemma AcquiredCore(s: State)
    requires Core(s) && TakePages(s.runs, s.c.ZonePages()).0.At?
    ensures var (f, r) := TakePages(s.runs, s.c.ZonePages());
      var u := Acquired(s, f.page, r);
      Core(u) && u.idle == [f.page] + s.idle
  {
    hide OwnersOk, UsageOk, LiveOk, TakePages;
    ZonePagesPositive(s.c);
    var (f, r) := TakePages(s.runs, s.c.ZonePages());
    FoundPages(s, s.c.ZonePages());
    AcquiredOwners(s);
    AcquiredUsage(s, f.page, r);
    AcquiredLive(s, f.page, r);
    var u := Acquired(s, f.page, r);
    assert Distinct(u.idle);
  }

  lemma DiscardedOwners(s: State)
    requires s.c.page > 0 && OwnersOk(s) && s.c.ZonePages() > 0 && s.idle != [] && Distinct(s.idle) && s.idle[0] !in s.zones
    ensures NoneFree(s.runs, s.idle[0], s.c.ZonePages()) && OwnersOk(Discarded(s))
  {
    hide Canonical, Free, PutPages;
    var z, zp := s.idle[0], s.c.ZonePages();
    assert ZoneAt(s, z);
    assert forall p: nat :: Within(p, z, zp) ==> p < |s.owner| && s.owner[p] == Zoned(z);
    PutAddsExactly(s.runs, z, zp);
    var u := Discarded(s);
    DropHead(s);
    hide ZoneAt;
  }

  lemma DropHead(s: State)
    requires s.c.page > 0 && s.idle != [] && Distinct(s.idle) && s.idle[0] !in s.zones
    ensures forall x :: ZoneAt(Discarded(s), x) == (ZoneAt(s, x) && x != s.idle[0])
  {
    hide PutPages;
    assert s.idle == [s.idle[0]] + s.idle[1..];
  }

  lemma DiscardedUsage(s: State)
    requires s.c.page > 0 && UsageOk(s) && OwnersOk(s) && s.idle != [] && Distinct(s.idle) && s.idle[0] !in s.zones
    ensures UsageOk(Discarded(s))
  {
    hide Canonical, Free, PutPages;
    var z, zp := s.idle[0], s.c.ZonePages();
    assert ZoneAt(s, z);
    var u := Discarded(s);
    DropHead(s);
    hide ZoneAt;
    forall x: nat, p: nat | ZoneAt(u, x) && Within(p, x, zp) && p < |u.usage|
      ensures u.usage[p] == Usage(KSmall, p - x)
    {
      assert s.owner[p] == Zoned(x);
      assert !Within(p, z, zp);
    }
    forall b | b in s.large && b < |s.usage|
      ensures u.usage[b] == s.usage[b]
    {
      assert Within(b, b, s.large[b]);
      assert s.owner[b] == Block(b);
    }
  }

  lemma DiscardedLive(s: State)
    requires s.c.page > 0 && LiveOk(s) && OwnersOk(s) && s.idle != [] && s.idle[0] !in s.zones
    ensures LiveOk(Discarded(s))
  {
    hide ZoneOk, PageOf, Canonical, Free, PutPages, ZonesOk, Mark;
    var u := Discarded(s);
    SameZones(s, u);
    assert u.taken == s.taken && u.zones == s.zones && u.live == s.live && u.large == s.large && u.c == s.c;
    assert ChunksLive(u) && BlocksLive(u) by { hide Discarded, PiecesOk, OwnersOk; }
    assert PiecesOk(u) by {
      hide ChunksLive, BlocksLive;
      DiscardedPieces(s);
    }
  }

  lemma DiscardedPieces(s: State)
    requires s.c.page > 0 && ZonesOk(s) && PiecesOk(s) && OwnersOk(s) && s.idle != [] && s.idle[0] !in s.zones
    ensures PiecesOk(Discarded(s))
  {
    hide ZoneOk, PageOf, Canonical, Free, PutPages, Mark, ZonesOk;
    var z, zp := s.idle[0], s.c.ZonePages();
    var u := Discarded(s);
    assert ZoneAt(s, z);
    KeysAgree(s);
    assert forall p: nat :: Within(p, z, zp) && p < |s.owner| ==> s.owner[p] == Zoned(z);
    forall a | a in s.live
      ensures u.owner[PageOf(s.c, a)] == OwnerOf(s.live[a].home)
    {
      assert HomeOk(s, a, s.live[a].home);
    }
  }

  lemma DiscardedCore(s: State)
    requires Core(s) && s.idle != []
    ensures Core(Discarded(s)) && Discarded(s).idle == s.idle[1..]
  {
    hide OwnersOk, UsageOk, LiveOk, PutPages;
    ZonePagesPositive(s.c);
    assert s.idle[0] in s.idle;
    DiscardedOwners(s);
    DiscardedUsage(s);
    DiscardedLive(s);
  }

  // ---- the steps keep the invariant: zones in use ---------------------------------------------------

  /** The usage table and the owners only depend on which zones there are. */
  lemma SamePlaces(s: State, u: State)
    requires s.c.page > 0 && OwnersOk(s) && UsageOk(s)
    requires u.c == s.c && u.runs == s.runs && u.usage == s.usage && u.owner == s.owner && u.large == s.large
    requires forall x :: ZoneAt(u, x) == ZoneAt(s, x)
    ensures OwnersOk(u) && UsageOk(u)
  {
    hide Canonical, Free, ZoneAt;
  }

  /** A chunk of a zone lies in a page of that zone, and no page of another holder. */
  lemma ChunkPage(s: State, z: nat, zn: Zone, taken: set<nat>, a: nat)
    requires s.c.Ok() && OwnersOk(s) && ZoneAt(s, z) && ZoneOk(s.c, z, zn, taken) && a in taken
    ensures PageOf(s.c, a) < |s.owner| && s.owner[PageOf(s.c, a)] == Zoned(z)
  {
    ChunkInside(s.c, z, zn, taken, a);
    assert zn.chunk > 0;
    hide Canonical, Free, ZoneOk;
    PageRange(s.c, z, a);
  }

  /** A live block in a page of zone `z` is a chunk of that zone. */
  lemma OnlyOwnChunks(s: State, z: nat, a: nat)
    requires s.c.page > 0 && LiveOk(s) && PageOf(s.c, a) < |s.owner| && s.owner[PageOf(s.c, a)] == Zoned(z) && a in s.live
    ensures s.live[a].home == InZone(z) && z in s.taken && a in s.taken[z]
  {
    hide ZonesOk, ChunksLive, BlocksLive, PageOf;
    assert HomeOk(s, a, s.live[a].home);
  }

  /** One zone hands out chunk `a`. */
  lemma GainChunk(s: State, u: State, z: nat, zn: Zone, a: nat)
    requires s.c.Ok() && OwnersOk(s) && LiveOk(s) && ZoneAt(s, z)
    requires u.c == s.c && u.owner == s.owner && u.large == s.large
    requires u.zones == s.zones[z := zn] && u.taken == s.taken[z := (if z in s.taken then s.taken[z] else {}) + {a}]
    requires u.live == s.live[a := Piece(zn.chunk, InZone(z))]
    requires z in s.taken ==> z in s.zones && a !in s.taken[z] && s.zones[z].chunk == zn.chunk
    requires ZoneOk(s.c, z, zn, u.taken[z])
    ensures a !in s.live && LiveOk(u)
  {
    hide OwnersOk, ZoneOk, PageOf, PiecesOk, BlocksLive, ChunksLive;
    ChunkPage(s, z, zn, u.taken[z], a);
    if a in s.live { OnlyOwnChunks(s, z, a); }
    assert ZonesOk(u);
    hide ZonesOk;
    assert PiecesOk(u) by { GainPieces(s, u, z, zn, a); }
    assert BlocksLive(u) by { GainBlocks(s, u, a); }
    assert ChunksLive(u) by { GainChunks(s, u, z, zn, a); }
  }

  lemma GainPieces(s: State, u: State, z: nat, zn: Zone, a: nat)
    requires s.c.page > 0 && PiecesOk(s) && PageOf(s.c, a) < |s.owner| && s.owner[PageOf(s.c, a)] == Zoned(z)
    requires u.c == s.c && u.owner == s.owner && u.large == s.large
    requires u.taken == s.taken[z := (if z in s.taken then s.taken[z] else {}) + {a}]
    requires u.live == s.live[a := Piece(zn.chunk, InZone(z))]
    ensures PiecesOk(u)
  {
    hide PageOf;
    forall x | x in u.live
      ensures HomeOk(u, x, u.live[x].home)
    {
      if x != a { assert HomeOk(s, x, s.live[x].home); }
    }
  }

  lemma GainBlocks(s: State, u: State, a: nat)
    requires BlocksLive(s) && u.c == s.c && u.large == s.large && a !in s.live && a in u.live && u.live == s.live[a := u.live[a]]
    ensures BlocksLive(u)
  {}

  lemma GainChunks(s: State, u: State, z: nat, zn: Zone, a: nat)
    requires ChunksLive(s) && a !in s.live
    requires u.zones == s.zones[z := zn] && u.taken == s.taken[z := (if z in s.taken then s.taken[z] else {}) + {a}]
    requires u.live == s.live[a := Piece(zn.chunk, InZone(z))]
    requires z in s.taken ==> z in s.zones && s.zones[z].chunk == zn.chunk
    ensures ChunksLive(u)
  {}

  lemma ActivatedCore(s: State, zi: nat)
    requires Core(s) && s.idle != [] && zi < NZONES && ChunkOf(zi) <= s.c.limit
    ensures CanActivate(s, zi) && Core(Activated(s, zi)) && Activated(s, zi).idle == s.idle[1..] && Activated(s, zi).c == s.c
    ensures FirstChunk(s, zi) !in s.live && Activated(s, zi).live == s.live[FirstChunk(s, zi) := Piece(ChunkOf(zi), InZone(s.idle[0]))]
  {
    hide OwnersOk, UsageOk, LiveOk, Sum, ChunkOf, Offset, NewZone, ZoneOk;
    var z := s.idle[0];
    NewZoneOk(s.c, z, zi);
    NewZoneIs(s.c, z, zi);
    var zn := NewZone(s.c, z, zi);
    var u := Activated(s, zi);
    assert z in s.idle && z !in s.zones;
    assert s.idle == [z] + u.idle;
    assert forall x :: ZoneAt(u, x) == ZoneAt(s, x);
    SamePlaces(s, u);
    LiveKeys(s);
    assert {} + {zn.base} == {zn.base};
    GainChunk(s, u, z, zn, zn.base);
    SumWith(s.live, zn.base, Piece(zn.chunk, InZone(z)));
    ActivatedArrays(s, zi);
  }

  /** The first chunk of the zone that the first idle one becomes. */
  function FirstChunk(s: State, zi: nat): nat
    requires CanActivate(s, zi)
  {
    NewZone(s.c, s.idle[0], zi).base
  }

  lemma NewZoneIs(c: Config, z: nat, zi: nat)
    requires ChunkOf(zi) > 0 && Offset(c, ChunkOf(zi)) <= c.zoneSize && (c.zoneSize - Offset(c, ChunkOf(zi))) / ChunkOf(zi) > 0
    ensures NewZone(c, z, zi).zi == zi && NewZone(c, z, zi).chunk == ChunkOf(zi)
  {}

  lemma LiveKeys(s: State)
    requires s.c.page > 0 && LiveOk(s)
    ensures s.zones.Keys == s.taken.Keys
  {}

  lemma ActivatedArrays(s: State, zi: nat)
    requires CanActivate(s, zi) && ArraysOk(s) && NewZone(s.c, s.idle[0], zi).nfree > 0
    ensures ArraysOk(Activated(s, zi))
  {
    hide Offset, ChunkOf;
    var z := s.idle[0];
    var u := Activated(s, zi);
    assert z in s.idle && z !in s.zones;
    assert z !in s.arrays[zi];
    assert s.idle == [z] + u.idle;
    hide NewZone;
    NewZoneIs(s.c, z, zi);
  }

  lemma ArrayHead(s: State, zi: nat)
    requires Core(s) && zi < NZONES && s.arrays[zi] != []
    ensures CanCarve(s, zi) && s.zones[s.arrays[zi][0]].zi == zi
    ensures ZoneOk(s.c, s.arrays[zi][0], s.zones[s.arrays[zi][0]], s.taken[s.arrays[zi][0]])
  {
    hide OwnersOk, UsageOk, Sum, Limit, ChunkOf, SumOk;
    var z := s.arrays[zi][0];
    assert z in s.arrays[zi];
    assert ZonesOk(s);
    hide ArraysOk;
    CarvedZoneOk(s.c, z, s.zones[z], s.taken[z]);
  }

  lemma HandedCore(s: State, zi: nat)
    requires Core(s) && zi < NZONES && s.arrays[zi] != []
    ensures CanCarve(s, zi) && Core(Handed(s, zi)) && Handed(s, zi).idle == s.idle && Handed(s, zi).c == s.c
    ensures var z := s.arrays[zi][0];
      var a := CarvedZone(s.zones[z]).0;
      a !in s.live && Handed(s, zi).live == s.live[a := Piece(s.zones[z].chunk, InZone(z))]
  {
    hide OwnersOk, UsageOk, LiveOk, Sum, ZoneOk, CarvedZone;
    ArrayHead(s, zi);
    var z := s.arrays[zi][0];
    CarvedZoneOk(s.c, z, s.zones[z], s.taken[z]);
    var (a, zn) := CarvedZone(s.zones[z]);
    var u := Handed(s, zi);
    assert forall x :: ZoneAt(u, x) == ZoneAt(s, x);
    SamePlaces(s, u);
    GainChunk(s, u, z, zn, a);
    SumWith(s.live, a, Piece(zn.chunk, InZone(z)));
    HandedArrays(s, zi);
  }

  lemma HandedArrays(s: State, zi: nat)
    requires ArraysOk(s) && CanCarve(s, zi)
    requires var z := s.arrays[zi][0]; var (a, zn) := CarvedZone(s.zones[z]); zn.zi == s.zones[z].zi == zi && zn.nfree == s.zones[z].nfree - 1
    ensures ArraysOk(Handed(s, zi))
  {
    hide CarvedZone;
    var u := Handed(s, zi);
    var z := s.arrays[zi][0];
    assert s.arrays[zi] == [z] + s.arrays[zi][1..];
    assert forall x :: x in s.idle ==> x !in u.zones;
  }

  lemma ChunkKnown(s: State, a: nat)
    requires Core(s) && a in s.live && s.live[a].home.InZone?
    ensures var z := s.live[a].home.z;
      && z in s.zones && z in s.taken && a in s.taken[z] && ZoneOk(s.c, z, s.zones[z], s.taken[z])
      && s.zones[z].chunk == s.live[a].size && s.zones[z].zi < |s.arrays|
  {
    hide OwnersOk, UsageOk, Sum, SumOk, BlocksLive, PageOf;
    assert HomeOk(s, a, s.live[a].home);
    var z := s.live[a].home.z;
    ZiInRange(s.c, z, s.zones[z], s.taken[z]);
    hide ZoneOk;
  }

  lemma ZiInRange(c: Config, z: nat, zn: Zone, taken: set<nat>)
    requires ZoneOk(c, z, zn, taken)
    ensures zn.zi < NZONES && zn.nmax >= 2 && zn.chunk > 0
  {}

  lemma ReturnedCore(s: State, a: nat)
    requires Core(s) && a in s.live && s.live[a].home.InZone?
    ensures var z := s.live[a].home.z;
      && z in s.zones && z in s.taken && s.zones[z].zi < |s.arrays| && Core(Returned(s, z, a))
      && Returned(s, z, a).idle == s.idle
      && (Returned(s, z, a).zones[z].nfree == s.zones[z].nmax <==> Returned(s, z, a).taken[z] == {})
  {
    hide OwnersOk, UsageOk, LiveOk, Sum, ZoneOk;
    ChunkKnown(s, a);
    var z := s.live[a].home.z;
    ReturnedZoneOk(s.c, z, s.zones[z], s.taken[z], a);
    var u := Returned(s, z, a);
    assert forall x :: ZoneAt(u, x) == ZoneAt(s, x);
    SamePlaces(s, u);
    LoseChunk(s, u, z, a);
    SumWithout(s.live, a);
    ReturnedArrays(s, z, a);
    assert s.taken[z] == {a} <==> s.taken[z] - {a} == {};
  }

  lemma LoseChunk(s: State, u: State, z: nat, a: nat)
    requires s.c.page > 0 && LiveOk(s) && z in s.zones && z in s.taken && a in s.taken[z]
    requires u.c == s.c && u.owner == s.owner && u.large == s.large && u.live == s.live - {a}
    requires u.zones == s.zones[z := ReturnedZone(s.zones[z], a)] && u.taken == s.taken[z := s.taken[z] - {a}]
    requires ZoneOk(s.c, z, u.zones[z], u.taken[z])
    ensures LiveOk(u)
  {
    hide ZoneOk, PageOf;
    assert s.live[a] == Piece(s.zones[z].chunk, InZone(z));
    assert ZonesOk(u) by { hide ChunksLive, BlocksLive, PiecesOk; }
    hide ZonesOk;
    assert BlocksLive(u) by { hide ChunksLive, PiecesOk; }
    assert ChunksLive(u) by { hide BlocksLive, PiecesOk; LoseChunks(s, u, z, a); }
    assert PiecesOk(u) by {
      hide BlocksLive;
      forall x | x in u.live
        ensures HomeOk(u, x, u.live[x].home)
      {
        assert HomeOk(s, x, s.live[x].home);
      }
    }
  }

  lemma LoseChunks(s: State, u: State, z: nat, a: nat)
    requires ChunksLive(s) && z in s.zones && z in s.taken && a in s.taken[z] && u.live == s.live - {a}
    requires u.zones == s.zones[z := ReturnedZone(s.zones[z], a)] && u.taken == s.taken[z := s.taken[z] - {a}]
    ensures ChunksLive(u)
  {}

  lemma ReturnedArrays(s: State, z: nat, a: nat)
    requires ArraysOk(s) && z in s.zones && z in s.taken && s.zones[z].zi < |s.arrays|
    ensures ArraysOk(Returned(s, z, a))
  {
    var u := Returned(s, z, a);
    assert forall x :: x in s.idle ==> x !in u.zones;
  }

  lemma RetiredCore(s: State, z: nat)
    requires Core(s) && z in s.zones && z in s.taken && s.taken[z] == {} && s.zones[z].zi < |s.arrays|
    ensures Core(Retired(s, z)) && Retired(s, z).idle == [z] + s.idle && Retired(s, z).live == s.live
  {
    hide OwnersOk, UsageOk, LiveOk, Sum, Minus;
    var u := Retired(s, z);
    assert forall x :: ZoneAt(u, x) == ZoneAt(s, x);
    SamePlaces(s, u);
    RetiredLive(s, z);
    RetiredArrays(s, z);
  }

  lemma RetiredLive(s: State, z: nat)
    requires s.c.page > 0 && LiveOk(s) && z in s.zones && z in s.taken && s.taken[z] == {} && s.zones[z].zi < |s.arrays|
    ensures LiveOk(Retired(s, z))
  {
    hide ZoneOk, PageOf, Minus;
    var u := Retired(s, z);
    forall x | x in u.live
      ensures HomeOk(u, x, u.live[x].home)
    {
      assert HomeOk(s, x, s.live[x].home);
    }
    assert ChunksLive(u);
  }

  lemma RetiredArrays(s: State, z: nat)
    requires ArraysOk(s) && z in s.zones && s.zones[z].zi < |s.arrays|
    ensures ArraysOk(Retired(s, z))
  {
    hide Minus;
    MinusMembers(s.arrays[s.zones[z].zi], z);
    assert z !in s.idle;
  }

  // ---- alloc and free -------------------------------------------------------------------------------

  datatype Ptr = Null | To(a: nat)

  /** Pages for a request that goes to the page list; 0 if rounding up wraps around. */
  function LargePages(c: Config, size: nat, word: nat): nat
    requires c.page > 0 && word > 0
  {
    AlignUp(size, c.page, word) / c.page
  }

  function FindPages(s: State, n: nat): Found {
    if n == 0 then Nothing else TakePages(s.runs, n).0
  }

  /** A request of at least zone_limit bytes. */
  function AllocLarge(s: State, n: nat): (Ptr, State)
    requires Core(s)
  {
    if FindPages(s, n) == Nothing then (Null, s)
    else
      TookLargeCore(s, n);
      var (f, r) := TakePages(s.runs, n);
      (To(f.page * s.c.page), TookLarge(s, n, f.page, r))
  }

  lemma ActivateAllowed(s: State, zi: nat)
    requires Core(s) && s.idle != [] && zi < NZONES && ChunkOf(zi) <= s.c.limit
    ensures CanActivate(s, zi)
  {
    hide OwnersOk, UsageOk, LiveOk, ChunkOf, Offset, NewZone, ZoneOk, SumOk;
    NewZoneOk(s.c, s.idle[0], zi);
  }

  /** The first idle zone takes index `zi` and hands out its first chunk. */
  function AllocIdle(s: State, zi: nat): (Ptr, State)
    requires Core(s) && s.idle != [] && zi < NZONES && ChunkOf(zi) <= s.c.limit
  {
    ActivateAllowed(s, zi);
    (To(FirstChunk(s, zi)), Activated(s, zi))
  }

  /** A request below zone_limit, with zone index `zi`. */
  function AllocSmall(s: State, zi: nat): (Ptr, State)
    requires Core(s) && zi < NZONES && ChunkOf(zi) <= s.c.limit
  {
    if s.arrays[zi] != [] then
      HandedCore(s, zi);
      (To(CarvedZone(s.zones[s.arrays[zi][0]]).0), Handed(s, zi))
    else if s.idle != [] then AllocIdle(s, zi)
    else
      var (f, r) := TakePages(s.runs, s.c.ZonePages());
      if f == Nothing then (Null, s)
      else
        AcquiredCore(s);
        AllocIdle(Acquired(s, f.page, r), zi)
  }

  /** rt_slab_alloc on a machine whose addresses range over `word`. */
  function Alloc(s: State, size: nat, word: nat): (Ptr, State)
    requires Core(s) && word > 0
  {
    if size == 0 then (Null, s)
    else if size >= s.c.limit then AllocLarge(s, LargePages(s.c, size, word))
    else
      SmallClassLegal(s.c, size);
      AllocSmall(s, ZoneIndex(size).zi)
  }

  lemma SmallClassLegal(c: Config, size: nat)
    requires c.Ok() && 0 < size < c.limit
    ensures size < 0x4000
    ensures ZoneIndex(size).zi < NZONES && ChunkOf(ZoneIndex(size).zi) == ZoneIndex(size).chunk <= c.limit
    ensures size <= ZoneIndex(size).chunk
  {
    hide ZoneIndex, ChunkOf;
    assert size < 0x4000;
    ZoneIndexFits(size);
  }

  /** rt_slab_free of the live block at `a`. */
  function Freed(s: State, a: nat): State
    requires Core(s) && a in s.live
  {
    if s.live[a].home.Whole? then
      LiveWhole(s, a);
      FreeFindsBlock(s, a);
      PutLarge(s, s.live[a].home.b)
    else
      ReturnedCore(s, a);
      var z := s.live[a].home.z;
      var u := Returned(s, z, a);
      if u.zones[z].nfree == u.zones[z].nmax && |u.arrays[u.zones[z].zi]| > 1 then
        RetiredCore(u, z);
        var v := Retired(u, z);
        if |v.idle| > RELEASE_THRESHOLD then Discarded(v) else v
      else u
  }

  lemma LiveWhole(s: State, a: nat)
    requires Core(s) && a in s.live && s.live[a].home.Whole?
    ensures s.live[a].home.b in s.large && a == s.live[a].home.b * s.c.page
  {
    hide OwnersOk, UsageOk, ZonesOk, ChunksLive, BlocksLive, ArraysOk, SumOk, PageOf;
    assert HomeOk(s, a, s.live[a].home);
  }

  /** What an allocation does to the live blocks. */
  ghost predicate Gains(s: State, u: State, p: Ptr, size: nat) {
    if p == Null then u.live == s.live
    else p.a !in s.live && p.a in u.live && u.live[p.a].size >= size && u.live == s.live[p.a := u.live[p.a]]
  }

  /** The live block at `a` is a chunk of `k` bytes. */
  ghost predicate IsChunk(u: State, a: nat, k: nat) {
    a in u.live && u.live[a].home.InZone? && u.live[a].size == k
  }

  /** The live block at `a` consists of `n` pages. */
  ghost predicate IsWhole(u: State, a: nat, n: nat)
    requires u.c.page > 0
  {
    a in u.live && u.live[a] == Piece(n * u.c.page, Whole(PageOf(u.c, a))) && a % u.c.page == 0
  }

  /** No pages for a new zone, and no chunk of the class left. */
  ghost predicate NoRoom(s: State, zi: nat)
    requires zi < |s.arrays| && s.c.page > 0
  {
    s.arrays[zi] == [] && s.idle == [] && forall q: nat :: !AllFree(s.runs, q, s.c.ZonePages())
  }

  lemma AllocLargeIs(s: State, n: nat, size: nat)
    requires Inv(s) && size <= n * s.c.page
    ensures var (p, u) := AllocLarge(s, n);
      Inv(u) && Gains(s, u, p, size) && (p == Null ==> u == s)
      && (p == Null <==> n == 0 || forall q: nat :: !AllFree(s.runs, q, n))
    ensures var (p, u) := AllocLarge(s, n); u.c == s.c && (p != Null ==> IsWhole(u, p.a, n))
  {
    hide OwnersOk, UsageOk, LiveOk, ArraysOk, TakePages, Free;
    if n > 0 {
      RunsCanonical(s);
      TakeIsLowestFit(s.runs, n);
      if FindPages(s, n).At? {
        TookLargeCore(s, n);
        assert AllFree(s.runs, FindPages(s, n).page, n);
        MulMod(FindPages(s, n).page, s.c.page);
      }
    }
  }

  lemma RunsCanonical(s: State)
    requires Core(s)
    ensures Canonical(s.runs)
  {}

  lemma InvCore(s: State)
    requires Inv(s)
    ensures Core(s) && |s.idle| <= RELEASE_THRESHOLD
    ensures s.c.Ok() && |s.arrays| == NZONES
  {}

  lemma AllocIdleIs(s: State, zi: nat)
    requires Core(s) && s.idle != [] && zi < NZONES && ChunkOf(zi) <= s.c.limit
    ensures var (p, u) := AllocIdle(s, zi); Core(u) && Gains(s, u, p, ChunkOf(zi)) && p != Null && u.c == s.c && u.idle == s.idle[1..] && IsChunk(u, p.a, ChunkOf(zi))
  {
    hide OwnersOk, UsageOk, LiveOk, ArraysOk, ChunkOf, NewZone, Activated;
    ActivatedCore(s, zi);
  }

  lemma AllocSmallIs(s: State, zi: nat)
    requires Inv(s) && zi < NZONES && ChunkOf(zi) <= s.c.limit
    ensures var (p, u) := AllocSmall(s, zi);
      Inv(u) && Gains(s, u, p, ChunkOf(zi)) && (p == Null ==> u == s)
    ensures zi < |s.arrays| && (AllocSmall(s, zi).0 == Null <==> NoRoom(s, zi))
  {
    hide OwnersOk, UsageOk, LiveOk, ChunkOf, Handed, AllocIdle, TakePages, CarvedZone, Acquired, SumOk, Canonical;
    if s.arrays[zi] != [] {
      HandedCore(s, zi);
      ArrayHead(s, zi);
      ChunkOfZone(s.c, s.arrays[zi][0], s.zones[s.arrays[zi][0]], s.taken[s.arrays[zi][0]]);
    } else if s.idle != [] {
      AllocIdleIs(s, zi);
    } else {
      RunsCanonical(s);
      ZonePagesPositive(s.c);
      TakeIsLowestFit(s.runs, s.c.ZonePages());
      var (f, r) := TakePages(s.runs, s.c.ZonePages());
      if f.At? {
        assert AllFree(s.runs, f.page, s.c.ZonePages());
        AcquiredCore(s);
        AcquiredLiveSame(s, f.page, r);
        AllocIdleIs(Acquired(s, f.page, r), zi);
      }
    }
  }

  /** What a small request gets is a chunk of its class. */
  lemma AllocSmallChunk(s: State, zi: nat)
    requires Core(s) && zi < NZONES && ChunkOf(zi) <= s.c.limit
    ensures var (p, u) := AllocSmall(s, zi); u.c == s.c && (p != Null ==> IsChunk(u, p.a, ChunkOf(zi)))
  {
    InvArrays(s);
    hide Core, ChunkOf, Handed, AllocIdle, TakePages, CarvedZone, Acquired, IsChunk, CanCarve;
    if s.arrays[zi] != [] {
      HandedChunk(s, zi);
    } else if s.idle != [] {
      AllocIdleIs(s, zi);
    } else {
      if TakePages(s.runs, s.c.ZonePages()).0.At? { NewZoneChunk(s, zi); }
    }
  }

  lemma HandedChunk(s: State, zi: nat)
    requires Core(s) && zi < NZONES && s.arrays[zi] != []
    ensures CanCarve(s, zi) && Handed(s, zi).c == s.c
    ensures IsChunk(Handed(s, zi), CarvedZone(s.zones[s.arrays[zi][0]]).0, ChunkOf(zi))
  {
    HandedCore(s, zi);
    ArrayHead(s, zi);
    hide Core, ChunkOf, Handed, CarvedZone;
    ChunkOfZone(s.c, s.arrays[zi][0], s.zones[s.arrays[zi][0]], s.taken[s.arrays[zi][0]]);
  }

  lemma NewZoneChunk(s: State, zi: nat)
    requires Core(s) && zi < NZONES && ChunkOf(zi) <= s.c.limit && TakePages(s.runs, s.c.ZonePages()).0.At?
    ensures var (f, r) := TakePages(s.runs, s.c.ZonePages());
      var v := Acquired(s, f.page, r);
      Core(v) && v.c == s.c && v.idle != [] && var (p, u) := AllocIdle(v, zi); u.c == s.c && p != Null && IsChunk(u, p.a, ChunkOf(zi))
  {
    SmallLimit(s.c);
    hide Core, ChunkOf, AllocIdle, TakePages, Acquired;
    var (f, r) := TakePages(s.runs, s.c.ZonePages());
    AcquiredCore(s);
    AcquiredLiveSame(s, f.page, r);
    AllocIdleIs(Acquired(s, f.page, r), zi);
  }

  lemma InvArrays(s: State)
    requires Core(s)
    ensures s.c.Ok() && |s.arrays| == NZONES
  {}

  lemma ChunkOfZone(c: Config, z: nat, zn: Zone, taken: set<nat>)
    requires ZoneOk(c, z, zn, taken)
    ensures zn.chunk == ChunkOf(zn.zi)
  {}

  lemma AcquiredLiveSame(s: State, z: nat, r: seq<Run>)
    requires s.c.page > 0
    ensures Acquired(s, z, r).live == s.live && Acquired(s, z, r).c == s.c
  {}

  /**
   rt_slab_alloc returns a block of at least `size` bytes that was not live and changes no other
   block: a chunk of the request's class, or whole pages.  A request fails exactly if it is empty,
   or its number of pages overflows the word, or there is no run of free pages for it (or for a new
   zone, with no chunk of its class and no idle zone left).
   */
  lemma AllocIs(s: State, size: nat, word: nat)
    requires Inv(s) && 0 < s.c.page <= word && word % s.c.page == 0 && size < word
    ensures var (p, u) := Alloc(s, size, word);
      Inv(u) && Gains(s, u, p, size) && (p == Null ==> u == s)
    ensures var n := LargePages(s.c, size, word);
      size >= s.c.limit ==> (Alloc(s, size, word).0 == Null <==> size + s.c.page > word || forall q: nat :: !AllFree(s.runs, q, n))
    ensures var (p, u) := Alloc(s, size, word);
      p != Null ==> u.c == s.c && if size >= s.c.limit then IsWhole(u, p.a, LargePages(s.c, size, word)) else size < 0x4000 && IsChunk(u, p.a, ZoneIndex(size).chunk)
    ensures size == 0 ==> Alloc(s, size, word).0 == Null
    ensures 0 < size < s.c.limit ==>
      size < 0x4000 && ZoneIndex(size).zi < |s.arrays| && (Alloc(s, size, word).0 == Null <==> NoRoom(s, ZoneIndex(size).zi))
  {
    hide OwnersOk, UsageOk, LiveOk, ArraysOk, SumOk, ZoneIndex, AllocSmall, AllocLarge, ChunkOf, NoRoom, AlignUp, AllFree, IsWhole, IsChunk, Inv, Core, Config.Ok, LargePages;
    InvCore(s);
    SmallLimit(s.c);
    if size == 0 {
    } else if size >= s.c.limit {
      LargePagesHold(s.c, size, word);
      var n := LargePages(s.c, size, word);
      AllocLargeIs(s, n, if n == 0 then 0 else size);
    } else {
      SmallClassLegal(s.c, size);
      AllocSmallIs(s, ZoneIndex(size).zi);
      AllocSmallChunk(s, ZoneIndex(size).zi);
    }
  }

  lemma SmallLimit(c: Config)
    requires c.Ok()
    ensures 0 < c.limit <= 0x4000 && c.page > 0
  {}

  /** The pages of a large request hold it, unless rounding up wraps around: then there are none. */
  lemma LargePagesHold(c: Config, size: nat, word: nat)
    requires 0 < c.page <= word && word % c.page == 0 && 0 < size < word
    ensures LargePages(c, size, word) == 0 <==> size + c.page > word
    ensures size + c.page <= word ==> size <= LargePages(c, size, word) * c.page < size + c.page
  {
    AlignUpIsNextMultiple(size, c.page, word);
    hide AlignUp;
    var a := AlignUp(size, c.page, word);
    assert a == LargePages(c, size, word) * c.page;
  }

  // ---- where blocks come from and where they go --------------------------------------------------------

  /** The zone that serves a small request: the first of its list, else the first idle one, else a new one on the lowest free pages. */
  function ServingZone(s: State, zi: nat): nat
    requires s.c.page > 0 && zi < |s.arrays|
    requires s.arrays[zi] == [] && s.idle == [] ==> TakePages(s.runs, s.c.ZonePages()).0.At?
  {
    if s.arrays[zi] != [] then s.arrays[zi][0] else if s.idle != [] then s.idle[0] else TakePages(s.runs, s.c.ZonePages()).0.page
  }

  /** A small request takes nothing from the idle list while its own list has a zone, and no pages while there is an idle zone. */
  lemma AllocFrom(s: State, zi: nat)
    requires Core(s) && zi < NZONES && ChunkOf(zi) <= s.c.limit && AllocSmall(s, zi).0.To?
    ensures s.c.page > 0 && zi < |s.arrays| && (s.arrays[zi] == [] && s.idle == [] ==> TakePages(s.runs, s.c.ZonePages()).0.At?)
    ensures var (p, u) := AllocSmall(s, zi);
      && p.a in u.live && u.live[p.a].home == InZone(ServingZone(s, zi)) && ServingZone(s, zi) in u.zones
      && u.idle == (if s.arrays[zi] != [] then s.idle else if s.idle != [] then s.idle[1..] else [])
      && u.runs == (if s.arrays[zi] != [] || s.idle != [] then s.runs else TakePages(s.runs, s.c.ZonePages()).1)
  {
    hide Core, ChunkOf, Handed, AllocIdle, TakePages, CarvedZone, Acquired, CanCarve;
    InvArrays(s);
    SmallLimit(s.c);
    if s.arrays[zi] != [] {
      HandedFrom(s, zi);
    } else if s.idle != [] {
      IdleFrom(s, zi);
    } else {
      var (f, r) := TakePages(s.runs, s.c.ZonePages());
      AcquiredCore(s);
      AcquiredRuns(s, f.page, r);
      IdleFrom(Acquired(s, f.page, r), zi);
    }
  }

  lemma HandedFrom(s: State, zi: nat)
    requires Core(s) && zi < NZONES && s.arrays[zi] != []
    ensures CanCarve(s, zi)
    ensures var u, z := Handed(s, zi), s.arrays[zi][0];
      var a := CarvedZone(s.zones[z]).0;
      a in u.live && u.live[a].home == InZone(z) && z in u.zones && u.idle == s.idle && u.runs == s.runs
  {
    hide Core, CarvedZone;
    HandedCore(s, zi);
  }

  lemma IdleFrom(s: State, zi: nat)
    requires Core(s) && s.idle != [] && zi < NZONES && ChunkOf(zi) <= s.c.limit
    ensures var (p, u) := AllocIdle(s, zi);
      p.To? && p.a in u.live && u.live[p.a].home == InZone(s.idle[0]) && s.idle[0] in u.zones && u.idle == s.idle[1..] && u.runs == s.runs
  {
    hide Core, ChunkOf, NewZone, Offset;
    ActivatedCore(s, zi);
    ActivateAllowed(s, zi);
  }

  lemma AcquiredRuns(s: State, z: nat, r: seq<Run>)
    requires s.c.page > 0
    ensures Acquired(s, z, r).runs == r && Acquired(s, z, r).c == s.c && Acquired(s, z, r).arrays == s.arrays && Acquired(s, z, r).idle == [z] + s.idle
  {}

  /** `a` is the last live chunk of zone `z`, and the list of the zone holds another one. */
  ghost predicate Empties(s: State, z: nat, a: nat)
    requires z in s.zones && z in s.taken && s.zones[z].zi < |s.arrays|
  {
    s.taken[z] == {a} && exists y :: y in s.arrays[s.zones[z].zi] && y != z
  }

  /** The free pages of `u` are those of `s` and `n` pages at `b`. */
  ghost predicate GivesBack(s: State, u: State, b: nat, n: nat) {
    forall p: nat :: Free(u.runs, p) <==> Free(s.runs, p) || Within(p, b, n)
  }

  /**
   What rt_slab_free does with the zone of a chunk.  A zone that is empty now leaves its list if another
   zone stands there; it waits on the idle list, or gives its pages back if two zones wait already.
   Any other zone stays where it is, at hand for the next request of its class.
   */
  lemma FreedZone(s: State, a: nat)
    requires Inv(s) && a in s.live && s.live[a].home.InZone?
    ensures s.c.page > 0
    ensures var z, u := s.live[a].home.z, Freed(s, a);
      && z in s.zones && z in s.taken && s.zones[z].zi < |s.arrays| && |u.arrays| == |s.arrays|
      && (forall y :: y in s.zones && y != z ==> y in u.zones && u.zones[y] == s.zones[y])
      && (!Empties(s, z, a) ==>
        z in u.zones && u.zones[z].nfree == s.zones[z].nfree + 1 && z in u.arrays[s.zones[z].zi] && u.idle == s.idle && u.runs == s.runs)
      && (Empties(s, z, a) ==> z !in u.zones && forall i :: 0 <= i < |u.arrays| ==> z !in u.arrays[i])
      && (Empties(s, z, a) && |s.idle| < RELEASE_THRESHOLD ==> u.idle == [z] + s.idle && u.runs == s.runs)
      && (Empties(s, z, a) && |s.idle| == RELEASE_THRESHOLD ==> u.idle == s.idle && GivesBack(s, u, z, s.c.ZonePages()))
  {
    hide Inv, Core, Returned, Retired, Discarded, Empties, Free, ZoneAt;
    InvCore(s);
    SmallLimit(s.c);
    FreedIs(s, a);
    InvCore(Freed(s, a));
    ReturnedCore(s, a);
    var z := s.live[a].home.z;
    var u := Returned(s, z, a);
    ReturnedPlace(s, z, a);
    if Empties(s, z, a) {
      RetiredCore(u, z);
      RetiredPlace(u, z);
      var v := Retired(u, z);
      if |v.idle| > RELEASE_THRESHOLD { DiscardedPlace(v); }
      Unlisted(Freed(s, a), z);
    } else {
      Listed(u, z);
    }
  }

  lemma ReturnedPlace(s: State, z: nat, a: nat)
    requires Core(s) && a in s.live && s.live[a].home == InZone(z) && z in s.zones && z in s.taken && s.zones[z].zi < |s.arrays|
    ensures var u := Returned(s, z, a);
      && u.c == s.c && u.runs == s.runs && u.idle == s.idle && |u.arrays| == |s.arrays| && z in u.zones && z in u.taken
      && u.zones[z].nfree == s.zones[z].nfree + 1 && u.zones[z].zi == s.zones[z].zi && u.zones[z].nmax == s.zones[z].nmax
      && u.taken[z] == s.taken[z] - {a}
      && (forall y :: y in s.zones && y != z ==> y in u.zones && u.zones[y] == s.zones[y])
      && (Empties(s, z, a) <==> u.zones[z].nfree == u.zones[z].nmax && |u.arrays[u.zones[z].zi]| > 1)
  {
    hide Core, ZoneOk;
    ReturnedCore(s, a);
    ChunkKnown(s, a);
    var u := Returned(s, z, a);
    Listed(u, z);
    ListOfTwo(u.arrays[u.zones[z].zi], z);
    ZoneLists(s);
  }

  /** A zone with a free chunk stands in the list of its index. */
  lemma Listed(s: State, z: nat)
    requires Core(s) && z in s.zones && s.zones[z].zi < |s.arrays| && s.zones[z].nfree > 0
    ensures z in s.arrays[s.zones[z].zi] && Distinct(s.arrays[s.zones[z].zi])
  {
    hide OwnersOk, UsageOk, LiveOk, SumOk;
  }

  lemma Unlisted(s: State, z: nat)
    requires Core(s) && z !in s.zones
    ensures forall i :: 0 <= i < |s.arrays| ==> z !in s.arrays[i]
  {
    hide OwnersOk, UsageOk, LiveOk, SumOk;
  }

  lemma ZoneLists(s: State)
    requires Core(s)
    ensures forall i, z :: 0 <= i < |s.arrays| ==> (z in s.arrays[i] <==> z in s.zones && s.zones[z].zi == i && s.zones[z].nfree > 0)
  {
    hide OwnersOk, UsageOk, LiveOk, SumOk;
  }

  lemma ListOfTwo(q: seq<nat>, z: nat)
    requires Distinct(q) && z in q
    ensures |q| > 1 <==> exists y :: y in q && y != z
  {
    if |q| > 1 {
      assert q[0] in q && q[1] in q && q[0] != q[1];
    } else {
      assert q == [q[0]];
    }
  }

  lemma RetiredPlace(s: State, z: nat)
    requires z in s.zones && s.zones[z].zi < |s.arrays|
    ensures var u := Retired(s, z);
      && u.c == s.c && u.runs == s.runs && u.idle == [z] + s.idle && |u.arrays| == |s.arrays| && u.zones == s.zones - {z}
  {}

  lemma DiscardedPlace(s: State)
    requires Core(s) && s.idle != []
    ensures s.c.page > 0
    ensures var u := Discarded(s);
      && u.c == s.c && u.idle == s.idle[1..] && |u.arrays| == |s.arrays| && u.zones == s.zones && GivesBack(s, u, s.idle[0], s.c.ZonePages())
  {
    hide UsageOk, LiveOk, SumOk, PutPages, Free, Canonical;
    ZonePagesPositive(s.c);
    assert s.idle[0] in s.idle;
    DiscardedOwners(s);
    RunsCanonical(s);
    PutAddsExactly(s.runs, s.idle[0], s.c.ZonePages());
  }

  /** Freeing a large block gives exactly its pages back and leaves the zones alone. */
  lemma FreedPages(s: State, a: nat)
    requires Inv(s) && a in s.live && s.live[a].home.Whole?
    ensures var b, u := s.live[a].home.b, Freed(s, a);
      && b in s.large && s.large[b] > 0 && GivesBack(s, u, b, s.large[b]) && b !in u.large
      && u.zones == s.zones && u.arrays == s.arrays && u.idle == s.idle
  {
    hide UsageOk, LiveOk, SumOk, PutPages, Free, Canonical, ArraysOk;
    LiveWhole(s, a);
    PutLargeOwners(s, s.live[a].home.b);
    RunsCanonical(s);
    FreeFindsBlock(s, a);
    PutAddsExactly(s.runs, s.live[a].home.b, s.large[s.live[a].home.b]);
  }

  // ---- alignment -------------------------------------------------------------------------------------

  /** In a heap that starts at `heap`, the block at `a` is aligned to `n`. */
  predicate AlignedAt(heap: nat, a: nat, n: nat)
    requires n > 0
  {
    (heap + a) % n == 0
  }

  /** The block is aligned to `n` wherever the heap starts, as long as it starts at a page. */
  ghost predicate AlignedInAll(page: nat, a: nat, n: nat)
    requires page > 0 && n > 0
  {
    forall heap: nat :: heap % page == 0 ==> AlignedAt(heap, a, n)
  }

  lemma AlignedInAllIff(page: nat, a: nat, n: nat)
    requires page > 0 && n > 0
    ensures AlignedInAll(page, a, n) <==> a % n == 0 && page % n == 0
  {
    if a % n == 0 && page % n == 0 {
      forall heap: nat | heap % page == 0
        ensures AlignedAt(heap, a, n)
      {
        DivisorOf(heap, page, n);
        AddMod(heap, a, n);
      }
    }
    if AlignedInAll(page, a, n) {
      DivUnique(page, page, 1, 0);
      assert AlignedAt(0, a, n) && AlignedAt(page, a, n);
      SubMod(page + a, a, n);
    }
  }

  /**
   Power-of-two sized allocations are power-of-two aligned, as slab.c:101-103 promises, exactly up
   to the page size: a block for a larger request is aligned to its size in some page-aligned heaps
   only.
   */
  lemma AllocAligned(s: State, size: nat, word: nat)
    requires Inv(s) && 0 < s.c.page <= word && word % s.c.page == 0 && size < word && PowerOfTwo(s.c.page) && PowerOfTwo(size)
    requires Alloc(s, size, word).0.To?
    ensures size > 0 && (AlignedInAll(s.c.page, Alloc(s, size, word).0.a, size) <==> size <= s.c.page)
  {
    hide Core, Alloc, PowerOfTwo, Config.Ok, AlignedInAll;
    if size <= s.c.page {
      AlignedToPages(s, size, word);
    } else {
      DivUnique(s.c.page, size, 0, s.c.page);
    }
    AlignedInAllIff(s.c.page, Alloc(s, size, word).0.a, size);
  }

  lemma AlignedToPages(s: State, size: nat, word: nat)
    requires Inv(s) && 0 < s.c.page <= word && word % s.c.page == 0 && size < word && PowerOfTwo(s.c.page) && PowerOfTwo(size)
    requires Alloc(s, size, word).0.To? && size <= s.c.page
    ensures size > 0 && s.c.page % size == 0 && Alloc(s, size, word).0.a % size == 0
  {
    hide OwnersOk, UsageOk, LiveOk, ArraysOk, SumOk, ZoneIndex, Alloc, LargePages, PowerOfTwo, NoRoom, AllFree, ZoneOk, Gains, PageOf;
    AllocIs(s, size, word);
    var (p, u) := Alloc(s, size, word);
    PowerDivides(size, s.c.page);
    if size >= s.c.limit {
      DivisorOf(p.a, s.c.page, size);
    } else {
      PowerClass(size);
      ChunkKnown(u, p.a);
      var z := u.live[p.a].home.z;
      ChunkAligned(u.c, z, u.zones[z], u.taken[z], p.a, size);
    }
  }

  /** The first request for two pages after rt_slab_init: one page is the usage table, so the block is not aligned. */
  lemma AlignmentPromiseFails()
    ensures var c := Config(0x1000, 0x8000, 0x2000, 64);
      && c.Ok() && Inv(Initial(c, 16, 1)) && PowerOfTwo(c.page) && PowerOfTwo(8192)
      && Alloc(Initial(c, 16, 1), 8192, 0x1_0000_0000).0 == To(0x1000) && !AlignedAt(0, 0x1000, 8192)
  {
    var c := Config(0x1000, 0x8000, 0x2000, 64);
    InitialInv(c, 16, 1);
    Powers();
    AlignUpValue(8192, 8192, 4096, 0x1_0000_0000);
    var s := Initial(c, 16, 1);
    var r := [Run(1, 15)];
    assert [Run(0, 16)][1..] == [];
    assert TakePages([Run(0, 16)], 1).1 == r;
    assert s.runs == r;
    assert TakePages(r, 2).0 == At(1);
  }

  /** rt_slab_free takes the block away, changes no other block, and keeps at most two idle zones. */
  lemma FreedIs(s: State, a: nat)
    requires Inv(s) && a in s.live
    ensures Inv(Freed(s, a)) && Freed(s, a).live == s.live - {a}
  {
    hide OwnersOk, UsageOk, LiveOk, ArraysOk, SumOk, PutPages, Minus;
    if s.live[a].home.Whole? {
      LiveWhole(s, a);
      PutLargeCore(s, s.live[a].home.b);
    } else {
      ReturnedCore(s, a);
      var z := s.live[a].home.z;
      var u := Returned(s, z, a);
      if u.zones[z].nfree == u.zones[z].nmax && |u.arrays[u.zones[z].zi]| > 1 {
        RetiredCore(u, z);
        var v := Retired(u, z);
        if |v.idle| > RELEASE_THRESHOLD { DiscardedCore(v); }
      }
    }
  }

  /** Two live blocks never overlap. */
  lemma BlocksApart(s: State, a: nat, b: nat)
    requires Core(s) && a in s.live && b in s.live && a < b
    ensures a + s.live[a].size <= b
  {
    hide OwnersOk, UsageOk, LiveOk, ArraysOk, SumOk, ZoneOk;
    BlockExtent(s, a);
    BlockExtent(s, b);
    var h, k := s.live[a].home, s.live[b].home;
    if h.InZone? && k == h {
      ChunkKnown(s, a);
      ChunkKnown(s, b);
      ChunksApart(s.c, h.z, s.zones[h.z], s.taken[h.z], a, b);
    } else if b < a + s.live[a].size {
      ForeignPage(s, a, b);
      if h == k { LiveWhole(s, a); LiveWhole(s, b); }
      assert false;
    }
  }

  /** First page and number of pages of the zone or large block a live block comes from. */
  function Place(s: State, h: Home): (nat, nat)
    requires s.c.page > 0 && (h.Whole? ==> h.b in s.large)
  {
    if h.InZone? then (h.z, s.c.ZonePages()) else (h.b, s.large[h.b])
  }

  /** A live block lies within the pages of its home. */
  lemma BlockExtent(s: State, a: nat)
    requires Core(s) && a in s.live
    ensures s.live[a].home.Whole? ==> s.live[a].home.b in s.large
    ensures var (p, n) := Place(s, s.live[a].home); p * s.c.page <= a && a + s.live[a].size <= (p + n) * s.c.page
    ensures PageOf(s.c, a) < |s.owner| && s.owner[PageOf(s.c, a)] == OwnerOf(s.live[a].home)
    ensures var (p, n) := Place(s, s.live[a].home);
      forall q: nat :: Within(q, p, n) ==> q < |s.owner| && s.owner[q] == OwnerOf(s.live[a].home)
  {
    hide OwnersOk, UsageOk, LiveOk, ArraysOk, SumOk, PageOf;
    var h := s.live[a].home;
    LiveOwner(s, a);
    if h.InZone? {
      ChunkKnown(s, a);
      ZiInRange(s.c, h.z, s.zones[h.z], s.taken[h.z]);
      ChunkExtent(s.c, h.z, s.zones[h.z], s.taken[h.z], a);
      ZoneOwners(s, h.z);
    } else {
      LiveWhole(s, a);
      WholeExtent(s, h.b);
    }
  }

  lemma LiveOwner(s: State, a: nat)
    requires Core(s) && a in s.live
    ensures PageOf(s.c, a) < |s.owner| && s.owner[PageOf(s.c, a)] == OwnerOf(s.live[a].home)
  {
    hide OwnersOk, UsageOk, ZonesOk, ChunksLive, BlocksLive, ArraysOk, SumOk, PageOf;
  }

  lemma ChunkExtent(c: Config, z: nat, zn: Zone, taken: set<nat>, a: nat)
    requires c.Ok() && ZoneOk(c, z, zn, taken) && a in taken && zn.chunk > 0
    ensures z * c.page <= a && a + zn.chunk <= (z + c.ZonePages()) * c.page
  {
    hide ZoneOk;
    ChunkInside(c, z, zn, taken, a);
    ZoneBytes(c, z);
  }

  lemma ZoneOwners(s: State, z: nat)
    requires s.c.page > 0 && OwnersOk(s) && z in s.zones
    ensures forall q: nat :: Within(q, z, s.c.ZonePages()) ==> q < |s.owner| && s.owner[q] == Zoned(z)
  {
    hide Canonical, Free;
    assert ZoneAt(s, z);
  }

  lemma WholeExtent(s: State, b: nat)
    requires Core(s) && b in s.large
    ensures b * s.c.page in s.live && b * s.c.page + s.live[b * s.c.page].size <= (b + s.large[b]) * s.c.page
    ensures forall q: nat :: Within(q, b, s.large[b]) ==> q < |s.owner| && s.owner[q] == Block(b)
  {
    hide UsageOk, ZonesOk, ChunksLive, PiecesOk, Canonical, Free, ArraysOk, SumOk;
    assert (b + s.large[b]) * s.c.page == b * s.c.page + s.large[b] * s.c.page;
  }

  /** A block that starts inside another one starts in a page of that block's home. */
  lemma ForeignPage(s: State, a: nat, b: nat)
    requires Core(s) && a in s.live && b in s.live && a < b < a + s.live[a].size
    ensures s.live[b].home == s.live[a].home
  {
    hide OwnersOk, UsageOk, LiveOk, ArraysOk, SumOk, PageOf;
    BlockExtent(s, a);
    BlockExtent(s, b);
    var (p, n) := Place(s, s.live[a].home);
    PageBetween(s.c, p, n, b);
    assert s.owner[PageOf(s.c, b)] == OwnerOf(s.live[a].home);
  }

  /** Freeing a large block that was just allocated restores the identical page list. */
  lemma LargeAllocFreeIdentity(s: State, n: nat)
    requires Core(s) && n > 0 && TakePages(s.runs, n).0.At?
    ensures var (f, r) := TakePages(s.runs, n);
      && f.page < |s.usage|
      && var u := TookLarge(s, n, f.page, r);
        f.page in u.large && PutLarge(u, f.page).runs == s.runs && PutLarge(u, f.page).live == s.live && PutLarge(u, f.page).used == s.used
  {
    hide OwnersOk, UsageOk, LiveOk, ArraysOk, SumOk, TakePages, PutPages;
    TookLargeCore(s, n);
    RunsCanonical(s);
    TakePutIdentity(s.runs, n);
  }

  // ---- all runs --------------------------------------------------------------------------------------

  /** rt_slab_init: every page is free but for the usage table, which takes the first `t` of them. */
  function Initial(c: Config, total: nat, t: nat): State {
    State(c, TakePages([Run(0, total)], t).1, seq(total, _ => Usage(KFree, 0)), map[], seq(NZONES, _ => []), [], 0, 0,
          seq(total, i => if i < t then Table else Nobody), map[], map[], map[])
  }

  lemma InitialInv(c: Config, total: nat, t: nat)
    requires c.Ok() && 0 < t <= total
    ensures Inv(Initial(c, total, t))
  {
    hide TakePages;
    var l := [Run(0, total)];
    assert l[1..] == [];
    assert Canonical(l);
    assert forall p: nat :: Free(l, p) <==> p < total;
    WholeList(total, t);
    var s := Initial(c, total, t);
    assert forall z :: !ZoneAt(s, z);
  }

  lemma WholeList(total: nat, t: nat)
    requires 0 < t <= total
    ensures var r := TakePages([Run(0, total)], t).1; Canonical(r) && forall p: nat :: Free(r, p) <==> t <= p < total
  {
    var l := [Run(0, total)];
    assert l[1..] == [];
    assert forall p: nat :: Free(l, p) <==> p < total;
    TakeIsLowestFit(l, t);
    assert TakePages(l, t).0 == At(0);
    hide TakePages;
  }

  datatype Action = DoAlloc(size: nat) | DoFree(a: nat)

  ghost predicate Can(s: State, x: Action, word: nat) {
    match x
    case DoAlloc(size) => 0 < s.c.page <= word && word % s.c.page == 0 && size < word
    case DoFree(a) => a in s.live
  }

  ghost predicate Step(s: State, x: Action, word: nat, u: State) {
    Inv(s) ==> Can(s, x, word) && u == match x case DoAlloc(size) => Alloc(s, size, word).1 case DoFree(a) => Freed(s, a)
  }

  ghost predicate IsRun(ss: seq<State>, xs: seq<Action>, word: nat, c: Config, total: nat, t: nat) {
    && |ss| == |xs| + 1 && c.Ok() && 0 < t <= total && ss[0] == Initial(c, total, t)
    && forall i, j :: 0 <= i < |xs| && j == i + 1 ==> Step(ss[i], xs[i], word, ss[j])
  }

  /** The invariant holds after every run of alloc and free. */
  lemma {:induction false} RunInv(ss: seq<State>, xs: seq<Action>, word: nat, c: Config, total: nat, t: nat, k: nat)
    requires IsRun(ss, xs, word, c, total, t) && k < |ss|
    ensures Inv(ss[k])
  {
    hide Inv, Alloc, Freed, Initial;
    if k == 0 {
      InitialInv(c, total, t);
    } else {
      RunInv(ss, xs, word, c, total, t, k - 1);
      var i := k - 1;
      assert Step(ss[i], xs[i], word, ss[k]);
      match xs[i]
      case DoAlloc(size) => AllocIs(ss[i], size, word);
      case DoFree(a) => FreedIs(ss[i], a);
    }
  }

  // ---- the highest number of bytes in use -----------------------------------------------------------

  lemma AllocLargeBooks(s: State, n: nat)
    requires Core(s)
    ensures var u := AllocLarge(s, n).1; Accounted(s.max, s.used, u.max, u.used)
  {
    hide Core, TakePages, Paint;
    if FindPages(s, n).At? { TookLargeCore(s, n); }
  }

  lemma AllocIdleBooks(s: State, zi: nat)
    requires Core(s) && s.idle != [] && zi < NZONES && ChunkOf(zi) <= s.c.limit
    ensures var u := AllocIdle(s, zi).1; Accounted(s.max, s.used, u.max, u.used)
  {
    hide Core, ChunkOf, NewZone, Offset;
    ActivateAllowed(s, zi);
  }

  lemma AllocSmallBooks(s: State, zi: nat)
    requires Core(s) && zi < NZONES && ChunkOf(zi) <= s.c.limit
    ensures var u := AllocSmall(s, zi).1; Accounted(s.max, s.used, u.max, u.used)
  {
    hide Core, ChunkOf, TakePages, AllocIdle, CarvedZone, Mark, Paint;
    InvArrays(s);
    if s.arrays[zi] != [] {
      HandedCore(s, zi);
    } else if s.idle != [] {
      AllocIdleBooks(s, zi);
    } else if TakePages(s.runs, s.c.ZonePages()).0.At? {
      AcquiredCore(s);
      AllocIdleBooks(Acquired(s, TakePages(s.runs, s.c.ZonePages()).0.page, TakePages(s.runs, s.c.ZonePages()).1), zi);
    }
  }

  lemma AllocBooks(s: State, size: nat, word: nat)
    requires Core(s) && word > 0
    ensures var u := Alloc(s, size, word).1; Accounted(s.max, s.used, u.max, u.used)
  {
    hide Core, ChunkOf, AllocLarge, AllocSmall, ZoneIndex, AlignUp;
    InvArrays(s);
    if size >= s.c.limit {
      SmallLimit(s.c);
      AllocLargeBooks(s, LargePages(s.c, size, word));
    } else if size > 0 {
      SmallClassLegal(s.c, size);
      AllocSmallBooks(s, ZoneIndex(size).zi);
    }
  }

  lemma FreedBooks(s: State, a: nat)
    requires Core(s) && a in s.live
    ensures Freed(s, a).max == s.max && Freed(s, a).used <= s.used
  {
    hide Core, PutPages, Minus, Mark, Paint, PageOf;
    if s.live[a].home.Whole? {
      LiveWhole(s, a);
      FreeFindsBlock(s, a);
    } else {
      ReturnedCore(s, a);
      var z := s.live[a].home.z;
      var u := Returned(s, z, a);
      if u.zones[z].nfree == u.zones[z].nmax && |u.arrays[u.zones[z].zi]| > 1 {
        RetiredCore(u, z);
      }
    }
  }

  /** parent.max is the highest number of bytes in use over every run. */
  lemma MaxIsPeak(ss: seq<State>, xs: seq<Action>, word: nat, c: Config, total: nat, t: nat, us: seq<int>, k: nat)
    requires IsRun(ss, xs, word, c, total, t) && |us| == |ss| && k < |us|
    requires forall j :: 0 <= j < |us| ==> us[j] == ss[j].used
    ensures IsPeak(us, k, ss[k].max)
  {
    hide Inv, Alloc, Freed, Can;
    var ms := seq(|ss|, i requires 0 <= i < |ss| => ss[i].max);
    forall a, b | 0 <= a && b == a + 1 && b < |us|
      ensures Accounted(ms[a], us[a], ms[b], us[b])
    {
      RunInv(ss, xs, word, c, total, t, a);
      assert Step(ss[a], xs[a], word, ss[b]);
      StepBooks(ss[a], xs[a], word, ss[b]);
    }
    RunningPeak(us, ms, k);
  }

  lemma StepBooks(s: State, x: Action, word: nat, u: State)
    requires Inv(s) && Step(s, x, word, u)
    ensures Accounted(s.max, s.used, u.max, u.used)
  {
    hide Core, Alloc, Freed;
    match x
    case DoAlloc(size) => AllocBooks(s, size, word);
    case DoFree(a) => FreedBooks(s, a);
  }
}
