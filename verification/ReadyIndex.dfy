/**
 The bitmap over the ready lists: one word for up to 32 priorities, or a word over 32 bytes for
 up to 256 of them (RT_THREAD_PRIORITY_MAX > 32).
 */
module ReadyIndex {
  import opened Ffs

  /** A place in a table indexed by a byte. */
  datatype Level = Level(v: bv8)

  /** rt_thread_ready_priority_group and rt_thread_ready_table. */
  datatype Index = Index(wide: bool, group: bv32, table: map<Level, bv8>)

  /** number, number_mask and high_mask of a thread. */
  datatype Masks = Masks(number: bv8, numberMask: bv32, highMask: bv8)

  // ---- words -----------------------------------------------------------------------------------

  predicate Below32(n: bv8) { n < 32 }

  predicate Below8(n: bv8) { n < 8 }

  predicate AtMost(p: bv8, q: bv8) { p <= q }

  function Number(p: bv8): bv8 { p >> 3 }

  function Place(p: bv8): bv8 { p & 7 }

  function Mask32(n: bv8): bv32
    requires Below32(n)
  {
    1 << n
  }

  function Mask8(n: bv8): bv8
    requires Below8(n)
  {
    1 << n
  }

  function On32(g: bv32, m: bv32): bv32 { g | m }

  function Off32(g: bv32, m: bv32): bv32 { g & !m }

  function On8(b: bv8, m: bv8): bv8 { b | m }

  function Off8(b: bv8, m: bv8): bv8 { b & !m }

  predicate Bit32(g: bv32, n: bv8) {
    n < 32 && g & (1 << n) != 0
  }

  predicate Bit8(b: bv8, n: bv8) {
    n < 8 && b & (1 << n) != 0
  }

  /** __rt_ffs(v) - 1 */
  function First32(v: bv32): bv8 { FfsTable(v) - 1 }

  function First8(v: bv8): bv8 { FfsTable(v as bv32) - 1 }

  function Join(number: bv8, place: bv8): bv8 { (number << 3) + place }

  lemma WordSet(g: bv32, k: bv8, n: bv8)
    requires k < 32 && n < 32
    ensures (g | (1 << k)) & (1 << n) != 0 <==> g & (1 << n) != 0 || n == k
  {}

  lemma NoBit(g: bv32, a: bv32)
    ensures (g & !a) & a == 0
  {}

  lemma OtherBit(k: bv8, n: bv8)
    requires k < 32 && n < 32 && k != n
    ensures (1 as bv32 << k) & (1 << n) == 0
  {}

  lemma KeepBits(g: bv32, a: bv32, b: bv32)
    requires a & b == 0
    ensures (g & !a) & b == g & b
  {}

  lemma Set32(g: bv32, k: bv8, n: bv8)
    requires Below32(k)
    ensures Bit32(On32(g, Mask32(k)), n) <==> Bit32(g, n) || n == k
  {
    if n < 32 { WordSet(g, k, n); }
  }

  lemma Clear32(g: bv32, k: bv8, n: bv8)
    requires Below32(k)
    ensures Bit32(Off32(g, Mask32(k)), n) <==> Bit32(g, n) && n != k
  {
    if n == k {
      NoBit(g, 1 << k);
    } else if n < 32 {
      OtherBit(k, n);
      KeepBits(g, 1 << k, 1 << n);
    }
  }

  lemma Set8(b: bv8, k: bv8, n: bv8)
    requires Below8(k)
    ensures Bit8(On8(b, Mask8(k)), n) <==> Bit8(b, n) || n == k
    ensures On8(b, Mask8(k)) != 0
  {}

  lemma Clear8(b: bv8, k: bv8, n: bv8)
    requires Below8(k)
    ensures Bit8(Off8(b, Mask8(k)), n) <==> Bit8(b, n) && n != k
    ensures b == 0 ==> Off8(b, Mask8(k)) == 0
  {}

  lemma Empty(n: bv8)
    ensures !Bit8(0, n) && !Bit32(0, n)
  {}

  /** A priority is its byte number and its place in the byte. */
  lemma Parts(p: bv8, q: bv8)
    ensures Below32(Number(p)) && Below8(Place(p))
    ensures p == q <==> Number(p) == Number(q) && Place(p) == Place(q)
  {}

  lemma PartsOrdered(p: bv8, q: bv8)
    requires AtMost(Number(p), Number(q)) && (Number(p) == Number(q) ==> AtMost(Place(p), Place(q)))
    ensures AtMost(p, q)
  {}

  lemma Joined(number: bv8, place: bv8)
    requires Below32(number) && Below8(place)
    ensures Number(Join(number, place)) == number && Place(Join(number, place)) == place
  {}

  lemma Lowest32(g: bv32, b: bv8, n: bv8)
    requires Lowest(g, b)
    ensures Below32(b) && Bit32(g, b) && (Bit32(g, n) ==> AtMost(b, n))
  {}

  lemma Lowest8(v: bv8, b: bv8, n: bv8)
    requires Lowest(v as bv32, b)
    ensures Below8(b) && Bit8(v, b) && (Bit8(v, n) ==> AtMost(b, n))
  {}

  lemma First32IsMin(g: bv32, n: bv8)
    requires g != 0
    ensures Below32(First32(g)) && Bit32(g, First32(g)) && (Bit32(g, n) ==> AtMost(First32(g), n))
  {
    hide FfsTable, Lowest, Bit32, AtMost, Below32;
    FfsTableLowest(g);
    Lowest32(g, First32(g), n);
  }

  lemma First8IsMin(v: bv8, n: bv8)
    requires v != 0
    ensures Below8(First8(v)) && Bit8(v, First8(v)) && (Bit8(v, n) ==> AtMost(First8(v), n))
  {
    hide FfsTable, Lowest, Bit8, AtMost, Below8;
    NonZero(v);
    FfsTableLowest(v as bv32);
    Lowest8(v, First8(v), n);
  }

  lemma NonZero(v: bv8)
    ensures v != 0 ==> (v as bv32) != 0
  {}

  // ---- the index -------------------------------------------------------------------------------

  function MasksOf(wide: bool, p: bv8): Masks
    requires wide || Below32(p)
  {
    if wide then Parts(p, p); Masks(Number(p), Mask32(Number(p)), Mask8(Place(p))) else Masks(0, Mask32(p), 0)
  }

  ghost predicate HasTable(ix: Index) {
    forall n: bv8 :: Below32(n) ==> Level(n) in ix.table
  }

  /** The bit of priority `p` is set. */
  predicate Has(ix: Index, p: bv8) {
    if ix.wide then Level(Number(p)) in ix.table && Bit8(ix.table[Level(Number(p))], Place(p)) else Bit32(ix.group, p)
  }

  /** The upper level is the summary of the lower one. */
  ghost predicate Ok(ix: Index) {
    HasTable(ix) && (ix.wide ==> forall n: bv8 :: Below32(n) ==> (Bit32(ix.group, n) <==> ix.table[Level(n)] != 0))
  }

  function SetBits(ix: Index, m: Masks): Index
    requires ix.wide ==> Level(m.number) in ix.table
  {
    ix.(table := if ix.wide then ix.table[Level(m.number) := On8(ix.table[Level(m.number)], m.highMask)] else ix.table,
        group := On32(ix.group, m.numberMask))
  }

  function ClearBits(ix: Index, m: Masks): Index
    requires ix.wide ==> Level(m.number) in ix.table
  {
    if ix.wide then
      var b := Off8(ix.table[Level(m.number)], m.highMask);
      ix.(table := ix.table[Level(m.number) := b], group := if b == 0 then Off32(ix.group, m.numberMask) else ix.group)
    else ix.(group := Off32(ix.group, m.numberMask))
  }

  /** The lookup of _scheduler_get_highest_priority_thread. */
  function Highest(ix: Index): bv8
    requires ix.wide ==> Level(First32(ix.group)) in ix.table
  {
    if ix.wide then Join(First32(ix.group), First8(ix.table[Level(First32(ix.group))])) else First32(ix.group)
  }

  lemma MasksKnown(ix: Index, p: bv8)
    requires HasTable(ix) && (ix.wide || Below32(p))
    ensures ix.wide ==> Level(MasksOf(ix.wide, p).number) in ix.table
  {
    hide Below32, Below8, Number, Place, Mask32, Mask8;
    Parts(p, p);
  }

  lemma SetHas(ix: Index, p: bv8, q: bv8)
    requires Ok(ix) && (ix.wide || Below32(p))
    ensures ix.wide ==> Level(MasksOf(ix.wide, p).number) in ix.table
    ensures Has(SetBits(ix, MasksOf(ix.wide, p)), q) <==> Has(ix, q) || q == p
  {
    hide Bit8, Bit32, Below32, Below8, Number, Place, Mask32, Mask8, On8, On32;
    Parts(p, q);
    if ix.wide {
      Parts(q, q);
      Set8(ix.table[Level(Number(p))], Place(p), Place(q));
    } else {
      Set32(ix.group, p, q);
    }
  }

  lemma SetOk(ix: Index, p: bv8)
    requires Ok(ix) && (ix.wide || Below32(p))
    ensures (ix.wide ==> Level(MasksOf(ix.wide, p).number) in ix.table) && Ok(SetBits(ix, MasksOf(ix.wide, p)))
  {
    hide Bit8, Bit32, Below32, Below8, Number, Place, Mask32, Mask8, On8, On32;
    Parts(p, p);
    if ix.wide {
      Set8(ix.table[Level(Number(p))], Place(p), Place(p));
      forall n: bv8 | Below32(n)
        ensures Bit32(On32(ix.group, Mask32(Number(p))), n) <==> Bit32(ix.group, n) || n == Number(p)
      {
        Set32(ix.group, Number(p), n);
      }
    }
  }

  lemma ClearHas(ix: Index, p: bv8, q: bv8)
    requires Ok(ix) && (ix.wide || Below32(p))
    ensures ix.wide ==> Level(MasksOf(ix.wide, p).number) in ix.table
    ensures Has(ClearBits(ix, MasksOf(ix.wide, p)), q) <==> Has(ix, q) && q != p
  {
    hide Bit8, Bit32, Below32, Below8, Number, Place, Mask32, Mask8, Off8, Off32;
    Parts(p, q);
    if ix.wide {
      Parts(q, q);
      Clear8(ix.table[Level(Number(p))], Place(p), Place(q));
    } else {
      Clear32(ix.group, p, q);
    }
  }

  lemma ClearOk(ix: Index, p: bv8)
    requires Ok(ix) && (ix.wide || Below32(p))
    ensures (ix.wide ==> Level(MasksOf(ix.wide, p).number) in ix.table) && Ok(ClearBits(ix, MasksOf(ix.wide, p)))
  {
    hide Bit8, Bit32, Below32, Below8, Number, Place, Mask32, Mask8, Off8, Off32;
    Parts(p, p);
    if ix.wide {
      forall n: bv8 | Below32(n)
        ensures Bit32(Off32(ix.group, Mask32(Number(p))), n) <==> Bit32(ix.group, n) && n != Number(p)
      {
        Clear32(ix.group, Number(p), n);
      }
      Clear8(ix.table[Level(Number(p))], Place(p), Place(p));
    }
  }

  /** The lookup finds the most urgent priority whose bit is set, in one level or in two. */
  lemma HighestIsMin(ix: Index, q: bv8)
    requires Ok(ix) && ix.group != 0
    ensures ix.wide ==> Level(First32(ix.group)) in ix.table
    ensures Below32(First32(ix.group))
    ensures Has(ix, Highest(ix)) && (Has(ix, q) ==> AtMost(Highest(ix), q))
  {
    hide Bit8, Bit32, Below32, Below8, Number, Place, Join, First32, First8, AtMost;
    if ix.wide {
      Parts(q, q);
      First32IsMin(ix.group, Number(q));
      var number := First32(ix.group);
      var v := ix.table[Level(number)];
      First8IsMin(v, Place(q));
      Joined(number, First8(v));
      if Has(ix, q) {
        Empty(Place(q));
        assert Bit32(ix.group, Number(q));
        PartsOrdered(Highest(ix), q);
      }
    } else {
      First32IsMin(ix.group, q);
    }
  }

  lemma NothingSet(ix: Index, q: bv8)
    requires Ok(ix) && ix.group == 0
    ensures !Has(ix, q)
  {
    hide Bit8, Bit32, Below32, Below8, Number, Place;
    Parts(q, q);
    Empty(Place(q));
    Empty(Number(q));
    Empty(q);
  }
}
