/** The binary file-system image of tools/mkromfs.py, and a reader that follows its stored addresses. */
module Romfs {
  type byte = b: nat | b < 256

  datatype Node = File(name: seq<byte>, data: seq<byte>) | Dir(name: seq<byte>, children: seq<Node>)

  datatype Option<T> = None | Some(value: T)

  const WORD: nat := 0x1_0000_0000
  const ENTRY: nat := 16

  /** One field of struct 'IIII' on a little-endian machine. */
  function Word(v: nat): (r: seq<byte>)
    ensures |r| == 4
  {
    [v % 256, v / 256 % 256, v / 65536 % 256, v / 16777216 % 256]
  }

  /** bin_name: the name and one to four NULs, up to the next 4-byte boundary. */
  function BinName(name: seq<byte>): (r: seq<byte>) {
    name + seq(4 - |name| % 4, _ => 0)
  }

  function EntrySize(n: Node): nat {
    if n.File? then |n.data| else |n.children|
  }

  /** struct romfs_dirent */
  function Dirent(n: Node, nameAddr: nat, dataAddr: nat): (r: seq<byte>)
    ensures |r| == ENTRY
  {
    Word(if n.File? then 0 else 1) + Word(nameAddr) + Word(dataAddr) + Word(EntrySize(n))
  }

  /** The padding that brings data to a 4-byte boundary. */
  function Padding(n: nat): (r: seq<byte>)
    ensures (n + |r|) % 4 == 0 && |r| < 4
  {
    if n % 4 != 0 then seq(4 - n % 4, _ => 0) else []
  }

  /** bin_data */
  function BinData(n: Node, base: nat): seq<byte>
    decreases n, 0
  {
    match n
    case File(_, data) => data
    case Dir(_, cs) => Dirents(cs, base + 16 * |cs|) + Payload(cs, base + 16 * |cs|)
  }

  /** Name and padded data of a child whose name goes to address `v`. */
  function Part(c: Node, v: nat): seq<byte>
    decreases c, 1
  {
    var data := BinData(c, DataAddr(c, v));
    BinName(c.name) + (data + Padding(|data|))
  }

  function DataAddr(c: Node, v: nat): nat {
    v + |BinName(c.name)|
  }

  function Payload(cs: seq<Node>, v: nat): seq<byte>
    decreases cs, 2
  {
    if cs == [] then [] else Part(cs[0], v) + Payload(cs[1..], v + |Part(cs[0], v)|)
  }

  function Dirents(cs: seq<Node>, v: nat): (r: seq<byte>)
    ensures |r| == 16 * |cs|
    decreases cs, 2
  {
    if cs == [] then [] else Dirent(cs[0], v, DataAddr(cs[0], v)) + Dirents(cs[1..], v + |Part(cs[0], v)|)
  }

  /** struct.pack accepts every number that is packed for the contents of `n`. */
  predicate Fits(n: Node, base: nat)
    decreases n, 0
  {
    n.File? || AllFit(n.children, base + 16 * |n.children|)
  }

  predicate AllFit(cs: seq<Node>, v: nat)
    decreases cs, 2
  {
    cs == [] || (
      && DataAddr(cs[0], v) < WORD && EntrySize(cs[0]) < WORD && Fits(cs[0], DataAddr(cs[0], v))
      && AllFit(cs[1..], v + |Part(cs[0], v)|))
  }

  /** get_bin_data: the root entry, its name "/" and the contents of the tree. */
  function Image(tree: Node, base: nat): seq<byte> {
    Dirent(Root(tree), base + ENTRY, base + ENTRY + 4) + [0x2f, 0, 0, 0] + BinData(tree, base + ENTRY + 4)
  }

  /** The tree as the image names it. */
  function Root(tree: Node): Node {
    match tree
    case File(_, data) => File([0x2f], data)
    case Dir(_, cs) => Dir([0x2f], cs)
  }

  // ---- the reader ----------------------------------------------------------------------------------

  function ReadWord(img: seq<byte>, o: nat): nat
    requires o + 4 <= |img|
  {
    (img[o] as nat) + 256 * (img[o + 1] as nat) + 65536 * (img[o + 2] as nat) + 16777216 * (img[o + 3] as nat)
  }

  /** A NUL-terminated string. */
  function ReadName(img: seq<byte>, o: nat): seq<byte>
    decreases |img| - o
  {
    if o >= |img| || img[o] == 0 then [] else [img[o]] + ReadName(img, o + 1)
  }

  /** The node whose dirent is at address `a` of an image loaded at `base`; `depth` bounds the nesting. */
  function ReadNode(img: seq<byte>, base: nat, a: nat, depth: nat): Option<Node>
    decreases depth, 0
  {
    if depth == 0 || a < base || a - base + ENTRY > |img| then None
    else
      var o := a - base;
      var (tp, name, data, size) := (ReadWord(img, o), ReadWord(img, o + 4), ReadWord(img, o + 8), ReadWord(img, o + 12));
      if name < base || data < base then None
      else if tp == 0 then
        if data - base + size > |img| then None
        else Some(File(ReadName(img, name - base), img[data - base..data - base + size]))
      else
        match ReadNodes(img, base, data, size, depth - 1)
        case None => None
        case Some(cs) => Some(Dir(ReadName(img, name - base), cs))
  }

  function ReadNodes(img: seq<byte>, base: nat, a: nat, count: nat, depth: nat): Option<seq<Node>>
    decreases depth, 1, count
  {
    if count == 0 then Some([])
    else
      match ReadNode(img, base, a, depth)
      case None => None
      case Some(c) =>
        match ReadNodes(img, base, a + ENTRY, count - 1, depth)
        case None => None
        case Some(cs) => Some([c] + cs)
  }

  /** How deep directories are nested. */
  function Depth(n: Node): nat
    decreases n, 0
  {
    if n.File? then 1 else 1 + DepthAll(n.children)
  }

  function DepthAll(cs: seq<Node>): nat
    decreases cs, 1
  {
    if cs == [] then 0 else var (d, e) := (Depth(cs[0]), DepthAll(cs[1..])); if d > e then d else e
  }

  /** Names contain no NUL. */
  predicate Named(n: Node)
    decreases n, 0
  {
    0 !in n.name && (n.Dir? ==> AllNamed(n.children))
  }

  predicate AllNamed(cs: seq<Node>)
    decreases cs, 1
  {
    cs == [] || (Named(cs[0]) && AllNamed(cs[1..]))
  }

  // ---- round trip ----------------------------------------------------------------------------------

  /** The image, loaded at `base`, holds the bytes `x` at address `a`. */
  predicate Holds(img: seq<byte>, base: nat, a: nat, x: seq<byte>) {
    a >= base && a - base + |x| <= |img| && img[a - base..a - base + |x|] == x
  }

  lemma HoldsParts(img: seq<byte>, base: nat, a: nat, x: seq<byte>, y: seq<byte>)
    requires Holds(img, base, a, x + y)
    ensures Holds(img, base, a, x) && Holds(img, base, a + |x|, y)
  {
    var z := img[a - base..a - base + |x + y|];
    assert x == z[..|x|] && y == z[|x|..];
  }

  lemma WordRead(img: seq<byte>, base: nat, a: nat, v: nat)
    requires Holds(img, base, a, Word(v)) && v < WORD
    ensures ReadWord(img, a - base) == v
  {
    var o := a - base;
    var w := img[o..o + 4];
    assert img[o] == w[0] && img[o + 1] == w[1] && img[o + 2] == w[2] && img[o + 3] == w[3];
    WordValue(v);
  }

  lemma WordValue(v: nat)
    requires v < WORD
    ensures v % 256 + 256 * (v / 256 % 256) + 65536 * (v / 65536 % 256) + 16777216 * (v / 16777216 % 256) == v
  {
    var (a, b, c) := (v / 256, v / 65536, v / 16777216);
    assert a / 256 == b && b / 256 == c;
  }

  lemma DirentRead(img: seq<byte>, base: nat, a: nat, n: Node, nameAddr: nat, dataAddr: nat)
    requires Holds(img, base, a, Dirent(n, nameAddr, dataAddr)) && nameAddr < WORD && dataAddr < WORD && EntrySize(n) < WORD
    ensures a >= base && a - base + ENTRY <= |img|
    ensures var o := a - base;
      && ReadWord(img, o) == (if n.File? then 0 else 1) && ReadWord(img, o + 4) == nameAddr
      && ReadWord(img, o + 8) == dataAddr && ReadWord(img, o + 12) == EntrySize(n)
  {
    hide Word, ReadWord, Holds;
    var t: nat := if n.File? then 0 else 1;
    HoldsBounds(img, base, a, Dirent(n, nameAddr, dataAddr));
    HoldsParts(img, base, a, Word(t) + Word(nameAddr) + Word(dataAddr), Word(EntrySize(n)));
    HoldsParts(img, base, a, Word(t) + Word(nameAddr), Word(dataAddr));
    HoldsParts(img, base, a, Word(t), Word(nameAddr));
    WordRead(img, base, a, t);
    WordRead(img, base, a + 4, nameAddr);
    WordRead(img, base, a + 8, dataAddr);
    WordRead(img, base, a + 12, EntrySize(n));
  }

  lemma HoldsBounds(img: seq<byte>, base: nat, a: nat, x: seq<byte>)
    requires Holds(img, base, a, x)
    ensures a >= base && a - base + |x| <= |img|
  {}

  /** The padded name reads back as the name. */
  lemma {:induction false} NameRead(img: seq<byte>, base: nat, a: nat, name: seq<byte>, z: seq<byte>)
    requires Holds(img, base, a, name + z) && 0 !in name && |z| > 0 && z[0] == 0
    ensures ReadName(img, a - base) == name
    decreases |name|
  {
    var o := a - base;
    var w := img[o..o + |name + z|];
    assert img[o] == w[0] == (name + z)[0];
    if name != [] {
      assert name + z == [name[0]] + (name[1..] + z);
      HoldsParts(img, base, a, [name[0]], name[1..] + z);
      NameRead(img, base, a + 1, name[1..], z);
      assert name == [name[0]] + name[1..];
    }
  }

  /** Every node reads back: its dirent leads to its name and its data. */
  lemma {:induction false} NodeRead(img: seq<byte>, base: nat, a: nat, n: Node, nameAddr: nat, dataAddr: nat, depth: nat)
    requires Holds(img, base, a, Dirent(n, nameAddr, dataAddr)) && Holds(img, base, nameAddr, BinName(n.name))
    requires Holds(img, base, dataAddr, BinData(n, dataAddr))
    requires nameAddr < WORD && dataAddr < WORD && EntrySize(n) < WORD && Fits(n, dataAddr)
    requires Named(n) && Depth(n) <= depth
    ensures ReadNode(img, base, a, depth) == Some(n)
    decreases n, 0
  {
    hide ReadWord, Dirent, ReadName;
    DirentRead(img, base, a, n, nameAddr, dataAddr);
    NameRead(img, base, nameAddr, n.name, seq(4 - |n.name| % 4, _ => 0));
    if n.Dir? {
      hide Holds;
      var cs := n.children;
      var v := dataAddr + 16 * |cs|;
      HoldsParts(img, base, dataAddr, Dirents(cs, v), Payload(cs, v));
      HoldsBounds(img, base, dataAddr, Dirents(cs, v));
      HoldsBounds(img, base, nameAddr, BinName(n.name));
      NodesRead(img, base, dataAddr, cs, v, depth - 1);
    }
  }

  lemma {:induction false} NodesRead(img: seq<byte>, base: nat, a: nat, cs: seq<Node>, v: nat, depth: nat)
    requires Holds(img, base, a, Dirents(cs, v)) && Holds(img, base, v, Payload(cs, v))
    requires AllFit(cs, v) && AllNamed(cs) && DepthAll(cs) <= depth
    ensures ReadNodes(img, base, a, |cs|, depth) == Some(cs)
    decreases cs, 1
  {
    hide Holds, Dirent, BinName, ReadNode, Fits, BinData, Padding, Part, DataAddr;
    if cs != [] {
      var c := cs[0];
      PartIs(c, v);
      var p := Part(c, v);
      HoldsParts(img, base, a, Dirent(c, v, DataAddr(c, v)), Dirents(cs[1..], v + |p|));
      HoldsParts(img, base, v, p, Payload(cs[1..], v + |p|));
      var data := BinData(c, DataAddr(c, v));
      HoldsParts(img, base, v, BinName(c.name), data + Padding(|data|));
      HoldsParts(img, base, DataAddr(c, v), data, Padding(|data|));
      NodeRead(img, base, a, c, v, DataAddr(c, v), depth);
      NodesRead(img, base, a + ENTRY, cs[1..], v + |p|, depth);
      assert cs == [c] + cs[1..];
    }
  }

  /** The whole image, read from its root entry, gives the tree back. */
  lemma ImageRoundTrip(tree: Node, base: nat)
    requires tree.Dir? && AllNamed(tree.children) && |tree.children| < WORD
    requires base + ENTRY + 4 < WORD && Fits(tree, base + ENTRY + 4)
    ensures ReadNode(Image(tree, base), base, base, Depth(tree)) == Some(Root(tree))
  {
    hide Dirent, ReadNode, AllFit, Dirents, Payload, DepthAll;
    var img := Image(tree, base);
    var (na, da) := (base + ENTRY, base + ENTRY + 4);
    var (d, m, b) := (Dirent(Root(tree), na, da), [0x2f, 0, 0, 0], BinData(tree, da));
    assert img == d + m + b;
    assert Holds(img, base, base, d + m + b);
    HoldsParts(img, base, base, d + m, b);
    HoldsParts(img, base, base, d, m);
    assert BinName([0x2f]) == m;
    assert BinData(Root(tree), da) == b;
    NodeRead(img, base, base, Root(tree), na, da, Depth(tree));
  }

  // ---- regions do not overlap ------------------------------------------------------------------------

  /** A dirent table, a name, file bytes or padding: `size` bytes at address `start`. */
  datatype Extent = Extent(start: nat, size: nat)

  function Extents(n: Node, base: nat): seq<Extent>
    decreases n, 0
  {
    match n
    case File(_, data) => [Extent(base, |data|)]
    case Dir(_, cs) => [Extent(base, 16 * |cs|)] + PartExtents(cs, base + 16 * |cs|)
  }

  /** Regions of one child: its name, its contents, the padding. */
  function OwnExtents(c: Node, v: nat): seq<Extent>
    decreases c, 1
  {
    var size := |BinData(c, DataAddr(c, v))|;
    [Extent(v, |BinName(c.name)|)] + Extents(c, DataAddr(c, v)) + [Extent(DataAddr(c, v) + size, |Padding(size)|)]
  }

  function PartExtents(cs: seq<Node>, v: nat): seq<Extent>
    decreases cs, 2
  {
    if cs == [] then [] else OwnExtents(cs[0], v) + PartExtents(cs[1..], v + |Part(cs[0], v)|)
  }

  /** The extents follow one another from `lo` to `hi` without gap or overlap. */
  predicate Chain(es: seq<Extent>, lo: nat, hi: nat) {
    if es == [] then lo == hi else es[0].start == lo && Chain(es[1..], lo + es[0].size, hi)
  }

  lemma {:induction false} ChainJoin(a: seq<Extent>, b: seq<Extent>, lo: nat, mid: nat, hi: nat)
    requires Chain(a, lo, mid) && Chain(b, mid, hi)
    ensures Chain(a + b, lo, hi)
  {
    if a == [] {
      assert a + b == b;
    } else {
      assert (a + b)[1..] == a[1..] + b;
      ChainJoin(a[1..], b, lo + a[0].size, mid, hi);
    }
  }

  lemma ChainOne(e: Extent)
    ensures Chain([e], e.start, e.start + e.size)
  {
    assert [e][1..] == [];
  }

  /** All regions of the contents of a node, in address order, fill them exactly. */
  lemma {:induction false} ExtentsChain(n: Node, base: nat)
    ensures Chain(Extents(n, base), base, base + |BinData(n, base)|)
    decreases n, 0
  {
    match n
    case File(_, data) => ChainOne(Extent(base, |data|));
    case Dir(_, cs) =>
      var v := base + 16 * |cs|;
      ChainOne(Extent(base, 16 * |cs|));
      PartsChain(cs, v);
      ChainJoin([Extent(base, 16 * |cs|)], PartExtents(cs, v), base, v, v + |Payload(cs, v)|);
  }

  lemma {:induction false} PartsChain(cs: seq<Node>, v: nat)
    ensures Chain(PartExtents(cs, v), v, v + |Payload(cs, v)|)
    decreases cs, 2
  {
    if cs != [] {
      hide Chain, Part, OwnExtents;
      var p := |Part(cs[0], v)|;
      PartChain(cs[0], v);
      PartsChain(cs[1..], v + p);
      ChainJoin(OwnExtents(cs[0], v), PartExtents(cs[1..], v + p), v, v + p, v + p + |Payload(cs[1..], v + p)|);
    }
  }

  lemma {:induction false} PartChain(c: Node, v: nat)
    ensures Chain(OwnExtents(c, v), v, v + |Part(c, v)|)
    decreases c, 1
  {
    hide Chain, BinName, BinData, Extents, Padding;
    var da := DataAddr(c, v);
    var size := |BinData(c, da)|;
    var (e, f) := (Extent(v, |BinName(c.name)|), Extent(da + size, |Padding(size)|));
    ChainOne(e);
    ChainOne(f);
    ExtentsChain(c, da);
    ChainJoin([e], Extents(c, da), v, da, da + size);
    ChainJoin([e] + Extents(c, da), [f], v, da + size, v + |Part(c, v)|);
  }

  /** All regions of an image: the root entry, its name, and those of the tree. */
  function ImageExtents(tree: Node, base: nat): seq<Extent> {
    [Extent(base, ENTRY)] + [Extent(base + ENTRY, 4)] + Extents(tree, base + ENTRY + 4)
  }

  /** They follow one another and fill the whole image. */
  lemma ImageChain(tree: Node, base: nat)
    ensures Chain(ImageExtents(tree, base), base, base + |Image(tree, base)|)
  {
    hide Chain, Extents, BinData;
    var (e, f) := (Extent(base, ENTRY), Extent(base + ENTRY, 4));
    var v := base + ENTRY + 4;
    ChainOne(e);
    ChainOne(f);
    ExtentsChain(tree, v);
    ChainJoin([e], [f], base, base + ENTRY, v);
    ChainJoin([e] + [f], Extents(tree, v), base, v, v + |BinData(tree, v)|);
  }

  /** Two different regions have no byte in common. */
  lemma {:induction false} ChainApart(es: seq<Extent>, lo: nat, hi: nat, i: nat, j: nat)
    requires Chain(es, lo, hi) && i < j < |es|
    ensures lo <= es[i].start && es[i].start + es[i].size <= es[j].start && es[j].start + es[j].size <= hi
    decreases |es|
  {
    if i > 0 {
      ChainApart(es[1..], lo + es[0].size, hi, i - 1, j - 1);
    } else {
      ChainInside(es[1..], lo + es[0].size, hi, j - 1);
    }
  }

  lemma {:induction false} ChainInside(es: seq<Extent>, lo: nat, hi: nat, j: nat)
    requires Chain(es, lo, hi) && j < |es|
    ensures lo <= es[j].start && es[j].start + es[j].size <= hi
    decreases |es|
  {
    ChainOrder(es[1..], lo + es[0].size, hi);
    if j > 0 { ChainInside(es[1..], lo + es[0].size, hi, j - 1); }
  }

  lemma {:induction false} ChainOrder(es: seq<Extent>, lo: nat, hi: nat)
    requires Chain(es, lo, hi)
    ensures lo <= hi
    decreases |es|
  {
    if es != [] { ChainOrder(es[1..], lo + es[0].size, hi); }
  }

  // ---- when the numbers fit --------------------------------------------------------------------------

  /** If the image ends below 4 GB, struct.pack accepts everything. */
  lemma {:induction false} SmallFits(n: Node, base: nat)
    requires base + |BinData(n, base)| < WORD
    ensures EntrySize(n) < WORD && Fits(n, base)
    decreases n, 0
  {
    if n.Dir? { SmallAllFit(n.children, base + 16 * |n.children|); }
  }

  lemma {:induction false} SmallAllFit(cs: seq<Node>, v: nat)
    requires v + |Payload(cs, v)| < WORD
    ensures AllFit(cs, v)
    decreases cs, 1
  {
    if cs != [] {
      SmallFits(cs[0], DataAddr(cs[0], v));
      SmallAllFit(cs[1..], v + |Part(cs[0], v)|);
    }
  }

  // ---- the program -----------------------------------------------------------------------------------

  /** bin_data of a File or Folder; None stands for the error of struct.pack. */
  method BuildData(n: Node, base: nat) returns (r: Option<seq<byte>>)
    ensures r == if Fits(n, base) then Some(BinData(n, base)) else None
    decreases n, 0
  {
    if n.File? {
      return Some(n.data);
    }
    hide Dirents, Payload, AllFit;
    var r' := BuildChildren(n.children, base + 16 * |n.children|);
    if r' == None {
      return None;
    }
    return Some(r'.value.0 + r'.value.1);
  }

  /** The loop over the children: their dirents, and their names and data from address `pBase` on. */
  method BuildChildren(cs: seq<Node>, pBase: nat) returns (r: Option<(seq<byte>, seq<byte>)>)
    ensures r == if AllFit(cs, pBase) then Some((Dirents(cs, pBase), Payload(cs, pBase))) else None
    decreases cs, 2
  {
    hide *;
    var vLen: nat := pBase;
    var d: seq<byte>, p: seq<byte> := [], [];
    var i: nat := 0;
    BuiltStart(cs, pBase);
    while i < |cs|
      invariant i <= |cs| && Built(cs, pBase, i, vLen, d, p)
    {
      var c := cs[i];
      var part := BuildPart(c, vLen);
      if part == None {
        BuiltFails(cs, pBase, i, vLen, d, p);
        return None;
      }
      BuiltStep(cs, pBase, i, vLen, d, p);
      d := d + part.value.0;
      p := p + part.value.1;
      vLen := vLen + |part.value.1|;
      i := i + 1;
    }
    BuiltEnd(cs, pBase, vLen, d, p);
    return Some((d, p));
  }

  /** After `i` children: dirents `d` and payload `p` are there, the rest goes to address `v`. */
  ghost predicate Built(cs: seq<Node>, pBase: nat, i: nat, v: nat, d: seq<byte>, p: seq<byte>) {
    && i <= |cs| && v == pBase + |p|
    && AllFit(cs, pBase) == AllFit(cs[i..], v)
    && Dirents(cs, pBase) == d + Dirents(cs[i..], v)
    && Payload(cs, pBase) == p + Payload(cs[i..], v)
  }

  lemma BuiltStart(cs: seq<Node>, pBase: nat)
    ensures Built(cs, pBase, 0, pBase, [], [])
  {
    assert cs[0..] == cs;
  }

  ghost predicate PartFits(c: Node, v: nat) {
    DataAddr(c, v) < WORD && EntrySize(c) < WORD && Fits(c, DataAddr(c, v))
  }

  lemma BuiltStep(cs: seq<Node>, pBase: nat, i: nat, v: nat, d: seq<byte>, p: seq<byte>)
    requires i < |cs| && Built(cs, pBase, i, v, d, p) && PartFits(cs[i], v)
    ensures var x := Part(cs[i], v); Built(cs, pBase, i + 1, v + |x|, d + Dirent(cs[i], v, DataAddr(cs[i], v)), p + x)
  {
    hide Part, Dirent, DataAddr, Fits, EntrySize;
    FitStep(cs, i, v);
    Step(cs, i, v, d, p, Dirent(cs[i], v, DataAddr(cs[i], v)), Part(cs[i], v));
    hide AllFit, Payload, Dirents;
  }

  lemma BuiltFails(cs: seq<Node>, pBase: nat, i: nat, v: nat, d: seq<byte>, p: seq<byte>)
    requires i < |cs| && Built(cs, pBase, i, v, d, p) && !PartFits(cs[i], v)
    ensures !AllFit(cs, pBase)
  {
    hide Part, Dirent, DataAddr, Fits, EntrySize, AllFit, Dirents, Payload;
    FitStep(cs, i, v);
  }

  lemma BuiltEnd(cs: seq<Node>, pBase: nat, v: nat, d: seq<byte>, p: seq<byte>)
    requires Built(cs, pBase, |cs|, v, d, p)
    ensures AllFit(cs, pBase) && Dirents(cs, pBase) == d && Payload(cs, pBase) == p
  {
    assert cs[|cs|..] == [];
    EmptyEnd(v);
    hide AllFit, Payload, Dirents;
    assert d + [] == d && p + [] == p;
  }

  /** The body of the loop over the children: the dirent of a child, and its name and padded data. */
  method BuildPart(c: Node, vLen: nat) returns (r: Option<(seq<byte>, seq<byte>)>)
    ensures r == if PartFits(c, vLen) then Some((Dirent(c, vLen, DataAddr(c, vLen)), Part(c, vLen))) else None
    decreases c, 1
  {
    hide BinData, BinName, Dirent, Part, Fits, DataAddr, EntrySize;
    PartIs(c, vLen);
    var name := BinName(c.name);
    var nameAddr := vLen;
    var dataAddr := vLen + |name|;
    var sub := BuildData(c, dataAddr);
    if sub == None {
      return None;
    }
    var data := sub.value;
    if |data| % 4 != 0 {
      data := data + seq(4 - |data| % 4, _ => 0);
    } else {
      assert data + [] == data;
    }
    // struct.pack refuses numbers of more than 32 bits
    if nameAddr >= WORD || dataAddr >= WORD || EntrySize(c) >= WORD {
      return None;
    }
    return Some((Dirent(c, nameAddr, dataAddr), name + data));
  }

  lemma EmptyEnd(v: nat)
    ensures Dirents([], v) == [] && Payload([], v) == [] && AllFit([], v)
  {}

  /** One round of the loop moves one child from what is to come to what is there. */
  lemma Step(cs: seq<Node>, i: nat, v: nat, d: seq<byte>, p: seq<byte>, e: seq<byte>, x: seq<byte>)
    requires i < |cs| && e == Dirent(cs[i], v, DataAddr(cs[i], v)) && x == Part(cs[i], v)
    ensures d + Dirents(cs[i..], v) == (d + e) + Dirents(cs[i + 1..], v + |x|)
    ensures p + Payload(cs[i..], v) == (p + x) + Payload(cs[i + 1..], v + |x|)
  {
    hide Part, Dirent, DataAddr;
    var t := cs[i..];
    assert t[0] == cs[i] && t[1..] == cs[i + 1..];
    assert Dirents(t, v) == e + Dirents(cs[i + 1..], v + |x|);
    assert Payload(t, v) == x + Payload(cs[i + 1..], v + |x|);
    hide Dirents, Payload;
  }

  lemma FitStep(cs: seq<Node>, i: nat, v: nat)
    requires i < |cs|
    ensures AllFit(cs[i..], v) <==>
      DataAddr(cs[i], v) < WORD && EntrySize(cs[i]) < WORD && Fits(cs[i], DataAddr(cs[i], v)) && AllFit(cs[i + 1..], v + |Part(cs[i], v)|)
  {
    hide Part, DataAddr, Fits, EntrySize;
    assert cs[i..][0] == cs[i] && cs[i..][1..] == cs[i + 1..];
  }

  lemma PartIs(c: Node, v: nat)
    ensures var data := BinData(c, DataAddr(c, v));
      Part(c, v) == BinName(c.name) + (data + Padding(|data|))
    ensures DataAddr(c, v) == v + |BinName(c.name)|
  {
    hide BinData, BinName;
  }

  /** get_bin_data */
  method BuildImage(tree: Node, base: nat) returns (r: Option<seq<byte>>)
    ensures r == if base + ENTRY + 4 < WORD && EntrySize(tree) < WORD && Fits(tree, base + ENTRY + 4) then Some(Image(tree, base)) else None
  {
    var vLen := base + ENTRY;
    var nameAddr := vLen;
    vLen := vLen + 4;
    var dataAddr := vLen;
    if nameAddr >= WORD || dataAddr >= WORD || EntrySize(tree) >= WORD {
      return None;
    }
    var data := BuildData(tree, vLen);
    if data == None {
      return None;
    }
    return Some(Dirent(Root(tree), nameAddr, dataAddr) + [0x2f, 0, 0, 0] + data.value);
  }
}
