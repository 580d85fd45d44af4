/** The allocation bitmap and the up-case table, as a reader of the finished image finds them. */
module ExfatAllocation {
  import opened Bytes
  import opened ExfatLayout
  import opened ExfatVolume
  import opened ExfatReader

  // ---------------------------------------------------------------- the reader

  /** What the first special entry of a type points to; the list of entries ends at a zero type byte. */
  function Special(v: Volume, d: seq<byte>, kind: byte, pos: nat): Option<seq<byte>>
    decreases |d| - pos
  {
    if pos + 32 > |d| || d[pos] == 0 then None
    else if d[pos] != kind then Special(v, d, kind, pos + 32)
    else match ReadChain(v, Word(d, pos + 20, 4))
      case None => None
      case Some(bytes) =>
        var size := Word(d, pos + 24, 8);
        if size <= |bytes| then Some(bytes[..size]) else None
  }

  /** Mounts an image and looks a special entry up in its root directory. */
  function ReadSpecial(img: seq<byte>, kind: byte): Option<seq<byte>> {
    match Mount(img)
    case None => None
    case Some(v) =>
      match ReadChain(v, Word(img, 96, 4))
      case None => None
      case Some(d) => Special(v, d, kind, 0)
  }

  predicate Bit(b: nat, k: nat) { if k == 0 then b % 2 == 1 else Bit(b / 2, k - 1) }

  /** Cluster `c` is in use: bit c - 2 of the bitmap, lowest bits first, is set. */
  predicate Marked(bitmap: seq<byte>, c: nat) {
    c >= 2 && (c - 2) / 8 < |bitmap| && Bit(bitmap[(c - 2) / 8], (c - 2) % 8)
  }

  // ---------------------------------------------------------------- bits

  function Low(n: nat): nat { if n == 0 then 0 else 2 * Low(n - 1) + 1 }

  lemma {:induction false} LowBits(n: nat, k: nat)
    requires k < n
    ensures Bit(Low(n), k)
  {
    if k > 0 {
      LowBits(n - 1, k - 1);
      assert Low(n) / 2 == Low(n - 1);
    }
  }

  lemma EveryBit(k: nat)
    requires k < 8
    ensures Bit(0xFF, k)
  {
    assert Low(2) == 3 && Low(4) == 15 && Low(6) == 63 && Low(8) == 0xFF;
    LowBits(8, k);
  }

  lemma MarkedBelow(root: Node, c: nat)
    requires 2 <= c < ClusterCount(root) + 2
    ensures Marked(Ones((ClusterCount(root) + 7) / 8), c)
  {
    hide ClusterCount, Bit;
    EveryBit((c - 2) % 8);
  }

  // ---------------------------------------------------------------- the entries in the root directory

  /** The fields of the two special entries that a reader follows. */
  lemma SpecialFields(root: Node)
    requires NoWrap(root)
    ensures var h := RootEntries(root);
      && h[0] == 0x83 && h[32] == 0x81 && h[64] == 0x82
      && Word(h, 52, 4) == 2 && Word(h, 56, 8) == (ClusterCount(root) + 7) / 8
      && Word(h, 84, 4) == 2 + Bitmap(Content(root)) && Word(h, 88, 8) == UPCASE_SIZE
  {
    hide Le, Word, FromLe, Pow256, ClusterCount, Content, Bitmap;
    var bits, up := (ClusterCount(root) + 7) / 8, 2 + Bitmap(Content(root));
    Powers();
    EntrySizes(root);
    var a: seq<byte> := [0x83] + Zeros(31);
    var b: seq<byte> := [0x81] + Zeros(19) + Le(4, 2) + Le(8, bits);
    var c: seq<byte> := [0x82] + Zeros(3) + Le(4, UPCASE_CHECKSUM) + Zeros(12) + Le(4, up) + Le(8, UPCASE_SIZE);
    Extent([0x81] + Zeros(19), 2, bits);
    Extent([0x82] + Zeros(3) + Le(4, UPCASE_CHECKSUM) + Zeros(12), up, UPCASE_SIZE);
    Placed(a, b, c);
    WordShift(a + b + c, 32, b, 20, 4);
    WordShift(a + b + c, 32, b, 24, 8);
    WordShift(a + b + c, 64, c, 20, 4);
    WordShift(a + b + c, 64, c, 24, 8);
    assert RootEntries(root) == a + b + c;
    assert (a + b + c)[32..64][0] == b[0] && (a + b + c)[64..96][0] == c[0];
  }

  lemma EntrySizes(root: Node)
    requires NoWrap(root)
    ensures ClusterCount(root) < WORD32 && 2 + Bitmap(Content(root)) < WORD32
  {
    hide Bitmap, Total;
  }

  lemma Extent(front: seq<byte>, first: nat, size: nat)
    requires |front| == 20 && first < Pow256(4) && size < Pow256(8)
    ensures var e := front + Le(4, first) + Le(8, size); |e| == 32 && Word(e, 20, 4) == first && Word(e, 24, 8) == size
  {
    hide Le, Word, FromLe, Pow256;
    FieldAt(front, 4, first);
    FieldAt(front + Le(4, first), 8, size);
    WordAppend(front + Le(4, first), Le(8, size), 20, 4);
  }

  lemma Placed(a: seq<byte>, b: seq<byte>, c: seq<byte>)
    requires |a| == |b| == |c| == 32
    ensures (a + b + c)[32..64] == b && (a + b + c)[64..96] == c
  {
  }

  // ---------------------------------------------------------------- where their clusters are

  /** Bitmap and up-case table lie in the first clusters of the heap. */
  lemma FirstClusters(root: Node, upcase: seq<byte>)
    requires |upcase| == UPCASE_SIZE
    ensures var v := Volume(Image(root, upcase), SECTOR * HeapSector(root), []);
      && Holds(v, 2, BitmapBytes(root)) && Holds(v, 2 + Bitmap(Content(root)), PadTo(upcase, CLUSTER))
  {
    hide Boot, FatBytes, BitmapBytes, PadTo, Heap, RootEntries, Total, Bitmap, ClusterCount, FatSectors, RootCluster;
    var front := Boot(root) + Boot(root) + Zeros(104 * SECTOR) + FatBytes(root);
    var bits, up := BitmapBytes(root), PadTo(upcase, CLUSTER);
    var rest := Heap(root, true, RootCluster(root), RootEntries(root));
    assert Image(root, upcase) == front + (bits + up) + rest;
    assert |front| == SECTOR * HeapSector(root);
    var v := Volume(Image(root, upcase), SECTOR * HeapSector(root), []);
    assert v.img[|front|..|front| + |bits + up|] == bits + up;
    assert Holds(v, 2, bits + up);
    HoldsSplit(v, 2, bits, up, Bitmap(Content(root)));
  }

  lemma FirstChains(root: Node)
    requires NoWrap(root)
    ensures var fat, b := Fat(AllRuns(root)), Bitmap(Content(root));
      && b > 0 && |fat| <= END_OF_CHAIN && 3 + b <= |fat|
      && fat[2..2 + b] == Chain(2, b) && fat[2 + b..3 + b] == Chain(2 + b, 1)
  {
    hide Bitmap, Total, Runs, Fat, Chain, ClusterCount;
    var runs, b := AllRuns(root), Bitmap(Content(root));
    BitmapLeast(Content(root));
    GeometrySmall(root);
    FatFits(root);
    FatOfRun(runs, 0);
    FatOfRun(runs, 1);
    assert runs[..1] == [b];
    assert Sum([b]) == b;
  }

  lemma SpecialRead(v: Volume, d: seq<byte>, pos: nat, bytes: seq<byte>)
    requires pos + 32 <= |d| && d[pos] != 0 && ReadChain(v, Word(d, pos + 20, 4)) == Some(bytes)
    requires Word(d, pos + 24, 8) <= |bytes|
    ensures Special(v, d, d[pos], pos) == Some(bytes[..Word(d, pos + 24, 8)])
  {
    hide ReadChain, Word;
  }

  lemma SpecialSkip(v: Volume, d: seq<byte>, kind: byte, pos: nat)
    requires pos + 32 <= |d| && d[pos] != 0 && d[pos] != kind
    ensures Special(v, d, kind, pos) == Special(v, d, kind, pos + 32)
  {
    hide ReadChain, Word;
  }

  /** The clusters of the root directory, as a reader finds them, begin with the special entries. */
  lemma RootRead(root: Node, upcase: seq<byte>) returns (d: seq<byte>)
    requires root.Dir? && |upcase| == UPCASE_SIZE && NoWrap(root)
    ensures ReadChain(Volume(Image(root, upcase), SECTOR * HeapSector(root), Fat(AllRuns(root))), RootCluster(root))
      == Some(d)
    ensures |d| >= 96 && d[0..96] == RootEntries(root)
  {
    hide Image, Fat, AllRuns, Heap, Chains, Chain, Runs, RootEntries, HeapSector, RootCluster, Holds, Chained, NoWrap,
      NodeBytes, Own, ReadChain;
    var at, head := RootCluster(root), RootEntries(root);
    var v := Volume(Image(root, upcase), SECTOR * HeapSector(root), Fat(AllRuns(root)));
    RootMounted(root, upcase);
    DirParts(v, root, true, at, head);
    d := NodeBytes(root, true, at, head);
    ReadRun(v, at, d, Own(root, true));
    EntriesShape(root, true, at, head);
  }

  /** What a chain of the image's first clusters holds. */
  lemma FirstRead(root: Node, upcase: seq<byte>)
    requires root.Dir? && |upcase| == UPCASE_SIZE && NoWrap(root)
    ensures var v := Volume(Image(root, upcase), SECTOR * HeapSector(root), Fat(AllRuns(root)));
      && ReadChain(v, 2) == Some(BitmapBytes(root))
      && ReadChain(v, 2 + Bitmap(Content(root))) == Some(PadTo(upcase, CLUSTER))
  {
    hide Image, Fat, AllRuns, Chain, HeapSector, NoWrap, ReadChain, Bitmap, BitmapBytes, PadTo, Content;
    var v := Volume(Image(root, upcase), SECTOR * HeapSector(root), Fat(AllRuns(root)));
    var b := Bitmap(Content(root));
    FirstClusters(root, upcase);
    FirstChains(root);
    ReadRun(v, 2, BitmapBytes(root), b);
    ReadRun(v, 2 + b, PadTo(upcase, CLUSTER), 1);
  }

  // ---------------------------------------------------------------- main result

  /** Both special entries of the finished image lead to what was written for them. */
  lemma SpecialsRead(root: Node, upcase: seq<byte>)
    requires root.Dir? && |upcase| == UPCASE_SIZE && NoWrap(root)
    ensures ReadSpecial(Image(root, upcase), 0x81) == Some(BitmapBytes(root)[..(ClusterCount(root) + 7) / 8])
    ensures ReadSpecial(Image(root, upcase), 0x82) == Some(PadTo(upcase, CLUSTER)[..UPCASE_SIZE])
  {
    hide Image, Fat, AllRuns, HeapSector, RootCluster, NoWrap, ReadChain, Bitmap, BitmapBytes, PadTo, Content, Mount,
      RootEntries, Word, Special, ClusterCount;
    var v := Volume(Image(root, upcase), SECTOR * HeapSector(root), Fat(AllRuns(root)));
    Mounts(root, upcase);
    var d := RootRead(root, upcase);
    var h := RootEntries(root);
    SpecialFields(root);
    FirstRead(root, upcase);
    WordShift(d, 0, h, 52, 4);
    WordShift(d, 0, h, 56, 8);
    WordShift(d, 0, h, 84, 4);
    WordShift(d, 0, h, 88, 8);
    assert d[0] == h[0] && d[32] == h[32] && d[64] == h[64];
    BitmapFits(root);
    SpecialSkip(v, d, 0x81, 0);
    SpecialRead(v, d, 32, BitmapBytes(root));
    SpecialSkip(v, d, 0x82, 0);
    SpecialSkip(v, d, 0x82, 32);
    SpecialRead(v, d, 64, PadTo(upcase, CLUSTER));
  }

  lemma BitmapFits(root: Node)
    ensures (ClusterCount(root) + 7) / 8 <= |BitmapBytes(root)|
    ensures BitmapBytes(root)[..(ClusterCount(root) + 7) / 8] == Ones((ClusterCount(root) + 7) / 8)
  {
    hide ClusterCount, Bitmap, Content, Ones;
  }

  /**
   * A reader that looks the bitmap up in the root directory finds every cluster of the heap in use, and with that
   * every cluster of every run; and the up-case table it finds is the one that was given.
   */
  lemma EveryClusterMarked(root: Node, upcase: seq<byte>)
    requires root.Dir? && |upcase| == UPCASE_SIZE && NoWrap(root)
    ensures var bitmap := ReadSpecial(Image(root, upcase), 0x81);
      && bitmap.Some? && |bitmap.value| == (ClusterCount(root) + 7) / 8
      && (forall c :: 2 <= c <= ClusterCount(root) + 1 ==> Marked(bitmap.value, c))
      && (forall i, c :: InRun(AllRuns(root), 2, i, c) ==> Marked(bitmap.value, c))
    ensures ReadSpecial(Image(root, upcase), 0x82) == Some(upcase)
  {
    hide Image, AllRuns, NoWrap, BitmapBytes, ReadSpecial, ClusterCount, InRun, Marked;
    SpecialsRead(root, upcase);
    BitmapFits(root);
    var bitmap := Ones((ClusterCount(root) + 7) / 8);
    forall c | 2 <= c <= ClusterCount(root) + 1 ensures Marked(bitmap, c) {
      MarkedBelow(root, c);
    }
    forall i: nat, c: nat | InRun(AllRuns(root), 2, i, c) ensures Marked(bitmap, c) {
      Tiling(root, c);
    }
    assert PadTo(upcase, CLUSTER)[..UPCASE_SIZE] == upcase;
  }
}
