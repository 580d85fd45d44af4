/** A reader that starts from the boot sector, follows the FAT, and parses directories; and the image round trip. */
module ExfatReader {
  import opened Bytes
  import opened ExfatLayout
  import opened ExfatDirectory
  import opened ExfatVolume

  // ---------------------------------------------------------------- the reader

  /** A mounted volume: its bytes, where the cluster heap starts, and the decoded FAT. */
  datatype Volume = Volume(img: seq<byte>, heapAt: nat, fat: seq<nat>)

  function ClusterAt(v: Volume, c: nat): Option<seq<byte>> {
    if c < 2 || v.heapAt + (c - 1) * CLUSTER > |v.img| then None
    else Some(v.img[v.heapAt + (c - 2) * CLUSTER..v.heapAt + (c - 1) * CLUSTER])
  }

  function Gather(v: Volume, cs: seq<nat>): Option<seq<byte>> {
    if cs == [] then Some([])
    else match (ClusterAt(v, cs[0]), Gather(v, cs[1..]))
      case (Some(a), Some(b)) => Some(a + b)
      case _ => None
  }

  function ReadChain(v: Volume, first: nat): Option<seq<byte>> {
    match Follow(v.fat, first, |v.fat|)
    case None => None
    case Some(cs) => Gather(v, cs)
  }

  function ToName(s: seq<nat>): Option<seq<byte>> {
    if forall i :: 0 <= i < |s| ==> s[i] < 256
    then Some(seq(|s|, i requires 0 <= i < |s| && (forall i :: 0 <= i < |s| ==> s[i] < 256) => s[i]))
    else None
  }

  function ReadNode(v: Volume, item: Item, depth: nat): Option<Node>
    decreases depth, 0, 1
  {
    match ToName(item.name)
    case None => None
    case Some(name) =>
      if !item.dir && item.first == 0 then (if item.size == 0 then Some(File(name, [])) else None)
      else match ReadChain(v, item.first)
        case None => None
        case Some(bytes) =>
          if !item.dir then (if item.size <= |bytes| then Some(File(name, bytes[..item.size])) else None)
          else if depth == 0 then None
          else match ReadDirectory(bytes, 0)
            case None => None
            case Some(items) =>
              match ReadNodes(v, items, depth - 1)
              case None => None
              case Some(children) => Some(Dir(name, children))
  }

  function ReadNodes(v: Volume, items: seq<Item>, depth: nat): Option<seq<Node>>
    decreases depth, 1, |items|
  {
    if items == [] then Some([])
    else match (ReadNode(v, items[0], depth), ReadNodes(v, items[1..], depth))
      case (Some(n), Some(rest)) => Some([n] + rest)
      case _ => None
  }

  /** Sector 11 repeats the checksum of the eleven sectors before it; flags and percentage in use do not enter. */
  predicate ChecksumOk(img: seq<byte>)
    requires |img| >= 12 * SECTOR
  {
    var sum := Fold(img[..11 * SECTOR], 0, 0, 0x8000_0000, {106, 107, 112});
    forall i :: 0 <= i < 128 ==> Word(img, 11 * SECTOR + 4 * i, 4) == sum
  }

  /**
   * The fixed fields of the boot region: zeros up to byte 64, revision 1.00, sectors of 2^9 bytes, clusters of 2^7
   * sectors, one FAT, and the signatures of the boot sector and of the eight extended ones.
   */
  predicate FormatOk(img: seq<byte>)
    requires |img| >= 12 * SECTOR
  {
    && (forall i :: 11 <= i < 64 ==> img[i] == 0)
    && Word(img, 104, 2) == 0x0100 && img[108] == 9 && img[109] == 7 && img[110] == 1
    && img[510] == 0x55 && img[511] == 0xAA
    && forall k :: 1 <= k <= 8 ==> Word(img, 512 * k + 508, 4) == 0xAA55_0000
  }

  /** Name, format, checksum, and the backup boot region behind the main one. */
  predicate BootOk(img: seq<byte>) {
    && |img| >= 24 * SECTOR
    && img[..11] == [0xEB, 0x76, 0x90] + [0x45, 0x58, 0x46, 0x41, 0x54, 0x20, 0x20, 0x20]
    && FormatOk(img) && ChecksumOk(img)
    && img[12 * SECTOR..24 * SECTOR] == img[0..12 * SECTOR]
  }

  /** Decodes the FAT named by the boot sector; it has to lie before the heap and begin with the media descriptor. */
  function Mount(img: seq<byte>): Option<Volume> {
    if !BootOk(img) then None
    else
      var fatAt, count := SECTOR * Word(img, 80, 4), Word(img, 92, 4) + 2;
      if fatAt + 4 * count > |img| || |img| != SECTOR * Word(img, 72, 8) || 4 * count > SECTOR * Word(img, 84, 4) ||
         Word(img, 80, 4) + Word(img, 84, 4) > Word(img, 88, 4) ||
         Word(img, fatAt, 4) != 0xFFFF_FFF8 || Word(img, fatAt + 4, 4) != 0xFFFF_FFFF
      then None
      else Some(Volume(img, SECTOR * Word(img, 88, 4), DecodeFat(img, fatAt, count)))
  }

  function DecodeFat(img: seq<byte>, fatAt: nat, count: nat): seq<nat>
    requires fatAt + 4 * count <= |img|
  {
    seq(count, c requires 0 <= c < count && fatAt + 4 * count <= |img| => Word(img, fatAt + 4 * c, 4))
  }

  /** Reads the whole tree of an image, at most `depth` directories deep. */
  function ReadImage(img: seq<byte>, depth: nat): Option<Node> {
    match Mount(img)
    case None => None
    case Some(v) => ReadNode(v, Item(true, [0x2F], Word(img, 96, 4), 0), depth)
  }

  // ---------------------------------------------------------------- embedded heaps and chains

  /** The clusters from `at` on hold `bytes`. */
  ghost predicate Holds(v: Volume, at: nat, bytes: seq<byte>) {
    && at >= 2 && v.heapAt + (at - 2) * CLUSTER + |bytes| <= |v.img|
    && v.img[v.heapAt + (at - 2) * CLUSTER..v.heapAt + (at - 2) * CLUSTER + |bytes|] == bytes
  }

  /** The FAT entries from cluster `at` on are `chains`. */
  ghost predicate Chained(v: Volume, at: nat, chains: seq<nat>) {
    at + |chains| <= |v.fat| <= END_OF_CHAIN && v.fat[at..at + |chains|] == chains
  }

  lemma HoldsSplit(v: Volume, at: nat, a: seq<byte>, b: seq<byte>, k: nat)
    requires Holds(v, at, a + b) && |a| == CLUSTER * k
    ensures Holds(v, at, a) && Holds(v, at + k, b)
  {
    var s := v.heapAt + (at - 2) * CLUSTER;
    SubSlice(v.img, s, a + b, 0, |a|);
    SubSlice(v.img, s, a + b, |a|, |a| + |b|);
    assert (a + b)[0..|a|] == a && (a + b)[|a|..|a| + |b|] == b;
    assert v.heapAt + (at + k - 2) * CLUSTER == s + |a|;
  }

  lemma ChainedSplit(v: Volume, at: nat, a: seq<nat>, b: seq<nat>)
    requires Chained(v, at, a + b)
    ensures Chained(v, at, a) && Chained(v, at + |a|, b)
  {
    var s := v.fat[at..at + |a + b|];
    assert v.fat[at..at + |a|] == s[..|a|];
    assert v.fat[at + |a|..at + |a| + |b|] == s[|a|..];
  }

  lemma {:induction false} GatherRange(v: Volume, at: nat, bytes: seq<byte>, k: nat)
    requires Holds(v, at, bytes) && |bytes| == CLUSTER * k
    ensures Gather(v, Range(at, k)) == Some(bytes)
    decreases k
  {
    var r := Range(at, k);
    if k > 0 {
      assert bytes == bytes[..CLUSTER] + bytes[CLUSTER..];
      HoldsSplit(v, at, bytes[..CLUSTER], bytes[CLUSTER..], 1);
      GatherRange(v, at + 1, bytes[CLUSTER..], k - 1);
      assert r[0] == at && r[1..] == Range(at + 1, k - 1);
    } else {
      assert bytes == [];
    }
  }

  /** A run read through the FAT yields the clusters it holds. */
  lemma ReadRun(v: Volume, at: nat, bytes: seq<byte>, k: nat)
    requires k > 0 && Holds(v, at, bytes) && |bytes| == CLUSTER * k && Chained(v, at, Chain(at, k))
    ensures ReadChain(v, at) == Some(bytes)
  {
    forall c | at <= c < at + k ensures v.fat[c] == if c + 1 < at + k then c + 1 else END_OF_CHAIN {
      assert v.fat[at..at + k][c - at] == Chain(at, k)[c - at];
    }
    FollowChain(v.fat, at, k, 0, |v.fat|);
    GatherRange(v, at, bytes, k);
  }

  // ---------------------------------------------------------------- trees the format can hold

  /** ASCII names, and files within the size the scan admits. */
  predicate Fine(n: Node)
    decreases n, 1
  {
    Ascii(n.name) &&
    match n
    case File(_, data) => |data| <= (WORD32 - 3) * CLUSTER
    case Dir(_, children) => AllFine(children)
  }

  predicate AllFine(ns: seq<Node>)
    decreases ns, 0
  {
    ns == [] || (Fine(ns[0]) && AllFine(ns[1..]))
  }

  /** Directories nested at most `depth` deep. */
  predicate Nested(n: Node, depth: nat)
    decreases n, 1
  {
    n.File? || (depth > 0 && AllNested(n.children, depth - 1))
  }

  predicate AllNested(ns: seq<Node>, depth: nat)
    decreases ns, 0
  {
    ns == [] || (Nested(ns[0], depth) && AllNested(ns[1..], depth))
  }

  lemma OwnWithin(n: Node, root: bool)
    ensures Own(n, root) <= Total(n, root)
    ensures n.Dir? ==> Own(n, root) >= 1
    ensures n.File? ==> |n.data| <= CLUSTER * Own(n, root) && (Own(n, root) == 0 <==> n.data == [])
  {
  }

  lemma {:induction false} FineEncodable(ns: seq<Node>, next: nat)
    requires AllFine(ns) && 2 <= next && next + TotalOf(ns) <= END_OF_CHAIN
    ensures ListEncodable(ns, next)
    decreases |ns|
  {
    if ns != [] {
      OwnWithin(ns[0], false);
      FineEncodable(ns[1..], next + Total(ns[0], false));
      hide Own, Total;
    }
  }

  lemma NameKept(name: seq<byte>)
    ensures ToName(name) == Some(name)
  {
    assert ToName(name).Some? && |ToName(name).value| == |name|;
    assert ToName(name).value == name;
  }

  // ---------------------------------------------------------------- round trip

  /** Reading a child of a directory, by its item, yields the child. */
  lemma {:induction false} ReadsNode(v: Volume, n: Node, at: nat, depth: nat)
    requires Fine(n) && Nested(n, depth)
    requires Holds(v, at, Heap(n, false, at, [])) && Chained(v, at, Chains(Runs(n, false), at))
    ensures ReadNode(v, ItemOf(n, FirstOf(n, at)), depth) == Some(n)
    decreases n, 1
  {
    OwnWithin(n, false);
    NameKept(n.name);
    if n.File? {
      ReadsFile(v, n, at, depth);
    } else {
      ReadsDir(v, n, false, at, [], depth, ItemOf(n, FirstOf(n, at)));
    }
  }

  lemma ReadsFile(v: Volume, n: Node, at: nat, depth: nat)
    requires n.File? && Fine(n)
    requires Holds(v, at, Heap(n, false, at, [])) && Chained(v, at, Chains(Runs(n, false), at))
    ensures ReadNode(v, ItemOf(n, FirstOf(n, at)), depth) == Some(n)
  {
    OwnWithin(n, false);
    NameKept(n.name);
    var own := Own(n, false);
    if own > 0 {
      NodeChains(n, false, at);
      assert Heap(n, false, at, []) == NodeBytes(n, false, at, []);
      assert Chain(at, own) + [] == Chain(at, own);
      ReadRun(v, at, NodeBytes(n, false, at, []), own);
      assert NodeBytes(n, false, at, [])[..|n.data|] == n.data;
    }
  }

  /** Reading a directory, whose own entries may follow special ones that the reader skips. */
  lemma {:induction false} ReadsDir(v: Volume, n: Node, root: bool, at: nat, head: seq<byte>, depth: nat, item: Item)
    requires n.Dir? && AllFine(n.children) && Nested(n, depth)
    requires |head| == (if root then 96 else 0)
    requires root ==> head[0] == 0x83 && head[32] == 0x81 && head[64] == 0x82
    requires Holds(v, at, Heap(n, root, at, head)) && Chained(v, at, Chains(Runs(n, root), at))
    requires item.dir && item.first == at && item.name == n.name && ToName(n.name) == Some(n.name)
    ensures ReadNode(v, item, depth) == Some(n)
    decreases n, 0
  {
    hide Own, Total, TotalOf, ReadChain, ReadDirectory, ReadNodes, Items, NodeBytes, Heap, HeapOf, Chains, Runs,
      RunsOf, Holds, Chained, ReadNode, ListEncodable;
    var own := Own(n, root);
    var next := at + own;
    DirParts(v, n, root, at, head);
    ReadRun(v, at, NodeBytes(n, root, at, head), own);
    FineEncodable(n.children, next);
    ReadsEntries(n, root, at, head);
    ReadsNodes(v, n.children, next, depth - 1);
    Compose(v, item, depth, n.name, NodeBytes(n, root, at, head), Items(n.children, next), n.children);
  }

  lemma DirParts(v: Volume, n: Node, root: bool, at: nat, head: seq<byte>)
    requires n.Dir? && |head| == (if root then 96 else 0)
    requires Holds(v, at, Heap(n, root, at, head)) && Chained(v, at, Chains(Runs(n, root), at))
    ensures var own := Own(n, root);
            && own > 0 && Holds(v, at, NodeBytes(n, root, at, head)) && Chained(v, at, Chain(at, own))
            && Holds(v, at + own, HeapOf(n.children, at + own))
            && Chained(v, at + own, Chains(RunsOf(n.children), at + own))
            && at + own + TotalOf(n.children) <= END_OF_CHAIN && at >= 2
  {
    hide Own, NodeBytes, HeapOf, Heap, Runs, RunsOf, Chains, Chain, Holds, Total, TotalOf;
    var own := Own(n, root);
    OwnWithin(n, root);
    DirShape(n, root, at, head);
    NodeChains(n, root, at);
    RunsOfTotal(n.children);
    HoldsSplit(v, at, NodeBytes(n, root, at, head), HeapOf(n.children, at + own), own);
    ChainedSplit(v, at, Chain(at, own), Chains(RunsOf(n.children), at + own));
    HoldsStart(v, at, NodeBytes(n, root, at, head));
  }

  lemma HoldsStart(v: Volume, at: nat, bytes: seq<byte>)
    requires Holds(v, at, bytes)
    ensures at >= 2
  {
  }

  lemma Compose(v: Volume, item: Item, depth: nat, name: seq<byte>, bytes: seq<byte>, items: seq<Item>,
      children: seq<Node>)
    requires item.dir && ToName(item.name) == Some(name) && depth > 0
    requires ReadChain(v, item.first) == Some(bytes) && ReadDirectory(bytes, 0) == Some(items)
    requires ReadNodes(v, items, depth - 1) == Some(children)
    ensures ReadNode(v, item, depth) == Some(Dir(name, children))
  {
    hide ReadChain, ReadDirectory, ReadNodes, ToName;
  }

  /** The entries of a directory's clusters, behind the special ones. */
  lemma ReadsEntries(n: Node, root: bool, at: nat, head: seq<byte>)
    requires n.Dir? && |head| == (if root then 96 else 0)
    requires root ==> head[0] == 0x83 && head[32] == 0x81 && head[64] == 0x82
    requires ListEncodable(n.children, at + Own(n, root))
    ensures ReadDirectory(NodeBytes(n, root, at, head), 0) == Some(Items(n.children, at + Own(n, root)))
  {
    hide ListEncodable, Items, Listing, NodeBytes, ReadSet, Own, ReadDirectory;
    var next := at + Own(n, root);
    var listing := Listing(n.children, next);
    var d, zeros := NodeBytes(n, root, at, head), CLUSTER * Own(n, root) - |head| - |listing|;
    EntriesShape(n, root, at, head);
    ListingRoundTrip(head, n.children, next, zeros);
    if root {
      assert d[0] == head[0] && d[32] == head[32] && d[64] == head[64];
      SkipSpecial(d, 64);
      SkipSpecial(d, 32);
      SkipSpecial(d, 0);
    }
  }

  lemma EntriesShape(n: Node, root: bool, at: nat, head: seq<byte>)
    requires n.Dir? && |head| == (if root then 96 else 0)
    ensures var listing := Listing(n.children, at + Own(n, root));
            && |head| + |listing| <= CLUSTER * Own(n, root)
            && NodeBytes(n, root, at, head) == head + listing + Zeros(CLUSTER * Own(n, root) - |head| - |listing|)
  {
    hide Listing;
  }

  lemma SkipSpecial(d: seq<byte>, pos: nat)
    requires pos + 32 <= |d| && d[pos] in {0x81, 0x82, 0x83}
    ensures ReadDirectory(d, pos) == ReadDirectory(d, pos + 32)
  {
  }

  lemma {:induction false} ReadsNodes(v: Volume, ns: seq<Node>, next: nat, depth: nat)
    requires AllFine(ns) && AllNested(ns, depth)
    requires Holds(v, next, HeapOf(ns, next)) && Chained(v, next, Chains(RunsOf(ns), next))
    ensures ReadNodes(v, Items(ns, next), depth) == Some(ns)
    decreases ns, 0
  {
    hide Own, Total, TotalOf, ReadNode, Heap, HeapOf, Chains, Runs, RunsOf, Holds, Chained, FirstOf, ItemOf, Fine,
      Nested;
    if ns != [] {
      var n, rest := ns[0], ns[1..];
      var after := next + Total(n, false);
      ListParts(v, ns, next);
      ReadsNode(v, n, next, depth);
      ReadsNodes(v, rest, after, depth);
      assert Items(ns, next)[0] == ItemOf(n, FirstOf(n, next)) && Items(ns, next)[1..] == Items(rest, after);
      assert ns == [n] + rest;
    }
  }

  lemma ListParts(v: Volume, ns: seq<Node>, next: nat)
    requires ns != [] && Holds(v, next, HeapOf(ns, next)) && Chained(v, next, Chains(RunsOf(ns), next))
    ensures var after := next + Total(ns[0], false);
            && Holds(v, next, Heap(ns[0], false, next, [])) && Chained(v, next, Chains(Runs(ns[0], false), next))
            && Holds(v, after, HeapOf(ns[1..], after)) && Chained(v, after, Chains(RunsOf(ns[1..]), after))
  {
    hide Runs, RunsOf, Heap, HeapOf, Chains, Total, Holds, Chained, Sum;
    var n, rest := ns[0], ns[1..];
    var after := next + Total(n, false);
    RunsTotal(n, false);
    ListShape(ns, next);
    ChainsAppend(Runs(n, false), RunsOf(rest), next);
    HoldsSplit(v, next, Heap(n, false, next, []), HeapOf(rest, after), Total(n, false));
    ChainedSplit(v, next, Chains(Runs(n, false), next), Chains(RunsOf(rest), after));
  }

  // ---------------------------------------------------------------- mounting the finished image

  /** Sizes for which the writer's 32-bit arithmetic is exact. */
  predicate NoWrap(root: Node) { Content(root) <= MAX_CONTENT && 4 * (ClusterCount(root) + 2) + 511 < WORD32 }

  lemma {:induction false} ChainsSmall(counts: seq<nat>, first: nat, i: nat)
    requires i < Sum(counts)
    ensures Chains(counts, first)[i] == END_OF_CHAIN || Chains(counts, first)[i] <= first + Sum(counts)
  {
    if i < counts[0] {
      assert Chains(counts, first)[i] == Chain(first, counts[0])[i];
    } else {
      ChainsSmall(counts[1..], first + counts[0], i - counts[0]);
      assert Chains(counts, first)[i] == Chains(counts[1..], first + counts[0])[i - counts[0]];
    }
  }

  lemma {:induction false} WordsRead(ws: seq<nat>, c: nat)
    requires c < |ws| && ws[c] < WORD32
    ensures Word(Words(ws), 4 * c, 4) == ws[c]
  {
    hide FromLe, Le, Word;
    var n := |ws| - 1;
    Powers();
    if c == n {
      FieldAppend(Words(ws[..n]), 4, ws[n]);
    } else {
      WordsRead(ws[..n], c);
      WordAppend(Words(ws[..n]), Le(4, ws[n]), 4 * c, 4);
    }
  }

  lemma FieldAt(f: seq<byte>, n: nat, v: nat)
    requires v < Pow256(n)
    ensures |f + Le(n, v)| == |f| + n && Word(f + Le(n, v), |f|, n) == v
  {
    hide Le, Word, Pow256;
    FieldAppend(f, n, v);
  }

  lemma ThreeFields(b0: seq<byte>, k: nat, u: nat, v: nat, w: nat)
    requires u < Pow256(k) && v < Pow256(4) && w < Pow256(4)
    ensures var b := b0 + Le(k, u) + Le(4, v) + Le(4, w);
            && |b| == |b0| + k + 8 && Word(b, |b0|, k) == u
            && Word(b, |b0| + k, 4) == v && Word(b, |b0| + k + 4, 4) == w
  {
    hide Le, Word, Pow256;
    var b1 := b0 + Le(k, u);
    var b2 := b1 + Le(4, v);
    FieldAt(b0, k, u);
    FieldAt(b1, 4, v);
    FieldAt(b2, 4, w);
    WordAppend(b1, Le(4, v), |b0|, k);
    WordAppend(b2, Le(4, w), |b0|, k);
    WordAppend(b2, Le(4, w), |b0| + k, 4);
  }

  lemma EarlyFields(b0: seq<byte>, v: nat, p: nat, q: nat, rest: seq<byte>)
    requires |b0| == 72 && v < Pow256(8) && p < Pow256(4) && q < Pow256(4)
    ensures var b := b0 + Le(8, v) + Le(4, p) + Le(4, q);
            |b| == 88 && Word(b + rest, 72, 8) == v && Word(b + rest, 80, 4) == p && Word(b + rest, 84, 4) == q
  {
    hide Le, Word, Pow256;
    var front := b0 + Le(8, v) + Le(4, p) + Le(4, q);
    ThreeFields(b0, 8, v, p, q);
    WordAppend(front, rest, 72, 8);
    WordAppend(front, rest, 80, 4);
    WordAppend(front, rest, 84, 4);
  }

  lemma Regroup(a: seq<byte>, b: seq<byte>, c: seq<byte>, d: seq<byte>)
    ensures a + b + c + d == a + (b + c + d)
  {
  }

  lemma BootSplit(root: Node, b0: seq<byte>)
    requires b0 == [0xEB, 0x76, 0x90] + [0x45, 0x58, 0x46, 0x41, 0x54, 0x20, 0x20, 0x20] + Zeros(61)
    ensures var front := b0 + Le(8, VolumeSectors(root)) + Le(4, 128) + Le(4, FatSectors(ClusterCount(root) + 2));
            var h, c, r := Le(4, HeapSector(root)), Le(4, ClusterCount(root)), Le(4, RootCluster(root));
            |b0| == 72 && BootFields(root) == front + h + c + r == front + (h + c + r)
  {
    hide Le, VolumeSectors, HeapSector, FatSectors, ClusterCount, RootCluster;
    Regroup(b0 + Le(8, VolumeSectors(root)) + Le(4, 128) + Le(4, FatSectors(ClusterCount(root) + 2)),
        Le(4, HeapSector(root)), Le(4, ClusterCount(root)), Le(4, RootCluster(root)));
  }

  lemma BootValues(root: Node)
    requires NoWrap(root)
    ensures var b := BootFields(root);
            && Word(b, 72, 8) == VolumeSectors(root) && Word(b, 80, 4) == 128
            && Word(b, 84, 4) == FatSectors(ClusterCount(root) + 2)
            && Word(b, 88, 4) == HeapSector(root) && Word(b, 92, 4) == ClusterCount(root)
            && Word(b, 96, 4) == RootCluster(root)
  {
    hide FromLe, Le, Word, FatSectors, VolumeSectors, HeapSector, ClusterCount, RootCluster, NoWrap, BootFields;
    Powers();
    GeometrySmall(root);
    var b0 := [0xEB, 0x76, 0x90] + [0x45, 0x58, 0x46, 0x41, 0x54, 0x20, 0x20, 0x20] + Zeros(61);
    BootSplit(root, b0);
    var v, q := VolumeSectors(root), FatSectors(ClusterCount(root) + 2);
    var rest := Le(4, HeapSector(root)) + Le(4, ClusterCount(root)) + Le(4, RootCluster(root));
    EarlyFields(b0, v, 128, q, rest);
    ThreeFields(b0 + Le(8, v) + Le(4, 128) + Le(4, q), 4, HeapSector(root), ClusterCount(root), RootCluster(root));
  }

  lemma BootMark(root: Node)
    ensures BootFields(root)[..11] == [0xEB, 0x76, 0x90] + [0x45, 0x58, 0x46, 0x41, 0x54, 0x20, 0x20, 0x20]
  {
    hide Le, VolumeSectors, HeapSector, FatSectors, ClusterCount, RootCluster;
  }

  lemma GeometrySmall(root: Node)
    requires NoWrap(root)
    ensures VolumeSectors(root) < 0x1_0000_0000_0000_0000 && FatSectors(ClusterCount(root) + 2) < WORD32
    ensures HeapSector(root) < WORD32 && ClusterCount(root) + 2 < END_OF_CHAIN
    ensures RootCluster(root) <= ClusterCount(root) + 2
  {
    hide Bitmap, Total;
  }

  lemma BootInImage(root: Node, upcase: seq<byte>)
    requires |upcase| == UPCASE_SIZE
    ensures |Image(root, upcase)| >= 128 * SECTOR + |FatBytes(root)|
    ensures Image(root, upcase)[0..12 * SECTOR] == Boot(root) == Image(root, upcase)[12 * SECTOR..24 * SECTOR]
    ensures Image(root, upcase)[128 * SECTOR..128 * SECTOR + |FatBytes(root)|] == FatBytes(root)
  {
    hide Boot, FatBytes, BitmapBytes, PadTo, Heap, RootEntries, Total, Bitmap, ClusterCount, FatSectors, RootCluster;
    var front := Boot(root) + Boot(root) + Zeros(104 * SECTOR);
    var back := BitmapBytes(root) + PadTo(upcase, CLUSTER) + Heap(root, true, RootCluster(root), RootEntries(root));
    assert Image(root, upcase) == front + FatBytes(root) + back;
    assert front[0..12 * SECTOR] == Boot(root) == front[12 * SECTOR..24 * SECTOR];
  }

  lemma HeapInImage(root: Node, upcase: seq<byte>)
    requires |upcase| == UPCASE_SIZE
    ensures var v := Volume(Image(root, upcase), SECTOR * HeapSector(root), []);
            Holds(v, RootCluster(root), Heap(root, true, RootCluster(root), RootEntries(root)))
  {
    hide Prefix, Heap, RootEntries, Total, Bitmap, HeapSector;
    var prefix, heap := Prefix(root, upcase), Heap(root, true, RootCluster(root), RootEntries(root));
    assert (prefix + heap)[|prefix|..|prefix| + |heap|] == heap;
  }

  lemma BootParts(root: Node, img: seq<byte>)
    requires |img| >= 12 * SECTOR && img[0..12 * SECTOR] == Boot(root)
    ensures img[..11 * SECTOR] == BootBody(root) && img[0..100] == BootFields(root)
    ensures img[11 * SECTOR..12 * SECTOR] == Repeat(BootSum(BootBody(root), 11 * SECTOR), 128)
  {
    hide BootRest, Extended, Repeat, BootSum, BootFields;
    SubSlice(img, 0, Boot(root), 0, 11 * SECTOR);
    SubSlice(img, 0, Boot(root), 11 * SECTOR, 12 * SECTOR);
    SubSlice(img, 0, Boot(root), 0, 100);
    assert Boot(root)[0..11 * SECTOR] == BootBody(root);
    assert Boot(root)[0..100] == BootFields(root);
  }

  /** The writer's boot checksum is that of the specification. */
  lemma {:induction false} BootSumIsFold(s: seq<byte>, k: nat)
    requires k <= |s|
    ensures Fold(s, k, BootSum(s, k), 0x8000_0000, {106, 107, 112}) == BootSum(s, |s|)
    decreases |s| - k
  {
    if k < |s| {
      BootSumIsFold(s, k + 1);
    }
  }

  lemma {:induction false} RepeatWord(sum: nat, k: nat, i: nat)
    requires i < k && sum < WORD32
    ensures Word(Repeat(sum, k), 4 * i, 4) == sum
  {
    hide Le, Word;
    Powers();
    if i == k - 1 {
      FieldAt(Repeat(sum, k - 1), 4, sum);
    } else {
      RepeatWord(sum, k - 1, i);
      WordAppend(Repeat(sum, k - 1), Le(4, sum), 4 * i, 4);
    }
  }

  lemma BootChecked(root: Node, img: seq<byte>)
    requires |img| >= 12 * SECTOR && img[..11 * SECTOR] == BootBody(root)
    requires img[11 * SECTOR..12 * SECTOR] == Repeat(BootSum(BootBody(root), 11 * SECTOR), 128)
    ensures ChecksumOk(img)
  {
    hide BootBody, BootSum, Repeat, Word, Fold;
    var body := BootBody(root);
    var sum := BootSum(body, 11 * SECTOR);
    BootSumIsFold(body, 0);
    assert BootSum(body, 0) == 0 by { SumBase(body); }
    forall i | 0 <= i < 128 ensures Word(img, 11 * SECTOR + 4 * i, 4) == sum {
      RepeatWord(sum, 128, i);
      WordShift(img, 11 * SECTOR, Repeat(sum, 128), 4 * i, 4);
    }
  }

  lemma SumBase(s: seq<byte>)
    ensures BootSum(s, 0) == 0
  {
  }

  lemma BodyParts(root: Node)
    ensures BootBody(root)[0..100] == BootFields(root) && BootBody(root)[100..512] == BootRest()
    ensures BootBody(root)[512..512 + 4096] == Extended(8)
  {
    hide BootRest, Extended, BootFields;
    var rest := BootRest() + Extended(8) + Zeros(2 * SECTOR);
    assert BootBody(root)[100..] == rest;
    assert rest[..412] == BootRest() && rest[412..412 + 4096] == Extended(8);
    assert BootBody(root)[100..][..412] == BootBody(root)[100..512];
    assert BootBody(root)[100..][412..412 + 4096] == BootBody(root)[512..512 + 4096];
  }

  lemma ReservedZero(root: Node, i: nat)
    requires 11 <= i < 64
    ensures BootFields(root)[i] == 0
  {
    hide Le, VolumeSectors, HeapSector, FatSectors, ClusterCount, RootCluster;
  }

  lemma RestFields()
    ensures var r := BootRest();
            && Word(r, 4, 2) == 0x0100 && r[8] == 9 && r[9] == 7 && r[10] == 1 && r[410] == 0x55 && r[411] == 0xAA
  {
    hide FromLe, Word;
    Powers();
    FieldAt(Le(4, SERIAL), 2, 0x0100);
    var rest := Le(2, 0) + [9, 7, 1, 0x80, 0xFF] + Zeros(397) + Le(2, 0xAA55);
    WordAppend(Le(4, SERIAL) + Le(2, 0x0100), rest, 4, 2);
    assert BootRest() == Le(4, SERIAL) + Le(2, 0x0100) + rest;
    assert Le(2, 0xAA55) == [0x55, 0xAA];
  }

  lemma {:induction false} ExtendedWord(n: nat, k: nat)
    requires k < n
    ensures Word(Extended(n), 512 * k + 508, 4) == 0xAA55_0000
  {
    hide FromLe, Word, Le;
    Powers();
    var sector := Zeros(508) + Le(4, 0xAA55_0000);
    if k == n - 1 {
      FieldAt(Extended(n - 1) + Zeros(508), 4, 0xAA55_0000);
      assert Extended(n) == Extended(n - 1) + Zeros(508) + Le(4, 0xAA55_0000);
    } else {
      ExtendedWord(n - 1, k);
      WordAppend(Extended(n - 1), sector, 512 * k + 508, 4);
    }
  }

  lemma BootFormatted(root: Node, img: seq<byte>)
    requires |img| >= 12 * SECTOR && img[..11 * SECTOR] == BootBody(root)
    ensures FormatOk(img)
  {
    hide BootBody, BootFields, BootRest, Extended, Word;
    var body := BootBody(root);
    BodyParts(root);
    RestFields();
    forall i | 11 <= i < 64 ensures img[i] == 0 {
      ReservedZero(root, i);
      assert img[..11 * SECTOR][i] == body[0..100][i];
    }
    SubSlice(img, 0, body, 0, 100);
    assert img[0..11 * SECTOR] == img[..11 * SECTOR];
    SubSlice(img, 0, body, 100, 512);
    SubSlice(img, 0, body, 512, 512 + 4096);
    WordShift(img, 100, BootRest(), 4, 2);
    forall j | 0 <= j < 412 ensures img[100 + j] == BootRest()[j] {
      assert img[100..512][j] == BootRest()[j];
    }
    assert img[108] == img[100 + 8] && img[109] == img[100 + 9] && img[110] == img[100 + 10];
    assert img[510] == img[100 + 410] && img[511] == img[100 + 411];
    forall k | 1 <= k <= 8 ensures Word(img, 512 * k + 508, 4) == 0xAA55_0000 {
      ExtendedWord(8, k - 1);
      WordShift(img, 512, Extended(8), 512 * (k - 1) + 508, 4);
    }
  }

  /** A reader that checks name, format, checksum and backup as the specification asks accepts the boot region. */
  lemma BootAccepted(root: Node, img: seq<byte>)
    requires |img| >= 24 * SECTOR && img[0..12 * SECTOR] == Boot(root) && NoWrap(root)
    requires img[12 * SECTOR..24 * SECTOR] == Boot(root)
    ensures BootOk(img)
    ensures forall at: nat, n: nat :: at + n <= 100 ==> Word(img, at, n) == Word(BootFields(root), at, n)
  {
    hide Boot, BootBody, Repeat, BootSum, Word, BootFields, NoWrap, ChecksumOk, FormatOk;
    BootParts(root, img);
    BootFormatted(root, img);
    BootChecked(root, img);
    BootValues(root);
    BootMark(root);
    assert img[..11] == img[0..100][..11];
    forall at: nat, n: nat | at + n <= 100 ensures Word(img, at, n) == Word(BootFields(root), at, n) {
      WordShift(img, 0, BootFields(root), at, n);
    }
  }

  lemma FatEntrySmall(root: Node, c: nat)
    requires NoWrap(root) && c < ClusterCount(root) + 2
    ensures |Fat(AllRuns(root))| == ClusterCount(root) + 2 && Fat(AllRuns(root))[c] < WORD32
  {
    hide Bitmap, Total, Runs, FatSectors, Chains, ClusterCount, AllRuns;
    GeometrySmall(root);
    AllRunsTotal(root);
    var runs := AllRuns(root);
    if c >= 2 {
      ChainsSmall(runs, 2, c - 2);
      assert Fat(runs)[c] == Chains(runs, 2)[c - 2];
    }
  }

  lemma FatDecoded(root: Node, img: seq<byte>, c: nat)
    requires NoWrap(root) && c < ClusterCount(root) + 2
    requires 128 * SECTOR + |FatBytes(root)| <= |img|
    requires img[128 * SECTOR..128 * SECTOR + |FatBytes(root)|] == FatBytes(root)
    ensures 128 * SECTOR + 4 * c + 4 <= |img| && |Fat(AllRuns(root))| == ClusterCount(root) + 2
    ensures Word(img, 128 * SECTOR + 4 * c, 4) == Fat(AllRuns(root))[c]
  {
    hide FromLe, Word, ClusterCount, Fat, AllRuns, FatSectors, NoWrap, Words;
    FatEntrySmall(root, c);
    FatFits(root);
    var fat := Fat(AllRuns(root));
    WordsRead(fat, c);
    WordShift(img, 128 * SECTOR, FatBytes(root), 4 * c, 4);
    WordAppend(Words(fat), Zeros(SECTOR * FatSectors(ClusterCount(root) + 2) - |Words(fat)|), 4 * c, 4);
  }

  lemma FatRead(root: Node, img: seq<byte>)
    requires NoWrap(root) && 128 * SECTOR + |FatBytes(root)| <= |img|
    requires img[128 * SECTOR..128 * SECTOR + |FatBytes(root)|] == FatBytes(root)
    ensures 128 * SECTOR + 4 * (ClusterCount(root) + 2) <= |img|
    ensures DecodeFat(img, 128 * SECTOR, ClusterCount(root) + 2) == Fat(AllRuns(root))
  {
    hide FromLe, Word, ClusterCount, Fat, AllRuns, FatBytes, FatSectors;
    FatFits(root);
    forall c | 0 <= c < ClusterCount(root) + 2
      ensures 128 * SECTOR + 4 * c + 4 <= |img| && Word(img, 128 * SECTOR + 4 * c, 4) == Fat(AllRuns(root))[c]
    {
      FatDecoded(root, img, c);
    }
  }

  /** The FAT begins with the media descriptor and the reserved entry, and has room for every cluster. */
  lemma FatStart(root: Node, img: seq<byte>)
    requires NoWrap(root) && 128 * SECTOR + |FatBytes(root)| <= |img|
    requires img[128 * SECTOR..128 * SECTOR + |FatBytes(root)|] == FatBytes(root)
    ensures 128 * SECTOR + 8 <= |img|
    ensures Word(img, 128 * SECTOR, 4) == 0xFFFF_FFF8 && Word(img, 128 * SECTOR + 4, 4) == 0xFFFF_FFFF
    ensures 4 * (ClusterCount(root) + 2) <= SECTOR * FatSectors(ClusterCount(root) + 2)
    ensures 128 + FatSectors(ClusterCount(root) + 2) == HeapSector(root)
  {
    hide FromLe, Word, ClusterCount, AllRuns, FatBytes, FatSectors, NoWrap;
    FatFits(root);
    FatDecoded(root, img, 0);
    FatDecoded(root, img, 1);
  }

  /** Mounting the finished image finds the FAT and the heap where the writer put them. */
  lemma Mounts(root: Node, upcase: seq<byte>)
    requires |upcase| == UPCASE_SIZE && NoWrap(root)
    ensures Mount(Image(root, upcase))
      == Some(Volume(Image(root, upcase), SECTOR * HeapSector(root), Fat(AllRuns(root))))
    ensures Word(Image(root, upcase), 96, 4) == RootCluster(root)
  {
    hide FromLe, Word, BootFields, Image, ClusterCount, HeapSector, FatSectors, FatBytes, Fat, AllRuns, BootOk,
      VolumeSectors, DecodeFat, Boot, RootCluster;
    var img := Image(root, upcase);
    BootInImage(root, upcase);
    BootAccepted(root, img);
    BootValues(root);
    BootMark(root);
    FatRead(root, img);
    FatStart(root, img);
    assert |img| == SECTOR * VolumeSectors(root) by { ImageSectors(root, upcase); }
  }

  lemma ImageSectors(root: Node, upcase: seq<byte>)
    requires |upcase| == UPCASE_SIZE
    ensures |Image(root, upcase)| == SECTOR * VolumeSectors(root)
  {
    hide Image, VolumeSectors;
  }

  /** The heap and the FAT chains of the tree, as a reader of the finished image finds them. */
  lemma RootMounted(root: Node, upcase: seq<byte>)
    requires |upcase| == UPCASE_SIZE && NoWrap(root)
    ensures var v := Volume(Image(root, upcase), SECTOR * HeapSector(root), Fat(AllRuns(root)));
            var at := RootCluster(root);
            && Holds(v, at, Heap(root, true, at, RootEntries(root))) && Chained(v, at, Chains(Runs(root, true), at))
  {
    hide Image, Fat, AllRuns, Heap, Chains, Runs, RootEntries, FatSectors, HeapSector, Total, Bitmap, RootCluster,
      ClusterCount;
    HeapInImage(root, upcase);
    RootChained(root);
    GeometrySmall(root);
    FatFits(root);
  }

  /**
   * Image round trip: for every tree the writer accepts, a reader that starts from the boot sector
   * of the finished image recovers exactly the tree: names, kinds, sizes and contents.
   */
  lemma ImageRoundTrip(root: Node, upcase: seq<byte>, depth: nat)
    requires root.Dir? && root.name == [0x2F] && AllFine(root.children) && Nested(root, depth)
    requires |upcase| == UPCASE_SIZE && NoWrap(root)
    ensures ReadImage(Image(root, upcase), depth) == Some(root)
    ensures |Image(root, upcase)| == ImageSize(root)
  {
    hide FromLe, Word, Image, Fat, AllRuns, Heap, Chains, Runs, RootEntries, FatSectors, HeapSector, Mount, Total,
      Bitmap, ReadNode, ToName, RootCluster, Holds, Chained, NoWrap;
    var at := RootCluster(root);
    var v := Volume(Image(root, upcase), SECTOR * HeapSector(root), Fat(AllRuns(root)));
    Mounts(root, upcase);
    RootMounted(root, upcase);
    RootHead(root);
    NameKept(root.name);
    ReadsDir(v, root, true, at, RootEntries(root), depth, Item(true, [0x2F], at, 0));
  }

  lemma RootHead(root: Node)
    ensures var h := RootEntries(root); h[0] == 0x83 && h[32] == 0x81 && h[64] == 0x82
  {
  }

  lemma RootChained(root: Node)
    ensures var at, fat := RootCluster(root), Fat(AllRuns(root));
            var chains := Chains(Runs(root, true), at);
            at + |chains| <= |fat| && fat[at..at + |chains|] == chains
  {
    var a := [Bitmap(Content(root)), UPCASE_CLUSTERS];
    hide Runs, Bitmap, Total;
    assert a[1..] == [UPCASE_CLUSTERS];
    assert Sum(a[1..]) == UPCASE_CLUSTERS;
    assert Sum(a) == Bitmap(Content(root)) + UPCASE_CLUSTERS;
    ChainsAppend(a, Runs(root, true), 2);
    SumAppend(a, Runs(root, true));
  }
}
