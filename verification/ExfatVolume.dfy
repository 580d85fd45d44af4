/** The bytes of a whole exFAT volume, and a reader that starts from its boot sector. */
module ExfatVolume {
  import opened Bytes
  import opened ExfatLayout
  import opened ExfatDirectory

  const SECTOR: nat := 512
  const UPCASE_SIZE: nat := 5836
  const UPCASE_CHECKSUM: nat := 0xE619_D30D
  const SERIAL: nat := 0x4D6B_5046

  // ---------------------------------------------------------------- boot region

  function RootCluster(root: Node): nat { 2 + Bitmap(Content(root)) + UPCASE_CLUSTERS }

  /** The boot sector up to the fields a reader needs. */
  function BootFields(root: Node): (s: seq<byte>)
    ensures |s| == 100
  {
    [0xEB, 0x76, 0x90] + [0x45, 0x58, 0x46, 0x41, 0x54, 0x20, 0x20, 0x20] + Zeros(61) +
    Le(8, VolumeSectors(root)) + Le(4, 128) + Le(4, FatSectors(ClusterCount(root) + 2)) + Le(4, HeapSector(root)) +
    Le(4, ClusterCount(root)) + Le(4, RootCluster(root))
  }

  /** The rest of the boot sector: serial, revision, flags, shifts, drive, use, signature. */
  function BootRest(): (s: seq<byte>)
    ensures |s| == 412
  {
    Le(4, SERIAL) + Le(2, 0x0100) + Le(2, 0) + [9, 7, 1, 0x80, 0xFF] + Zeros(397) + Le(2, 0xAA55)
  }

  function Extended(k: nat): (s: seq<byte>)
    ensures |s| == SECTOR * k
  {
    if k == 0 then [] else Extended(k - 1) + (Zeros(508) + Le(4, 0xAA55_0000))
  }

  /** Sectors 0 to 10. */
  function BootBody(root: Node): (s: seq<byte>)
    ensures |s| == 11 * SECTOR
  {
    BootFields(root) + (BootRest() + Extended(8) + Zeros(2 * SECTOR))
  }

  function Rotate32(h: nat): nat { h % 2 * 0x8000_0000 + h / 2 }

  function BootSum(s: seq<byte>, k: nat): (h: nat)
    requires k <= |s|
    ensures h < WORD32
  {
    if k == 0 then 0
    else if k - 1 in {106, 107, 112} then BootSum(s, k - 1)
    else (Rotate32(BootSum(s, k - 1)) + s[k - 1]) % WORD32
  }

  function Repeat(sum: nat, k: nat): (s: seq<byte>)
    ensures |s| == 4 * k
  {
    if k == 0 then [] else Repeat(sum, k - 1) + Le(4, sum)
  }

  function Boot(root: Node): (s: seq<byte>)
    ensures |s| == 12 * SECTOR
  {
    BootBody(root) + Repeat(BootSum(BootBody(root), 11 * SECTOR), 128)
  }

  // ---------------------------------------------------------------- FAT, bitmap and heap

  function Words(ws: seq<nat>): (s: seq<byte>)
    ensures |s| == 4 * |ws|
  {
    if ws == [] then [] else Words(ws[..|ws| - 1]) + Le(4, ws[|ws| - 1])
  }

  function PadTo(s: seq<byte>, n: nat): (t: seq<byte>)
    requires |s| <= n
    ensures |t| == n
  {
    s + Zeros(n - |s|)
  }

  lemma FatFits(root: Node)
    ensures |Fat(AllRuns(root))| == ClusterCount(root) + 2
    ensures 4 * (ClusterCount(root) + 2) <= SECTOR * FatSectors(ClusterCount(root) + 2)
  {
    AllRunsTotal(root);
    hide ClusterCount, AllRuns;
  }

  function FatBytes(root: Node): (s: seq<byte>)
    ensures |s| == SECTOR * FatSectors(ClusterCount(root) + 2)
  {
    FatFits(root);
    PadTo(Words(Fat(AllRuns(root))), SECTOR * FatSectors(ClusterCount(root) + 2))
  }

  function Ones(n: nat): (s: seq<byte>)
    ensures |s| == n
  {
    seq(n, _ => 0xFF)
  }

  /** One set bit per cluster; every cluster is in use. */
  function BitmapBytes(root: Node): (s: seq<byte>)
    ensures |s| == CLUSTER * Bitmap(Content(root))
  {
    BitmapCovers(Content(root));
    PadTo(Ones((ClusterCount(root) + 7) / 8), CLUSTER * Bitmap(Content(root)))
  }

  /** Volume label, bitmap and up-case entries at the start of the root directory. */
  function RootEntries(root: Node): (s: seq<byte>)
    ensures |s| == 96
  {
    [0x83] + Zeros(31) +
    ([0x81] + Zeros(19) + Le(4, 2) + Le(8, (ClusterCount(root) + 7) / 8)) +
    ([0x82] + Zeros(3) + Le(4, UPCASE_CHECKSUM) + Zeros(12) + Le(4, 2 + Bitmap(Content(root))) + Le(8, UPCASE_SIZE))
  }

  /** Entries of a directory, `head` being the special ones of the root. */
  function DirContent(children: seq<Node>, next: nat, head: seq<byte>): (s: seq<byte>)
    ensures |s| == |head| + 32 * EntriesOf(children)
  {
    head + Listing(children, next)
  }

  /** The clusters of one node. */
  function NodeBytes(n: Node, root: bool, at: nat, head: seq<byte>): (s: seq<byte>)
    requires |head| == if root then 96 else 0
    ensures |s| == CLUSTER * Own(n, root)
  {
    match n
    case File(_, data) => PadTo(data, CLUSTER * Own(n, root))
    case Dir(_, children) => PadTo(DirContent(children, at + Own(n, root), head), CLUSTER * Own(n, root))
  }

  /** The clusters of a subtree in preorder. */
  function Heap(n: Node, root: bool, at: nat, head: seq<byte>): (s: seq<byte>)
    requires |head| == if root then 96 else 0
    ensures |s| == CLUSTER * Total(n, root)
    decreases n, 1
  {
    NodeBytes(n, root, at, head) + (if n.Dir? then HeapOf(n.children, at + Own(n, root)) else [])
  }

  function HeapOf(ns: seq<Node>, next: nat): (s: seq<byte>)
    ensures |s| == CLUSTER * TotalOf(ns)
    decreases ns, 0
  {
    if ns == [] then [] else Heap(ns[0], false, next, []) + HeapOf(ns[1..], next + Total(ns[0], false))
  }

  /** A directory's clusters are followed by those of its children. */
  lemma DirShape(n: Node, root: bool, at: nat, head: seq<byte>)
    requires n.Dir? && |head| == (if root then 96 else 0)
    ensures Heap(n, root, at, head) == NodeBytes(n, root, at, head) + HeapOf(n.children, at + Own(n, root))
  {
    hide Own, NodeBytes, HeapOf;
  }

  lemma ListShape(ns: seq<Node>, next: nat)
    requires ns != []
    ensures HeapOf(ns, next) == Heap(ns[0], false, next, []) + HeapOf(ns[1..], next + Total(ns[0], false))
    ensures RunsOf(ns) == Runs(ns[0], false) + RunsOf(ns[1..])
  {
    hide Heap, Runs, Total;
  }

  /** Everything in front of the root directory's clusters. */
  function Prefix(root: Node, upcase: seq<byte>): (s: seq<byte>)
    requires |upcase| == UPCASE_SIZE
    ensures |s| == SECTOR * HeapSector(root) + CLUSTER * (RootCluster(root) - 2)
  {
    Boot(root) + Boot(root) + Zeros(104 * SECTOR) + FatBytes(root) + BitmapBytes(root) + PadTo(upcase, CLUSTER)
  }

  /** The finished image. */
  function Image(root: Node, upcase: seq<byte>): (s: seq<byte>)
    requires |upcase| == UPCASE_SIZE
    ensures |s| == ImageSize(root)
  {
    Prefix(root, upcase) + Heap(root, true, RootCluster(root), RootEntries(root))
  }
}
