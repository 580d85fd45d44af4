/** Directory entry sets: how the writer encodes a child, and a reader that decodes it. */
module ExfatDirectory {
  import opened Bytes
  import opened ExfatLayout

  const TIMESTAMP: nat := (2024 - 1980) * 0x200_0000 + 0x20_0000 + 0x1_0000

  // ---------------------------------------------------------------- encoding

  function NameEntries(name: seq<byte>): nat { (|name| + 14) / 15 }

  function Rotate16(h: nat): nat { h % 2 * 0x8000 + h / 2 }

  function Upper(c: nat): nat { if 0x61 <= c <= 0x7A then c - 0x20 else c }

  /** Hash of the upper-cased UTF-16 name; the high byte of every character is zero. */
  function NameHash(name: seq<nat>): (h: nat)
    ensures h < 0x1_0000
  {
    if name == [] then 0
    else var h := (Rotate16(NameHash(name[..|name| - 1])) + Upper(name[|name| - 1])) % 0x1_0000;
         Rotate16(h) % 0x1_0000
  }

  /** Checksum of the first `k` bytes of an entry set, skipping the checksum field itself. */
  function SetSum(s: seq<byte>, k: nat): (h: nat)
    requires k <= |s|
    ensures h < 0x1_0000
  {
    if k == 0 then 0
    else if k - 1 == 2 || k - 1 == 3 then SetSum(s, k - 1)
    else (Rotate16(SetSum(s, k - 1)) + s[k - 1]) % 0x1_0000
  }

  /** The name entries: type byte, flag byte, and fifteen little-endian characters each. */
  function NameByte(name: seq<byte>, p: nat): byte {
    if p % 32 == 0 then 0xC1
    else if p % 32 < 2 || p % 2 == 1 then 0
    else var j := 15 * (p / 32) + (p % 32 - 2) / 2; if j < |name| then name[j] else 0
  }

  function NamePart(name: seq<byte>): (s: seq<byte>)
    ensures |s| == 32 * NameEntries(name)
  {
    seq(32 * NameEntries(name), p requires 0 <= p => NameByte(name, p))
  }

  /** The size a directory entry announces: whole clusters for a directory, bytes for a file. */
  function DataLength(n: Node): nat {
    if n.Dir? then Own(n, false) * CLUSTER else |n.data|
  }

  function Primary(n: Node, sum: nat): (s: seq<byte>)
    ensures |s| == 32
  {
    [0x85, (1 + NameEntries(n.name)) % 256] + Le(2, sum) + Le(2, if n.Dir? then 0x10 else 0x20) + Times()
  }

  /** Creation, modification and access time, all the same, and the unused end of the entry. */
  function Times(): (s: seq<byte>)
    ensures |s| == 26
  {
    Le(2, 0) + Le(4, TIMESTAMP) + Le(4, TIMESTAMP) + Le(4, TIMESTAMP) + Zeros(12)
  }

  function StreamEntry(n: Node, first: nat): (s: seq<byte>)
    ensures |s| == 32
  {
    [0xC0, if first >= 2 then 1 else 0, 0, |n.name| % 256] + Le(2, NameHash(n.name)) + Le(2, 0) +
    Le(8, DataLength(n)) + Le(4, 0) + Le(4, if first >= 2 then first else 0) + Le(8, DataLength(n))
  }

  function Tail(n: Node, first: nat): (s: seq<byte>)
    ensures |s| == 32 * (1 + NameEntries(n.name))
  {
    StreamEntry(n, first) + NamePart(n.name)
  }

  /** The entry set of a child whose clusters start at `first`. */
  function EntrySet(n: Node, first: nat): (s: seq<byte>)
    ensures |s| == 32 * EntryCount(n.name)
  {
    var blank := Primary(n, 0) + Tail(n, first);
    Primary(n, SetSum(blank, |blank|)) + Tail(n, first)
  }

  // ---------------------------------------------------------------- decoding

  datatype Item = Item(dir: bool, name: seq<nat>, first: nat, size: nat)

  /**
   * The checksum of the exFAT specification (sections 3.4, 6.3.3 and 7.6.4), front to back: rotate right by one bit,
   * add the byte. `top` is the highest bit of the sum; bytes at the places in `skip` do not enter.
   */
  function Fold(s: seq<byte>, from: nat, sum: nat, top: nat, skip: set<nat>): nat
    requires from <= |s| && top > 0
    decreases |s| - from
  {
    if from == |s| then sum
    else if from in skip then Fold(s, from + 1, sum, top, skip)
    else Fold(s, from + 1, ((if sum % 2 == 1 then top else 0) + sum / 2 + s[from]) % (2 * top), top, skip)
  }

  function UpCased(c: nat): nat { if c < 0x61 || c > 0x61 + 25 then c else c - 0x61 + 0x41 }

  /** The bytes of an up-cased name in UTF-16, low byte first. */
  function UpCasedBytes(name: seq<nat>): (s: seq<byte>)
    ensures |s| == 2 * |name|
  {
    seq(2 * |name|, i requires 0 <= i < 2 * |name| =>
      if i % 2 == 0 then UpCased(name[i / 2]) % 256 else UpCased(name[i / 2]) / 256 % 256)
  }

  function CharAt(es: seq<byte>, j: nat): nat
    requires 64 + 32 * (j / 15) + 2 * (j % 15) + 4 <= |es|
  {
    Word(es, 64 + 32 * (j / 15) + 2 + 2 * (j % 15), 2)
  }

  function Chars(es: seq<byte>, n: nat): (s: seq<nat>)
    requires 64 + 32 * ((n + 14) / 15) <= |es|
    ensures |s| == n
  {
    seq(n, j requires 0 <= j < n => CharAt(es, j))
  }

  /**
   * One entry set, complete in `es`; None when any check of the format fails. The stream flags say that clusters are
   * allocated exactly if there is a first one, and that the FAT has to be followed; all bytes are valid data.
   */
  function ReadSet(es: seq<byte>): Option<Item>
    requires |es| >= 96
  {
    var n: nat := es[35];
    if es[0] != 0x85 || Word(es, 2, 2) != Fold(es, 0, 0, 0x8000, {2, 3}) || es[32] != 0xC0 ||
       es[33] != (if Word(es, 52, 4) == 0 then 0 else 1) || Word(es, 40, 8) != Word(es, 56, 8) ||
       32 * (2 + (n + 14) / 15) != |es| || (exists i :: 0 <= i < (n + 14) / 15 && es[64 + 32 * i] != 0xC1) ||
       Word(es, 36, 2) != Fold(UpCasedBytes(Chars(es, n)), 0, 0, 0x8000, {})
    then None
    else Some(Item(Word(es, 4, 2) == 0x10, Chars(es, n), Word(es, 52, 4), Word(es, 56, 8)))
  }

  /** All children listed in a directory's bytes from `pos` on; a zero type byte or the last byte ends the list. */
  function ReadDirectory(d: seq<byte>, pos: nat): Option<seq<Item>>
    decreases |d| - pos
  {
    if pos + 32 > |d| || d[pos] == 0 then Some([])
    else if d[pos] in {0x81, 0x82, 0x83} then ReadDirectory(d, pos + 32)
    else
      var size: nat := 32 * (1 + d[pos + 1] as nat);
      if size < 96 || pos + size > |d| then None
      else match ReadSet(d[pos..pos + size])
        case None => None
        case Some(item) =>
          match ReadDirectory(d, pos + size)
          case None => None
          case Some(rest) => Some([item] + rest)
  }

  // ---------------------------------------------------------------- round trip

  predicate Ascii(name: seq<byte>) { 1 <= |name| <= 255 && forall i :: 0 <= i < |name| ==> 1 <= name[i] <= 127 }

  /** Field widths the format can express. */
  predicate Encodable(n: Node, first: nat) {
    Ascii(n.name) && first < WORD32 && (first == 0 || first >= 2) && DataLength(n) < 0x1_0000_0000_0000_0000
  }

  lemma {:induction false} SetSumSkips(s: seq<byte>, t: seq<byte>, k: nat)
    requires k <= |s| == |t| && forall i :: 0 <= i < |s| && i != 2 && i != 3 ==> s[i] == t[i]
    ensures SetSum(s, k) == SetSum(t, k)
  {
    if k > 0 {
      SetSumSkips(s, t, k - 1);
    }
  }

  lemma PrimaryFields(n: Node, sum: nat)
    requires sum < 0x1_0000 && Ascii(n.name)
    ensures var p := Primary(n, sum);
            && p[0] == 0x85 && p[1] == 1 + NameEntries(n.name) && Word(p, 2, 2) == sum
            && Word(p, 4, 2) == (if n.Dir? then 0x10 else 0x20)
            && Word(p, 8, 4) == Word(p, 12, 4) == Word(p, 16, 4) == 0x5821_0000
  {
    Powers();
    hide FromLe, Le, Word, Times;
    var p0: seq<byte> := [0x85, (1 + NameEntries(n.name)) % 256];
    FieldAppend(p0, 2, sum);
    var p1 := p0 + Le(2, sum);
    var attributes := if n.Dir? then 0x10 else 0x20;
    FieldAppend(p1, 2, attributes);
    var p2 := p1 + Le(2, attributes);
    WordAppend(p2, Times(), 2, 2);
    WordAppend(p2, Times(), 4, 2);
    TimeFields();
    var p := p2 + Times();
    assert p[6..32] == Times();
    WordShift(p, 6, Times(), 2, 4);
    WordShift(p, 6, Times(), 6, 4);
    WordShift(p, 6, Times(), 10, 4);
  }

  lemma TimeFields()
    ensures var t := Times(); Word(t, 2, 4) == Word(t, 6, 4) == Word(t, 10, 4) == 0x5821_0000
  {
    Powers();
    hide FromLe, Le, Word;
    var t0 := Le(2, 0);
    FieldAppend(t0, 4, TIMESTAMP);
    var t1 := t0 + Le(4, TIMESTAMP);
    FieldAppend(t1, 4, TIMESTAMP);
    var t2 := t1 + Le(4, TIMESTAMP);
    FieldAppend(t2, 4, TIMESTAMP);
    var t3 := t2 + Le(4, TIMESTAMP);
    WordAppend(t3, Zeros(12), 2, 4);
    WordAppend(t3, Zeros(12), 6, 4);
    WordAppend(t3, Zeros(12), 10, 4);
  }

  lemma StreamFields(n: Node, first: nat)
    requires Encodable(n, first)
    ensures var s := StreamEntry(n, first);
            && s[0] == 0xC0 && s[1] == (if first == 0 then 0 else 1) && s[3] == |n.name|
            && Word(s, 4, 2) == NameHash(n.name) && Word(s, 8, 8) == DataLength(n)
            && Word(s, 20, 4) == first && Word(s, 24, 8) == DataLength(n)
  {
    Powers();
    hide FromLe, Le, Word, NameHash, DataLength;
    var s0: seq<byte> := [0xC0, if first >= 2 then 1 else 0, 0, |n.name| % 256];
    FieldAppend(s0, 2, NameHash(n.name));
    var s1 := s0 + Le(2, NameHash(n.name));
    FieldAppend(s1, 2, 0);
    var s2 := s1 + Le(2, 0);
    FieldAppend(s2, 8, DataLength(n));
    var s3 := s2 + Le(8, DataLength(n));
    FieldAppend(s3, 4, 0);
    var s4 := s3 + Le(4, 0);
    FieldAppend(s4, 4, first);
    var s5 := s4 + Le(4, first);
    FieldAppend(s5, 8, DataLength(n));
  }

  /** The sum stored in a set is the sum a reader computes over it. */
  lemma StoredSum(n: Node, first: nat)
    requires Ascii(n.name)
    ensures var es := EntrySet(n, first);
            SetSum(es, |es|) == SetSum(Primary(n, 0) + Tail(n, first), |es|)
  {
    hide Tail, SetSum;
    var blank, es := Primary(n, 0) + Tail(n, first), EntrySet(n, first);
    forall i | 0 <= i < |es| && i != 2 && i != 3 ensures es[i] == blank[i] {
      PrimaryByte(n, SetSum(blank, |blank|), i);
    }
    SetSumSkips(es, blank, |es|);
  }

  lemma PrimaryByte(n: Node, sum: nat, i: nat)
    requires i != 2 && i != 3
    ensures i < 32 ==> Primary(n, sum)[i] == Primary(n, 0)[i]
  {
    hide Le, Times;
  }

  /** Byte `r` of name entry `q`. */
  lemma Place(q: nat, r: nat)
    requires r < 32
    ensures (32 * q + r) / 32 == q && (32 * q + r) % 32 == r && (32 * q + r) % 2 == r % 2
  {
  }

  lemma CharBytes(name: seq<byte>, q: nat, m: nat)
    requires m < 15 && 15 * q + m < |name|
    ensures NameByte(name, 32 * q + 2 + 2 * m) == name[15 * q + m] && NameByte(name, 32 * q + 2 + 2 * m + 1) == 0
  {
    hide NameByte;
    EvenByte(name, q, m);
    OddByte(name, q, m);
  }

  lemma EvenByte(name: seq<byte>, q: nat, m: nat)
    requires m < 15 && 15 * q + m < |name|
    ensures NameByte(name, 32 * q + 2 + 2 * m) == name[15 * q + m]
  {
    Place(q, 2 + 2 * m);
    assert 32 * q + (2 + 2 * m) == 32 * q + 2 + 2 * m;
  }

  lemma OddByte(name: seq<byte>, q: nat, m: nat)
    requires m < 15
    ensures NameByte(name, 32 * q + 2 + 2 * m + 1) == 0
  {
    Place(q, 3 + 2 * m);
    assert 32 * q + (3 + 2 * m) == 32 * q + 2 + 2 * m + 1;
  }

  lemma NameChar(name: seq<byte>, j: nat)
    requires j < |name|
    ensures var p := 32 * (j / 15) + 2 + 2 * (j % 15);
            p + 2 <= |NamePart(name)| && NamePart(name)[p] == name[j] && NamePart(name)[p + 1] == 0
  {
    hide NameByte;
    var q, m := j / 15, j % 15;
    assert j == 15 * q + m;
    CharBytes(name, q, m);
    assert q + 1 <= NameEntries(name);
  }

  lemma NameChars(n: Node, first: nat)
    requires Ascii(n.name)
    ensures Chars(EntrySet(n, first), |n.name|) == n.name
    ensures forall i :: 0 <= i < NameEntries(n.name) ==> EntrySet(n, first)[64 + 32 * i] == 0xC1
  {
    hide Primary, StreamEntry, SetSum, NamePart;
    var es := EntrySet(n, first);
    assert es[64..] == NamePart(n.name);
    forall j | 0 <= j < |n.name| ensures Chars(es, |n.name|)[j] == n.name[j] {
      var p := 32 * (j / 15) + 2 + 2 * (j % 15);
      NameChar(n.name, j);
      assert es[64 + p] == es[64..][p] && es[64 + p + 1] == es[64..][p + 1];
      TwoBytes(es, 64 + p);
    }
    forall i | 0 <= i < NameEntries(n.name) ensures es[64 + 32 * i] == 0xC1 {
      NameType(n.name, i);
      assert es[64 + 32 * i] == es[64..][32 * i];
    }
  }

  lemma NameType(name: seq<byte>, i: nat)
    requires i < NameEntries(name)
    ensures NamePart(name)[32 * i] == 0xC1
  {
    assert 32 * i % 32 == 0;
  }

  lemma TwoBytes(s: seq<byte>, at: nat)
    requires at + 2 <= |s|
    ensures Word(s, at, 2) == s[at] as nat + 256 * (s[at + 1] as nat)
  {
    var w := s[at..at + 2];
    assert w[1..][1..] == [];
    assert FromLe(w[1..]) == w[1];
  }

  function ItemOf(n: Node, first: nat): Item { Item(n.Dir?, n.name, first, DataLength(n)) }

  lemma SetSize(n: Node, first: nat)
    requires n.name != []
    ensures |EntrySet(n, first)| >= 96 && |Primary(n, 0) + Tail(n, first)| == |EntrySet(n, first)|
  {
    hide SetSum, Primary, Tail;
  }

  /** The fields of an entry set, read back one by one. */
  lemma SetFields(n: Node, first: nat)
    requires Encodable(n, first)
    ensures var es := EntrySet(n, first);
            && |es| >= 96 && es[0] == 0x85 && es[1] == 1 + NameEntries(n.name) && Word(es, 2, 2) == SetSum(es, |es|)
            && Word(es, 4, 2) == (if n.Dir? then 0x10 else 0x20)
            && Word(es, 8, 4) == Word(es, 12, 4) == Word(es, 16, 4) == 0x5821_0000
            && es[32] == 0xC0 && es[33] == (if first == 0 then 0 else 1) && es[35] == |n.name|
            && Word(es, 36, 2) == NameHash(n.name) && Word(es, 40, 8) == DataLength(n)
            && Word(es, 52, 4) == first && Word(es, 56, 8) == DataLength(n)
  {
    hide FromLe, Le, Word, Primary, StreamEntry, NamePart, SetSum, NameHash, DataLength, NameEntries, EntrySet, Tail;
    SetSize(n, first);
    StoredSum(n, first);
    StreamFields(n, first);
    var es := EntrySet(n, first);
    var blank := Primary(n, 0) + Tail(n, first);
    PrimaryFields(n, SetSum(blank, |blank|));
    var p, s := Primary(n, SetSum(blank, |blank|)), StreamEntry(n, first);
    SetHalves(n, first);
    WordShift(es, 0, p, 2, 2);
    WordShift(es, 0, p, 4, 2);
    WordShift(es, 0, p, 8, 4);
    WordShift(es, 0, p, 12, 4);
    WordShift(es, 0, p, 16, 4);
    WordShift(es, 32, s, 4, 2);
    WordShift(es, 32, s, 8, 8);
    WordShift(es, 32, s, 20, 4);
    WordShift(es, 32, s, 24, 8);
    assert es[0] == es[0..32][0] && es[1] == es[0..32][1] && es[32] == es[32..64][0];
    assert es[33] == es[32..64][1] && es[35] == es[32..64][3];
  }

  lemma SetHalves(n: Node, first: nat)
    requires n.name != []
    ensures var es := EntrySet(n, first);
            var blank := Primary(n, 0) + Tail(n, first);
            |es| >= 96 && es[0..32] == Primary(n, SetSum(blank, |blank|)) && es[32..64] == StreamEntry(n, first)
  {
    hide Primary, StreamEntry, NamePart, SetSum;
  }

  /** The writer's checksum is that of the specification. */
  lemma {:induction false} SetSumIsFold(s: seq<byte>, k: nat)
    requires k <= |s|
    ensures Fold(s, k, SetSum(s, k), 0x8000, {2, 3}) == SetSum(s, |s|)
    decreases |s| - k
  {
    if k < |s| {
      SetSumIsFold(s, k + 1);
    }
  }

  /** The writer's hash of an ASCII name is that of the specification. */
  lemma {:induction false} NameHashIsFold(name: seq<byte>, k: nat)
    requires k <= |name| && forall i :: 0 <= i < |name| ==> name[i] <= 127
    ensures Fold(UpCasedBytes(name), 2 * k, NameHash(name[..k]), 0x8000, {}) == NameHash(name)
    decreases |name| - k
  {
    if k == |name| {
      assert name[..k] == name;
    } else {
      NameHashIsFold(name, k + 1);
      HashStep(name, k);
    }
  }

  lemma HashStep(name: seq<byte>, k: nat)
    requires k < |name| && name[k] <= 127
    ensures Fold(UpCasedBytes(name), 2 * k, NameHash(name[..k]), 0x8000, {})
      == Fold(UpCasedBytes(name), 2 * (k + 1), NameHash(name[..k + 1]), 0x8000, {})
  {
    hide NameHash, UpCasedBytes, Fold, Rotate16, Upper;
    var s, h := UpCasedBytes(name), NameHash(name[..k]);
    var h' := (Rotate16(h) + Upper(name[k])) % 0x1_0000;
    UpCasedPair(name, k);
    HashUnfolds(name, k);
    FoldStep(s, 2 * k, h);
    FoldStep(s, 2 * k + 1, h');
  }

  lemma UpCasedPair(name: seq<byte>, k: nat)
    requires k < |name| && name[k] <= 127
    ensures UpCasedBytes(name)[2 * k] == Upper(name[k]) && UpCasedBytes(name)[2 * k + 1] == 0
  {
  }

  lemma HashUnfolds(name: seq<byte>, k: nat)
    requires k < |name|
    ensures NameHash(name[..k + 1]) == Rotate16((Rotate16(NameHash(name[..k])) + Upper(name[k])) % 0x1_0000) % 0x1_0000
  {
    hide Rotate16, Upper;
    assert name[..k + 1][..k] == name[..k];
  }

  lemma HashBase(s: seq<byte>, name: seq<byte>)
    ensures SetSum(s, 0) == 0 && NameHash(name[..0]) == 0
  {
  }

  lemma FoldStep(s: seq<byte>, from: nat, sum: nat)
    requires from < |s| && sum < 0x1_0000
    ensures Fold(s, from, sum, 0x8000, {}) == Fold(s, from + 1, (Rotate16(sum) + s[from]) % 0x1_0000, 0x8000, {})
  {
  }

  /** An entry set decodes to the child it was written for. */
  lemma SetRoundTrip(n: Node, first: nat)
    requires Encodable(n, first)
    ensures |EntrySet(n, first)| >= 96 && ReadSet(EntrySet(n, first)) == Some(ItemOf(n, first))
  {
    SetFields(n, first);
    NameChars(n, first);
    hide EntrySet, Word, SetSum, NameHash, DataLength, Chars, Fold, UpCasedBytes;
    var es := EntrySet(n, first);
    SetSumIsFold(es, 0);
    NameHashIsFold(n.name, 0);
    assert SetSum(es, 0) == 0 && NameHash(n.name[..0]) == 0 by { HashBase(es, n.name); }
    assert 32 * (2 + (|n.name| + 14) / 15) == |es|;
    assert forall i :: 0 <= i < (|n.name| + 14) / 15 ==> es[64 + 32 * i] == 0xC1;
  }

  // ---------------------------------------------------------------- whole directories

  /** The first cluster recorded for a node assigned at `at`; an empty file has none. */
  function FirstOf(n: Node, at: nat): nat { if Own(n, false) == 0 then 0 else at }

  /** The entry sets of consecutive children whose clusters start at `next`. */
  function Listing(ns: seq<Node>, next: nat): (s: seq<byte>)
    ensures |s| == 32 * EntriesOf(ns)
  {
    if ns == [] then [] else EntrySet(ns[0], FirstOf(ns[0], next)) + Listing(ns[1..], next + Total(ns[0], false))
  }

  function Items(ns: seq<Node>, next: nat): seq<Item> {
    if ns == [] then [] else [ItemOf(ns[0], FirstOf(ns[0], next))] + Items(ns[1..], next + Total(ns[0], false))
  }

  predicate ListEncodable(ns: seq<Node>, next: nat) {
    ns == [] || (Encodable(ns[0], FirstOf(ns[0], next)) && ListEncodable(ns[1..], next + Total(ns[0], false)))
  }

  /** Reading one set and then the rest of the directory. */
  lemma ReadStep(d: seq<byte>, pos: nat, es: seq<byte>, item: Item, rest: seq<Item>)
    requires |es| >= 96 && es[0] == 0x85 && |es| == 32 * (1 + es[1] as nat)
    requires pos + |es| <= |d| && d[pos..pos + |es|] == es
    requires ReadSet(es) == Some(item) && ReadDirectory(d, pos + |es|) == Some(rest)
    ensures ReadDirectory(d, pos) == Some([item] + rest)
  {
    hide ReadSet;
    assert d[pos] == d[pos..pos + |es|][0] && d[pos + 1] == d[pos..pos + |es|][1];
  }

  lemma ReadEnd(d: seq<byte>, pos: nat)
    requires pos <= |d| && (pos < |d| ==> d[pos] == 0)
    ensures ReadDirectory(d, pos) == Some([])
  {
  }

  lemma SetHead(n: Node, first: nat)
    requires Encodable(n, first)
    ensures var es := EntrySet(n, first);
            |es| >= 96 && es[0] == 0x85 && |es| == 32 * (1 + es[1] as nat) && ReadSet(es) == Some(ItemOf(n, first))
  {
    SetFields(n, first);
    SetRoundTrip(n, first);
    hide EntrySet, ReadSet, Word, SetSum, NameHash, ItemOf;
  }

  /** Reading a directory yields its children, in order, whatever zeros follow them. */
  lemma {:induction false} ListingRoundTrip(pre: seq<byte>, ns: seq<Node>, next: nat, zeros: nat)
    requires ListEncodable(ns, next)
    ensures ReadDirectory(pre + Listing(ns, next) + Zeros(zeros), |pre|) == Some(Items(ns, next))
    decreases |ns|
  {
    hide EntrySet, ReadSet, Total, FirstOf, ItemOf, ReadDirectory, Encodable;
    var d := pre + Listing(ns, next) + Zeros(zeros);
    if ns == [] {
      assert d[|pre|..] == Zeros(zeros);
      if |pre| < |d| { assert d[|pre|] == d[|pre|..][0]; }
      ReadEnd(d, |pre|);
    } else {
      var first, after := FirstOf(ns[0], next), next + Total(ns[0], false);
      var es := EntrySet(ns[0], first);
      SetHead(ns[0], first);
      ListingRoundTrip(pre + es, ns[1..], after, zeros);
      assert pre + es + Listing(ns[1..], after) + Zeros(zeros) == d;
      assert d[|pre|..|pre| + |es|] == es;
      ReadStep(d, |pre|, es, ItemOf(ns[0], first), Items(ns[1..], after));
    }
  }
}
