/** Sectors, directory entries and the slots of a directory. */
module FatDir {
  import opened Arith
  import opened Bytes
  import opened FatTable

  type Sector = s: seq<byte> | |s| == 512 witness seq(512, _ => 0)

  function ZeroSector(): Sector { seq(512, _ => 0) }

  // ----- directory entries -----

  type Entry = e: seq<byte> | |e| == 32 witness seq(32, _ => 0)
  type Name = n: seq<byte> | |n| == 11 witness seq(11, _ => 0)

  const ATTR_DIR := 0x10
  const ATTR_VOL := 0x08
  const DELETED := 0xE5

  function NameOf(e: Entry): (n: Name) { e[..11] }

  /** A name starting with 0 ends the directory; one starting with 0xE5 was deleted. */
  predicate LiveName(n: Name) { n[0] != 0 && n[0] != DELETED }

  predicate Live(e: Entry) { e[0] != 0 && e[0] != DELETED }

  predicate HasDirAttr(e: Entry) { (e[11] / ATTR_DIR) % 2 == 1 }

  predicate HasVolAttr(e: Entry) { (e[11] / ATTR_VOL) % 2 == 1 }

  function HeadOf(e: Entry): nat { Le16(e, 26) }

  function SizeOf(e: Entry): nat { Le32(e, 28) }

  /** The entry with name, attribute, first cluster and size set; the time stamps stay. */
  function Committed(e: Entry, n: Name, attr: byte, head: nat, size: nat): (r: Entry)
    requires head < TWO16 && size < TWO32
    ensures NameOf(r) == n && r[11] == attr && HeadOf(r) == head && SizeOf(r) == size
    ensures Live(r) == LiveName(n)
  {
    var r := n + [attr] + e[12..20] + [0, 0] + e[22..26] + ToLe16(head) + ToLe32(size);
    assert r[26] == ToLe16(head)[0] && r[27] == ToLe16(head)[1];
    assert r[28..32] == ToLe32(size);
    assert r[28] == ToLe32(size)[0] && r[29] == ToLe32(size)[1] && r[30] == ToLe32(size)[2] && r[31] == ToLe32(size)[3];
    r
  }

  /** Where the fields of an entry lie (FAT16, 32 bytes): name, attribute, first cluster, size, the last
      two with the low byte first; nothing else changes but the upper half of the cluster number. */
  lemma CommittedBytes(e: Entry, n: Name, attr: byte, head: nat, size: nat)
    requires head < TWO16 && size < TWO32
    ensures var r := Committed(e, n, attr, head, size);
            && r[0..11] == n && r[11] == attr && r[12..20] == e[12..20] && r[20] == 0 && r[21] == 0
            && r[22..26] == e[22..26] && r[26] as int + 0x100 * (r[27] as int) == head
            && r[28] as int + 0x100 * (r[29] as int) + 0x1_0000 * (r[30] as int) + 0x100_0000 * (r[31] as int) == size
  {
    ToLeBytes(head);
    ToLeBytes(size);
    var r := Committed(e, n, attr, head, size);
    hide Le16, Le32, LiveName, Live;
    assert r[26..28] == ToLe16(head) && r[28..32] == ToLe32(size);
    assert r[26] == r[26..28][0] && r[27] == r[26..28][1];
    assert forall i | 0 <= i < 4 :: r[28 + i] == r[28..32][i];
  }

  function Erased(e: Entry): (r: Entry)
    ensures !Live(r)
  {
    e[0 := DELETED]
  }

  // ----- the volume -----

  /** What fat_mount reads off the boot sector. */
  datatype Geo = Geo(spc: nat, rootEntries: nat, clusters: nat)

  predicate GeoOk(g: Geo) {
    1 <= g.spc < 256 && g.rootEntries < TWO16 && g.clusters + 1 < STOP
  }

  /** A volume as its table, the sectors of its root directory, and for each
      cluster number the sectors of that cluster. */
  datatype Vol = Vol(fat: seq<nat>, root: seq<Sector>, data: seq<seq<Sector>>)

  function RootSectors(g: Geo): nat { (g.rootEntries * 32 + 511) / 512 }

  ghost predicate VolShape(g: Geo, v: Vol) {
    && |v.fat| == g.clusters + 2
    && InRange(v.fat)
    && |v.root| == RootSectors(g)
    && |v.data| == g.clusters + 2
    && forall n | 2 <= n < |v.data| :: |v.data[n]| == g.spc
  }

  /** Where a directory or data sector is. */
  datatype Loc = RootAt(i: nat) | DataAt(n: nat, s: nat)

  predicate LocOk(g: Geo, l: Loc) {
    match l
    case RootAt(i) => i < RootSectors(g)
    case DataAt(n, s) => 2 <= n < g.clusters + 2 && s < g.spc
  }

  function SectorAt(g: Geo, v: Vol, l: Loc): Sector
    requires VolShape(g, v) && LocOk(g, l)
  {
    match l
    case RootAt(i) => v.root[i]
    case DataAt(n, s) => v.data[n][s]
  }

  function PutSector(g: Geo, v: Vol, l: Loc, sec: Sector): (r: Vol)
    requires VolShape(g, v) && LocOk(g, l)
    ensures VolShape(g, r) && r.fat == v.fat
    ensures forall l' | LocOk(g, l') :: SectorAt(g, r, l') == if l' == l then sec else SectorAt(g, v, l')
  {
    match l
    case RootAt(i) => v.(root := v.root[i := sec])
    case DataAt(n, s) =>
      var cluster: seq<Sector> := v.data[n];
      v.(data := v.data[n := cluster[s := sec]])
  }

  // ----- slots -----

  /** A directory is known by its chain; the root directory has none. */
  ghost predicate DirChain(g: Geo, ch: seq<nat>) {
    (forall i | 0 <= i < |ch| :: 2 <= ch[i] < g.clusters + 2) && Distinct(ch)
  }

  /** Slots per cluster. */
  function Per(g: Geo): nat { g.spc * 16 }

  predicate InDir(g: Geo, ch: seq<nat>, idx: nat)
    requires GeoOk(g)
  {
    if ch == [] then idx < g.rootEntries else Quot(idx, Per(g)) < |ch|
  }

  function SlotLoc(g: Geo, ch: seq<nat>, idx: nat): (l: Loc)
    requires GeoOk(g) && DirChain(g, ch) && InDir(g, ch, idx)
    ensures LocOk(g, l)
  {
    if ch == [] then RootAt(idx / 16) else DataAt(ch[Quot(idx, Per(g))], Rem(idx / 16, g.spc))
  }

  function EntryIn(s: Sector, k: nat): Entry
    requires k < 16
  {
    s[32 * k..32 * k + 32]
  }

  function PutEntryIn(s: Sector, k: nat, e: Entry): (r: Sector)
    requires k < 16
    ensures forall k' | 0 <= k' < 16 :: EntryIn(r, k') == if k' == k then e else EntryIn(s, k')
  {
    var r := s[..32 * k] + e + s[32 * k + 32..];
    assert r[32 * k..32 * k + 32] == e;
    assert forall k' | 0 <= k' < 16 && k' < k :: r[32 * k'..32 * k' + 32] == s[32 * k'..32 * k' + 32];
    assert forall k' | 0 <= k' < 16 && k' > k :: r[32 * k'..32 * k' + 32] == s[32 * k'..32 * k' + 32];
    r
  }

  /** Entry number `idx` of a directory. */
  function Ent(g: Geo, v: Vol, ch: seq<nat>, idx: nat): Entry
    requires GeoOk(g) && VolShape(g, v) && DirChain(g, ch) && InDir(g, ch, idx)
  {
    EntryIn(SectorAt(g, v, SlotLoc(g, ch, idx)), idx % 16)
  }

  function PutEnt(g: Geo, v: Vol, ch: seq<nat>, idx: nat, e: Entry): (r: Vol)
    requires GeoOk(g) && VolShape(g, v) && DirChain(g, ch) && InDir(g, ch, idx)
    ensures VolShape(g, r) && r.fat == v.fat
  {
    var l := SlotLoc(g, ch, idx);
    PutSector(g, v, l, PutEntryIn(SectorAt(g, v, l), idx % 16, e))
  }

  // ----- arithmetic of slots -----

  lemma InDirBelow(g: Geo, ch: seq<nat>, i: nat, j: nat)
    requires GeoOk(g) && i <= j && InDir(g, ch, j)
    ensures InDir(g, ch, i)
  {
    QuotRem(i, Per(g));
    QuotRem(j, Per(g));
    DivOrder(i, j, Per(g));
  }

  lemma FirstSlots(g: Geo, ch: seq<nat>, i: nat)
    requires GeoOk(g) && DirChain(g, ch) && ch != [] && i < 16
    ensures InDir(g, ch, i) && SlotLoc(g, ch, i) == DataAt(ch[0], 0)
  {
  }

  /** How many slots a scan looks at, at most. */
  function SlotLimit(g: Geo, ch: seq<nat>): nat {
    if ch == [] then g.rootEntries else g.clusters * g.spc * 16
  }

  /** The scan limit of a subdirectory lies past its last slot. */
  lemma InDirBound(g: Geo, ch: seq<nat>, idx: nat)
    requires GeoOk(g) && DirChain(g, ch) && InDir(g, ch, idx)
    ensures idx < SlotLimit(g, ch)
  {
    if ch != [] {
      ElemsCount(ch);
      SubsetCount(Elems(ch), Interval(2, g.clusters + 2));
      QuotRem(idx, Per(g));
      DivBelow(idx, Per(g), |ch|);
      MulOrder(|ch|, g.clusters, Per(g));
      assert g.clusters * Per(g) == g.clusters * g.spc * 16;
    }
  }

  lemma SlotNumber(g: Geo, i: nat)
    requires GeoOk(g)
    ensures i / 16 == Quot(i, Per(g)) * g.spc + Rem(i / 16, g.spc)
  {
    QuotRem(i, Per(g));
    QuotRem(i / 16, g.spc);
    DivDiv(i, g.spc, 16);
    Euclid(i / 16, g.spc);
  }

  /** Different slots of one directory are different places on the disk. */
  lemma SlotsApart(g: Geo, ch: seq<nat>, i: nat, j: nat)
    requires GeoOk(g) && DirChain(g, ch) && InDir(g, ch, i) && InDir(g, ch, j)
    requires SlotLoc(g, ch, i) == SlotLoc(g, ch, j) && i % 16 == j % 16
    ensures i == j
  {
    if ch != [] {
      assert Quot(i, Per(g)) == Quot(j, Per(g));
      SlotNumber(g, i);
      SlotNumber(g, j);
    }
  }

  // ----- effect of writing one slot -----

  lemma PutEntHere(g: Geo, v: Vol, ch: seq<nat>, idx: nat, e: Entry, j: nat)
    requires GeoOk(g) && VolShape(g, v) && DirChain(g, ch) && InDir(g, ch, idx) && InDir(g, ch, j)
    ensures Ent(g, PutEnt(g, v, ch, idx, e), ch, j) == if j == idx then e else Ent(g, v, ch, j)
  {
    if j != idx && SlotLoc(g, ch, idx) == SlotLoc(g, ch, j) && idx % 16 == j % 16 {
      SlotsApart(g, ch, idx, j);
    }
  }

  ghost predicate Apart(a: seq<nat>, b: seq<nat>) {
    && (a == [] ==> b != [])
    && forall i, j | 0 <= i < |a| && 0 <= j < |b| :: a[i] != b[j]
  }

  lemma PutEntElsewhere(g: Geo, v: Vol, ch: seq<nat>, idx: nat, e: Entry, other: seq<nat>, j: nat)
    requires GeoOk(g) && VolShape(g, v) && DirChain(g, ch) && InDir(g, ch, idx)
    requires DirChain(g, other) && InDir(g, other, j) && Apart(ch, other)
    ensures Ent(g, PutEnt(g, v, ch, idx, e), other, j) == Ent(g, v, other, j)
  {
    var a, b := SlotLoc(g, ch, idx), SlotLoc(g, other, j);
    if ch != [] && other != [] {
      assert ch[Quot(idx, Per(g))] != other[Quot(j, Per(g))];
    }
    assert a != b;
  }

  lemma PutEntData(g: Geo, v: Vol, ch: seq<nat>, idx: nat, e: Entry, n: nat)
    requires GeoOk(g) && VolShape(g, v) && DirChain(g, ch) && InDir(g, ch, idx)
    requires 2 <= n < g.clusters + 2 && n !in ch
    ensures PutEnt(g, v, ch, idx, e).data[n] == v.data[n]
  {
    if ch != [] {
      assert ch[Quot(idx, Per(g))] in ch;
    }
  }
}
