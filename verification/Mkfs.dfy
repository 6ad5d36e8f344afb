/** The formatter: it lays out a volume that the driver mounts with the same geometry
    and that is well formed from the start. */
module Mkfs {
  import opened Arith
  import opened Bytes
  import opened FatTable
  import opened FatDir
  import opened FatState
  import opened FatOps
  import opened FatNames
  import opened FatDisk
  import opened FatFacts
  import opened Wrappers

  const SPC := 8
  const ROOT_ENTRIES := 512
  const ROOT_SECTORS := 32
  const RESERVED := 1

  // ----- sizes -----

  function ClusterCount(mb: int, fatsz: int): int {
    (mb * 2048 - RESERVED - 2 * fatsz - ROOT_SECTORS) / SPC
  }

  /** The five rounds that fit the table to the clusters and the clusters to what the
      table leaves. Exactly the sizes from 16 to 256 MB pass the range test, and for
      those one sector of table per megabyte comes out. */
  method ConvergeFat(mb: int) returns (fatsz: int, clusters: int)
    ensures clusters == ClusterCount(mb, fatsz)
    ensures 4085 <= clusters <= 65525 <==> 16 <= mb <= 256
    ensures 16 <= mb <= 256 ==> fatsz == mb && clusters + 2 <= 256 * fatsz && clusters + 1 < STOP
  {
    fatsz := 1;
    for i := 0 to 5
      invariant i > 0 && 16 <= mb <= 256 ==> fatsz == mb
      invariant i == 0 ==> fatsz == 1
      invariant mb > 0 ==> 0 <= fatsz <= mb
      invariant mb <= 0 ==> mb <= fatsz <= 1
    {
      var data := mb * 2048 - RESERVED - 2 * fatsz - ROOT_SECTORS;
      clusters := data / SPC;
      fatsz := (clusters * 2 + 511) / 512;
    }
    clusters := (mb * 2048 - RESERVED - 2 * fatsz - ROOT_SECTORS) / SPC;
  }

  predicate Accepted(mb: int) { 16 <= mb <= 256 }

  function MkLayout(mb: nat): (l: Layout)
    requires Accepted(mb)
    ensures GeoOk(l.g) && l.g.clusters + 2 <= 256 * l.fatSectors
  {
    Layout(Geo(SPC, ROOT_ENTRIES, ClusterCount(mb, mb)), RESERVED, mb)
  }

  // ----- contents -----

  function ZeroEntry(): (e: Entry)
    ensures !Live(e)
  {
    seq(32, _ => 0)
  }

  function Zeros(n: nat): seq<byte> { seq(n, _ => 0) }

  /** dir_entry */
  function DirEntry(name: Name, attr: byte, head: nat): (e: Entry)
    requires head < TWO16
    ensures NameOf(e) == name && e[11] == attr && HeadOf(e) == head && SizeOf(e) == 0 && Live(e) == LiveName(name)
  {
    Committed(ZeroEntry(), name, attr, head, 0)
  }

  /** pad83: split at the first dot, cut and pad both parts. */
  function Pad83(name: CString): Name {
    var n := Before(name, DOT);
    var ext := if n < |name| then name[n + 1..] else [];
    Padded(UpperAll(name[..Min(8, n)]), 8) + Padded(UpperAll(ext[..Min(3, |ext|)]), 3)
  }

  /** The formatter and the driver store a name alike as long as its base fits. */
  lemma PadAgrees(name: CString)
    requires Before(name, DOT) <= 8
    ensures Pad83(name) == To83Spec(name)
  {
  }

  /** The extension made of the three characters from position `i` on. */
  function Three(name: CString, i: nat): seq<byte> {
    var rest := if i < |name| then name[i..] else [];
    Padded(UpperAll(rest[..Min(3, |rest|)]), 3)
  }

  /** On a longer base the driver lets the base run on into the extension, while the formatter
      takes what follows the dot: they agree exactly when those three characters do. */
  lemma PadAgreesIff(name: CString)
    ensures var dot := Before(name, DOT);
            Pad83(name) == To83Spec(name) <==> dot <= 8 || Three(name, 8) == Three(name, dot + 1)
  {
    var dot := Before(name, DOT);
    if dot <= 8 {
      PadAgrees(name);
    } else {
      assert name[8] != DOT by {
        assert name[..dot][8] == name[8];
      }
      var base := Padded(UpperAll(name[..8]), 8);
      assert dot + 1 >= |name| ==> name[Min(|name|, dot + 1)..] == [];
      hide Padded, UpperAll;
      assert To83Spec(name) == base + Three(name, 8);
      assert Pad83(name) == base + Three(name, dot + 1);
      PartsApart(base, Three(name, 8), base, Three(name, dot + 1));
    }
  }

  const BIN: seq<byte> := [0x42, 0x49, 0x4E]
  const SYS: seq<byte> := [0x53, 0x59, 0x53]
  const HOME: seq<byte> := [0x48, 0x4F, 0x4D, 0x45]

  /** Name and cluster of the k-th system directory. */
  function SysName(k: nat): (n: CString) {
    if k == 0 then BIN else if k == 1 then SYS else HOME
  }

  function FatBytes(mb: nat): (b: seq<byte>)
    ensures |b| == 512 * mb
  {
    seq(512 * mb, i => if i == 0 then 0xF8 else if i < 10 then 0xFF else 0)
  }

  function RootBytes(): (b: seq<byte>)
    ensures |b| == 512 * ROOT_SECTORS
  {
    DirEntry(Pad83(BIN), ATTR_DIR, 2) + DirEntry(Pad83(SYS), ATTR_DIR, 3) + DirEntry(Pad83(HOME), ATTR_DIR, 4)
    + Zeros(512 * ROOT_SECTORS - 96)
  }

  function SubBytes(self: nat): (b: seq<byte>)
    requires self < TWO16
    ensures |b| == 512 * SPC
  {
    DirEntry(Pad83([DOT]), ATTR_DIR, self) + DirEntry(Pad83([DOT, DOT]), ATTR_DIR, 0) + Zeros(512 * SPC - 64)
  }

  function SectorOf(b: seq<byte>, i: nat): Sector
    requires 512 * (i + 1) <= |b|
  {
    b[512 * i..512 * i + 512]
  }

  // ----- building and writing -----

  method Put(a: array<byte>, o: nat, s: seq<byte>)
    requires o + |s| <= a.Length
    modifies a
    ensures forall i | 0 <= i < a.Length :: a[i] == if o <= i < o + |s| then s[i - o] else old(a[i])
  {
    for i := 0 to |s|
      invariant forall k | 0 <= k < a.Length :: a[k] == if o <= k < o + i then s[k - o] else old(a[k])
    {
      a[o + i] := s[i];
    }
  }

  /** The fields fat_mount reads. */
  predicate BootOk(b: Sector, mb: nat)
    requires Accepted(mb)
  {
    && b[510] == 0x55 && b[511] == 0xAA && Le16(b, 11) == 512 && b[16] == 2
    && b[13] == SPC && Le16(b, 14) == RESERVED && Le16(b, 17) == ROOT_ENTRIES && Le16(b, 22) == mb
    && Le16(b, 19) == (if mb * 2048 < 65535 then mb * 2048 else 0) && Le32(b, 32) == mb * 2048
  }

  /** The parts of the boot sector that no driver reads. */
  method BootText() returns (a: array<byte>)
    ensures fresh(a) && a.Length == 512 && forall i | 32 <= i < 38 :: a[i] == 0
  {
    a := new byte[512](_ => 0);
    Put(a, 0, [0xEB, 0x3C, 0x90]);
    Put(a, 3, [0x43, 0x52, 0x4F, 0x4E, 0x49, 0x58, 0x46, 0x53]);
    a[21] := 0xF8;
    a[38] := 0x29;
    Put(a, 39, ToLe32(0xC9071));
    Put(a, 43, [0x43, 0x52, 0x4F, 0x4E, 0x49, 0x58, 0x20, 0x56, 0x4F, 0x4C, 0x20]);
    Put(a, 54, [0x46, 0x41, 0x54, 0x31, 0x36, 0x20, 0x20, 0x20]);
  }

  method BootCounts(mb: nat, small: nat) returns (a: array<byte>)
    requires mb < TWO16 && small < TWO16
    ensures fresh(a) && a.Length == 512
    ensures a[11] == 0 && a[12] == 2 && a[13] == 8 && a[14] == 1 && a[15] == 0 && a[16] == 2 && a[17] == 0 && a[18] == 2
    ensures a[19] == small % 256 && a[20] == small / 256 && a[22] == mb % 256 && a[23] == mb / 256
  {
    a := BootText();
    a[11], a[12] := 512 % 256, 512 / 256;
    a[13] := SPC;
    a[14], a[15] := RESERVED % 256, RESERVED / 256;
    a[16] := 2;
    a[17], a[18] := ROOT_ENTRIES % 256, ROOT_ENTRIES / 256;
    a[19], a[20] := small % 256, small / 256;
    a[22], a[23] := mb % 256, mb / 256;
  }

  method BootSector(mb: nat) returns (b: Sector)
    requires Accepted(mb)
    ensures BootOk(b, mb)
  {
    var total := mb * 2048;
    var small := if total < 65535 then total else 0;
    var a := BootCounts(mb, small);
    hide BootOk, Le16, Le32, ToLe32;
    var size := ToLe32(total);
    a[32], a[33], a[34], a[35] := size[0], size[1], size[2], size[3];
    a[510], a[511] := 0x55, 0xAA;
    b := a[..];
    BootWords(b, mb, small, size);
  }

  lemma BootWords(b: Sector, mb: nat, small: nat, size: seq<byte>)
    requires Accepted(mb) && small == (if mb * 2048 < 65535 then mb * 2048 else 0) && |size| == 4
    requires Le32(size, 0) == mb * 2048
    requires b[510] == 0x55 && b[511] == 0xAA && b[11] == 0 && b[12] == 2 && b[13] == 8 && b[14] == 1 && b[15] == 0
    requires b[16] == 2
    requires b[17] == 0 && b[18] == 2 && b[19] == small % 256 && b[20] == small / 256 && b[22] == mb % 256
    requires b[23] == mb / 256
    requires b[32] == size[0] && b[33] == size[1] && b[34] == size[2] && b[35] == size[3]
    ensures BootOk(b, mb)
  {
  }

  method FatTableBytes(mb: nat) returns (b: seq<byte>)
    requires Accepted(mb)
    ensures b == FatBytes(mb)
  {
    var a := new byte[mb * 512](_ => 0);
    Put(a, 0, ToLe16(0xFFF8) + ToLe16(0xFFFF) + ToLe16(0xFFFF) + ToLe16(0xFFFF));
    Put(a, 4 + 2 * 2, ToLe16(0xFFFF));
    b := a[..];
  }

  /** Whole sectors and where they go. */
  datatype Region = Region(lba: nat, bytes: seq<byte>)

  ghost predicate OnDisk(disk: seq<Sector>, r: Region) {
    && |r.bytes| % 512 == 0 && r.lba + |r.bytes| / 512 <= |disk|
    && forall i | 0 <= i < |r.bytes| / 512 :: disk[r.lba + i] == SectorOf(r.bytes, i)
  }

  ghost predicate Image(disk: seq<Sector>, rs: seq<Region>) {
    forall k | 0 <= k < |rs| :: OnDisk(disk, rs[k])
  }

  ghost predicate Wrote(a: seq<Sector>, b: seq<Sector>, r: Region) {
    && |r.bytes| % 512 == 0 && |a| == |b| && r.lba + |r.bytes| / 512 <= |b|
    && forall i | 0 <= i < |b| ::
         b[i] == if r.lba <= i < r.lba + |r.bytes| / 512 then SectorOf(r.bytes, i - r.lba) else a[i]
  }

  ghost predicate InOrder(rs: seq<Region>) {
    && (forall k | 0 <= k < |rs| :: |rs[k].bytes| % 512 == 0)
    && (forall i, k | 0 <= i < k < |rs| :: rs[i].lba + |rs[i].bytes| / 512 <= rs[k].lba)
  }

  /** Writing the next region keeps the earlier ones. */
  lemma WroteKeeps(a: seq<Sector>, b: seq<Sector>, rs: seq<Region>, k: nat)
    requires k < |rs| && InOrder(rs) && Image(a, rs[..k]) && Wrote(a, b, rs[k])
    ensures Image(b, rs[..k + 1])
  {
    forall j | 0 <= j < k ensures OnDisk(b, rs[j]) {
      assert rs[..k][j] == rs[j] && OnDisk(a, rs[..k][j]);
    }
  }

  /** Writes the k-th of the regions `rs`, all before it being written. */
  method WriteAt(disk: array<Sector>, lba: nat, b: seq<byte>, ghost rs: seq<Region>, ghost k: nat)
    requires k < |rs| && rs[k] == Region(lba, b) && InOrder(rs)
    requires |b| % 512 == 0 && lba + |b| / 512 <= disk.Length && Image(disk[..], rs[..k])
    modifies disk
    ensures Image(disk[..], rs[..k + 1]) && OutsideSame(old(disk[..]), disk[..], lba, |b| / 512)
  {
    hide InOrder, Image;
    for s := 0 to |b| / 512
      invariant forall i | 0 <= i < disk.Length ::
                  disk[i] == if lba <= i < lba + s then SectorOf(b, i - lba) else old(disk[i])
    {
      disk[lba + s] := SectorOf(b, s);
    }
    WroteKeeps(old(disk[..]), disk[..], rs, k);
  }

  /** What is written, in order, from sector `lba` on. */
  function Regions(mb: nat, lba: nat, boot: Sector): seq<Region> {
    [Region(lba, boot),
     Region(lba + 1, FatBytes(mb)), Region(lba + 1 + mb, FatBytes(mb)),
     Region(lba + 1 + 2 * mb, RootBytes()),
     Region(lba + 33 + 2 * mb, SubBytes(2)), Region(lba + 41 + 2 * mb, SubBytes(3)),
     Region(lba + 49 + 2 * mb, SubBytes(4))]
  }

  /** A disk as the formatter leaves it. The sectors of free clusters are not said. */
  ghost predicate Formatted(mb: int, lba: nat, disk: seq<Sector>) {
    && Accepted(mb) && lba + mb * 2048 <= |disk|
    && BootOk(disk[lba], mb) && Image(disk, Regions(mb, lba, disk[lba]))
  }

  /** What lies before and behind the volume has not changed. */
  ghost predicate OutsideSame(a: seq<Sector>, b: seq<Sector>, lba: nat, n: nat) {
    |a| == |b| && forall i | 0 <= i < |a| && !(lba <= i < lba + n) :: a[i] == b[i]
  }

  /** main: formats the volume, or reports an error and leaves the image alone. */
  method Format(mb: int, lba: nat, disk: array<Sector>) returns (ok: bool)
    modifies disk
    ensures ok <==> Accepted(mb) && lba + mb * 2048 <= disk.Length
    ensures ok ==> Formatted(mb, lba, disk[..]) && OutsideSame(old(disk[..]), disk[..], lba, mb * 2048)
    ensures !ok ==> disk[..] == old(disk[..])
  {
    hide Committed, DirEntry, Pad83, RootBytes, SubBytes, FatBytes, Image, InOrder, BootOk, Formatted, SectorOf,
         Regions;
    var fatsz, clusters := ConvergeFat(mb);
    if !(4085 <= clusters <= 65525) {
      return false;
    }
    if disk.Length < lba + mb * 2048 {
      return false;
    }
    var boot := BootSector(mb);
    var fat := FatTableBytes(mb);
    ghost var rs := Regions(mb, lba, boot);
    RegionsFollow(mb, lba, boot);
    NothingWritten(disk[..], rs);
    WriteTables(disk, mb, lba, boot, fat, rs);
    var dataAt := lba + RESERVED + 2 * fatsz + ROOT_SECTORS;
    WriteAt(disk, dataAt, SubBytes(2), rs, 4);
    WriteAt(disk, dataAt + 8, SubBytes(3), rs, 5);
    WriteAt(disk, dataAt + 16, SubBytes(4), rs, 6);
    assert rs[..7] == rs;
    BootWritten(mb, lba, disk[..], boot);
    return true;
  }

  method WriteTables(disk: array<Sector>, mb: nat, lba: nat, boot: Sector, fat: seq<byte>, ghost rs: seq<Region>)
    requires lba + 33 + 2 * mb <= disk.Length && |fat| == 512 * mb && |rs| >= 4 && InOrder(rs)
    requires Image(disk[..], rs[..0])
    requires rs[0] == Region(lba, boot) && rs[1] == Region(lba + 1, fat) && rs[2] == Region(lba + 1 + mb, fat)
    requires rs[3] == Region(lba + 1 + 2 * mb, RootBytes())
    modifies disk
    ensures Image(disk[..], rs[..4]) && OutsideSame(old(disk[..]), disk[..], lba, 33 + 2 * mb)
  {
    hide RootBytes, InOrder, Image;
    WriteAt(disk, lba, boot, rs, 0);
    WriteAt(disk, lba + 1, fat, rs, 1);
    WriteAt(disk, lba + 1 + mb, fat, rs, 2);
    WriteAt(disk, lba + 1 + 2 * mb, RootBytes(), rs, 3);
  }

  lemma RegionsFollow(mb: nat, lba: nat, boot: Sector)
    ensures var rs := Regions(mb, lba, boot);
            && |rs| == 7 && InOrder(rs) && rs[0] == Region(lba, boot)
            && rs[1] == Region(lba + 1, FatBytes(mb)) && rs[2] == Region(lba + 1 + mb, FatBytes(mb))
            && rs[3] == Region(lba + 1 + 2 * mb, RootBytes()) && rs[4] == Region(lba + 33 + 2 * mb, SubBytes(2))
            && rs[5] == Region(lba + 41 + 2 * mb, SubBytes(3)) && rs[6] == Region(lba + 49 + 2 * mb, SubBytes(4))
  {
    hide RootBytes, SubBytes, FatBytes;
  }

  lemma NothingWritten(disk: seq<Sector>, rs: seq<Region>)
    ensures Image(disk, rs[..0])
  {
  }

  lemma BootWritten(mb: nat, lba: nat, disk: seq<Sector>, boot: Sector)
    requires Accepted(mb) && lba + mb * 2048 <= |disk| && BootOk(boot, mb) && Image(disk, Regions(mb, lba, boot))
    ensures Formatted(mb, lba, disk)
  {
    assert OnDisk(disk, Regions(mb, lba, boot)[0]);
    assert disk[lba + 0] == SectorOf(boot, 0) == boot;
  }

  // ----- what the driver makes of it -----

  /** Mounting recomputes exactly the geometry the formatter chose. */
  lemma MountAgrees(mb: nat, b: Sector)
    requires Accepted(mb) && BootOk(b, mb)
    ensures MountLayout(b) == Some(MkLayout(mb))
  {
  }

  function FatEntry(n: nat): nat {
    if n == 0 then 0xFFF8 else if n <= 4 then END_MARK else 0
  }

  lemma DataFits(mb: nat, n: nat)
    requires Accepted(mb) && n <= MkLayout(mb).g.clusters
    ensures Offset(n, SPC) == 8 * n && DataLba(MkLayout(mb)) + 8 * n <= FS_LBA + mb * 2048
  {
    OffsetIs(n, SPC);
  }

  ghost function ClusterOn(mb: nat, disk: seq<Sector>, n: nat): seq<Sector>
    requires Accepted(mb) && FS_LBA + mb * 2048 <= |disk| && n < MkLayout(mb).g.clusters
  {
    DataFits(mb, n + 1);
    seq(SPC, s requires 0 <= s < SPC => disk[DataLba(MkLayout(mb)) + 8 * n + s])
  }

  function RootOn(i: nat): Sector
    requires i < ROOT_SECTORS
  {
    SectorOf(RootBytes(), i)
  }

  /** Entries 0 and 1 of the table stand for no cluster. */
  ghost function DataOn(mb: nat, disk: seq<Sector>, i: nat): seq<Sector>
    requires Accepted(mb) && FS_LBA + mb * 2048 <= |disk| && i < MkLayout(mb).g.clusters + 2
  {
    if i < 2 then [] else ClusterOn(mb, disk, i - 2)
  }

  /** The volume that a formatted disk holds. */
  ghost function MkVol(mb: nat, disk: seq<Sector>): (v: Vol)
    requires Accepted(mb) && FS_LBA + mb * 2048 <= |disk|
  {
    var n := MkLayout(mb).g.clusters;
    Vol(seq(n + 2, i requires 0 <= i < n + 2 => FatEntry(i)),
        seq(ROOT_SECTORS, i requires 0 <= i < ROOT_SECTORS => RootOn(i)),
        seq(n + 2, i requires 0 <= i < n + 2 => DataOn(mb, disk, i)))
  }

  lemma MkVolShape(mb: nat, disk: seq<Sector>)
    requires Accepted(mb) && FS_LBA + mb * 2048 <= |disk|
    ensures VolShape(MkLayout(mb).g, MkVol(mb, disk)) && LayoutOk(MkLayout(mb), |disk|)
  {
    hide RootBytes, SubBytes, FatBytes;
    DataFits(mb, MkLayout(mb).g.clusters);
  }

  lemma FatWord(mb: nat, n: nat)
    requires Accepted(mb) && n < 256 * mb
    ensures Le16(SectorOf(FatBytes(mb), n / 256), 2 * (n % 256)) == FatEntry(n)
  {
  }

  lemma OnFormatted(mb: nat, disk: seq<Sector>, k: nat, i: nat)
    requires Formatted(mb, FS_LBA, disk) && k < 7 && 512 * (i + 1) <= |Regions(mb, FS_LBA, disk[FS_LBA])[k].bytes|
    ensures var r := Regions(mb, FS_LBA, disk[FS_LBA])[k]; r.lba + i < |disk| && disk[r.lba + i] == SectorOf(r.bytes, i)
  {
    assert |Regions(mb, FS_LBA, disk[FS_LBA])| == 7;
    hide Regions, SectorOf;
    var r := Regions(mb, FS_LBA, disk[FS_LBA])[k];
    assert OnDisk(disk, r);
  }

  lemma FatOnDisk(mb: nat, disk: seq<Sector>, f: nat, i: nat)
    requires Formatted(mb, FS_LBA, disk) && f < 2 && i < mb
    ensures CopyLba(MkLayout(mb), f) + i < |disk| && disk[CopyLba(MkLayout(mb), f) + i] == SectorOf(FatBytes(mb), i)
  {
    hide FatBytes, RootBytes, SubBytes, BootOk, SectorOf;
    OnFormatted(mb, disk, f + 1, i);
  }

  lemma RootOnDisk(mb: nat, disk: seq<Sector>, i: nat)
    requires Formatted(mb, FS_LBA, disk) && i < ROOT_SECTORS
    ensures RootLba(MkLayout(mb)) + i < |disk| && disk[RootLba(MkLayout(mb)) + i] == SectorOf(RootBytes(), i)
  {
    hide FatBytes, RootBytes, SubBytes, BootOk, SectorOf;
    OnFormatted(mb, disk, 3, i);
  }

  lemma SubOnDisk(mb: nat, disk: seq<Sector>, h: nat, s: nat)
    requires Formatted(mb, FS_LBA, disk) && 2 <= h < 5 && s < SPC
    ensures var at := DataLba(MkLayout(mb)) + 8 * (h - 2) + s; at < |disk| && disk[at] == SectorOf(SubBytes(h), s)
  {
    hide FatBytes, RootBytes, SubBytes, BootOk, SectorOf;
    OnFormatted(mb, disk, h + 2, s);
  }

  lemma FormattedGeo(mb: nat, disk: seq<Sector>)
    requires Formatted(mb, FS_LBA, disk)
    ensures Accepted(mb) && FS_LBA + mb * 2048 <= |disk|
    ensures var g := MkLayout(mb).g; g.spc == SPC && RootSectors(g) == ROOT_SECTORS && g.clusters >= 3
  {
  }

  lemma FatLength(mb: nat, disk: seq<Sector>)
    requires Accepted(mb) && FS_LBA + mb * 2048 <= |disk|
    ensures |MkVol(mb, disk).fat| == MkLayout(mb).g.clusters + 2 <= 256 * mb
    ensures forall n | 0 <= n < |MkVol(mb, disk).fat| :: MkVol(mb, disk).fat[n] == FatEntry(n)
  {
    hide FatEntry;
  }

  lemma FormattedCopy(mb: nat, disk: seq<Sector>, f: nat)
    requires Formatted(mb, FS_LBA, disk) && f < 2 && LayoutOk(MkLayout(mb), |disk|)
    ensures CopyHolds(MkLayout(mb), disk, MkVol(mb, disk).fat, f)
  {
    hide FatBytes, RootBytes, SubBytes, BootOk, FatEntry, Formatted, SectorOf, Le16, CopyLba, MkVol, MkLayout, LayoutOk;
    FormattedGeo(mb, disk);
    FatLength(mb, disk);
    var l, fat := MkLayout(mb), MkVol(mb, disk).fat;
    forall n | 0 <= n < |fat|
      ensures CopyLba(l, f) + n / 256 < |disk| && Le16(disk[CopyLba(l, f) + n / 256], 2 * (n % 256)) == fat[n]
    {
      FatWord(mb, n);
      FatOnDisk(mb, disk, f, n / 256);
    }
  }

  lemma FormattedSectors(mb: nat, disk: seq<Sector>)
    requires Formatted(mb, FS_LBA, disk) && LayoutOk(MkLayout(mb), |disk|) && VolShape(MkLayout(mb).g, MkVol(mb, disk))
    ensures SectorsHold(MkLayout(mb), disk, MkVol(mb, disk))
  {
    hide Formatted, MkLayout, MkVol, RootLba, DataLba, Offset, VolShape, LayoutOk, RootSectors, LbaOf, SectorAt;
    FormattedGeo(mb, disk);
    var l, v := MkLayout(mb), MkVol(mb, disk);
    forall at | LocOk(l.g, at) ensures LbaOf(l, at) < |disk| && disk[LbaOf(l, at)] == SectorAt(l.g, v, at) {
      FormattedSector(mb, disk, l, v, at);
    }
  }

  lemma FormattedSector(mb: nat, disk: seq<Sector>, l: Layout, v: Vol, at: Loc)
    requires Formatted(mb, FS_LBA, disk) && l == MkLayout(mb) && v == MkVol(mb, disk) && LocOk(l.g, at)
    requires VolShape(l.g, v)
    ensures LbaOf(l, at) < |disk| && disk[LbaOf(l, at)] == SectorAt(l.g, v, at)
  {
    hide Formatted, MkLayout, MkVol, RootLba, DataLba, Offset, VolShape, RootSectors;
    FormattedGeo(mb, disk);
    match at
    case RootAt(i) => RootSector(mb, disk, i);
    case DataAt(n, s) => ClusterSector(mb, disk, n, s);
  }

  lemma RootSector(mb: nat, disk: seq<Sector>, i: nat)
    requires Formatted(mb, FS_LBA, disk) && i < ROOT_SECTORS
    ensures var at := RootLba(MkLayout(mb)) + i;
            at < |disk| && i < |MkVol(mb, disk).root| && MkVol(mb, disk).root[i] == disk[at]
  {
    hide RootBytes, SectorOf, FatEntry, MkLayout, ClusterOn;
    RootOnDisk(mb, disk, i);
  }

  lemma ClusterSector(mb: nat, disk: seq<Sector>, n: nat, s: nat)
    requires Formatted(mb, FS_LBA, disk) && 2 <= n < MkLayout(mb).g.clusters + 2 && s < SPC
    ensures var at := DataLba(MkLayout(mb)) + 8 * (n - 2) + s;
            && at == DataLba(MkLayout(mb)) + Offset(n - 2, SPC) + s && at < |disk|
            && n < |MkVol(mb, disk).data| && |MkVol(mb, disk).data[n]| == SPC && MkVol(mb, disk).data[n][s] == disk[at]
  {
    hide RootBytes, SectorOf, FatEntry;
    DataFits(mb, n - 2);
    DataFits(mb, n - 1);
    assert MkVol(mb, disk).data[n] == ClusterOn(mb, disk, n - 2);
  }

  /** A formatted disk mounts, with the formatter's geometry, and holds its volume. */
  lemma FormattedMounts(mb: nat, disk: seq<Sector>)
    requires Formatted(mb, FS_LBA, disk)
    ensures MountLayout(disk[FS_LBA]) == Some(MkLayout(mb))
    ensures Holds(MkLayout(mb), disk, MkVol(mb, disk))
  {
    hide FatBytes, RootBytes, SubBytes, MkVol, MkLayout, VolShape, LayoutOk, CopyHolds, SectorsHold, MountLayout;
    MountAgrees(mb, disk[FS_LBA]);
    MkVolShape(mb, disk);
    FormattedCopy(mb, disk, 0);
    FormattedCopy(mb, disk, 1);
    FormattedSectors(mb, disk);
  }

  /** One chain of one cluster for each system directory. */
  function MkShape(clusters: nat): Shape {
    Shape(map h: nat | 2 <= h < 5 :: Node([h], true, 0, h - 2), seq(clusters + 2, n => if 2 <= n < 5 then n else 0))
  }

  // ----- it is well formed -----

  lemma MkBase(mb: nat, disk: seq<Sector>)
    requires Accepted(mb) && FS_LBA + mb * 2048 <= |disk|
    ensures Base(MkLayout(mb).g, MkVol(mb, disk), MkShape(MkLayout(mb).g.clusters))
  {
    MkVolShape(mb, disk);
    hide VolShape, FatBytes, RootBytes, SubBytes, ClusterOn;
    var g, v := MkLayout(mb).g, MkVol(mb, disk);
    var sh := MkShape(g.clusters);
    forall h | h in sh.nodes ensures NodeChainOk(v.fat, sh, h) {
    }
    forall n | 2 <= n < |v.fat| ensures OwnerOk(v.fat, sh, n) {
    }
  }

  lemma SliceOfSlice(b: seq<byte>, p: nat, n: nat, q: nat, m: nat)
    requires p + n <= |b| && q + m <= n
    ensures b[p..p + n][q..q + m] == b[p + q..p + q + m]
  {
    var x, y := b[p..p + n][q..q + m], b[p + q..p + q + m];
    assert |x| == |y| && forall k | 0 <= k < m :: x[k] == b[p + q + k] == y[k];
  }

  lemma SlotInBytes(b: seq<byte>, i: nat)
    requires 512 * (i / 16 + 1) <= |b|
    ensures 32 * i + 32 <= |b| && EntryIn(SectorOf(b, i / 16), i % 16) == b[32 * i..32 * i + 32]
  {
    SliceOfSlice(b, 512 * (i / 16), 512, 32 * (i % 16), 32);
  }

  /** What a freshly formatted root directory holds. */
  predicate FreshSlot(e: Entry, i: nat) {
    if i < 3 then Live(e) && HasDirAttr(e) && HeadOf(e) == i + 2 && NameOf(e) == To83Spec(SysName(i)) else e[0] == 0
  }

  lemma SysNameOk(i: nat)
    requires i < 3
    ensures Pad83(SysName(i)) == To83Spec(SysName(i)) && To83Spec(SysName(i))[0] == SysName(i)[0]
    ensures LiveName(To83Spec(SysName(i)))
  {
    var n := SysName(i);
    BeforeIs(n, DOT, |n|);
    PadAgrees(n);
  }

  lemma SysNamesDiffer()
    ensures forall i, j | 0 <= i < j < 3 :: To83Spec(SysName(i)) != To83Spec(SysName(j))
  {
    hide To83Spec;
    SysNameOk(0);
    SysNameOk(1);
    SysNameOk(2);
  }

  lemma RootSlot(i: nat)
    requires i < ROOT_ENTRIES
    ensures FreshSlot(EntryIn(SectorOf(RootBytes(), i / 16), i % 16), i)
  {
    hide DirEntry, Pad83, SectorOf, EntryIn, To83Spec;
    SlotInBytes(RootBytes(), i);
    if i < 3 { SysNameOk(i); }
  }

  lemma DotNames()
    ensures DotName(Pad83([DOT]), 0) && DotName(Pad83([DOT, DOT]), 1) && Pad83([DOT]) != Pad83([DOT, DOT])
    ensures LiveName(Pad83([DOT])) && LiveName(Pad83([DOT, DOT]))
  {
    BeforeIs([DOT], DOT, 0);
    BeforeIs([DOT, DOT], DOT, 0);
    assert Pad83([DOT])[8] == SPACE && Pad83([DOT, DOT])[8] == DOT;
    assert Pad83([DOT])[0] == SPACE && Pad83([DOT, DOT])[0] == SPACE;
    assert Pad83([DOT]) == BlankDotName(0) && Pad83([DOT, DOT]) == BlankDotName(1);
  }

  function SubEntry(self: nat, i: nat): Entry
    requires self < TWO16
  {
    if i == 0 then DirEntry(Pad83([DOT]), ATTR_DIR, self)
    else if i == 1 then DirEntry(Pad83([DOT, DOT]), ATTR_DIR, 0)
    else ZeroEntry()
  }

  lemma SubSlot(self: nat, i: nat)
    requires i < 16 * SPC && self < TWO16
    ensures EntryIn(SectorOf(SubBytes(self), i / 16), i % 16) == SubEntry(self, i)
  {
    hide DirEntry, Pad83, SectorOf, EntryIn;
    SlotInBytes(SubBytes(self), i);
  }

  /** The three directories, by their slots in the root. */
  ghost predicate FreshRoot(g: Geo, v: Vol, sh: Shape)
    requires Base(g, v, sh)
  {
    forall i | 0 <= i && InDir(g, [], i) :: FreshSlot(EntOf(g, v, sh, 0, i), i)
  }

  /** A volume with three empty directories and nothing else. */
  ghost predicate JustMade(g: Geo, v: Vol, sh: Shape) {
    && Base(g, v, sh) && g.rootEntries == ROOT_ENTRIES && sh == MkShape(g.clusters)
    && FreshRoot(g, v, sh) && FreshDir(g, v, sh, 2) && FreshDir(g, v, sh, 3) && FreshDir(g, v, sh, 4)
  }

  lemma FormattedRoot(mb: nat, disk: seq<Sector>, g: Geo, v: Vol, sh: Shape)
    requires Accepted(mb) && FS_LBA + mb * 2048 <= |disk| && g == MkLayout(mb).g && v == MkVol(mb, disk)
    requires Base(g, v, sh)
    ensures FreshRoot(g, v, sh)
  {
    assert g.rootEntries == ROOT_ENTRIES;
    hide RootBytes, FreshSlot, Base, MkLayout, EntryIn, SectorOf, FatEntry, ClusterOn;
    assert |v.root| == ROOT_SECTORS && forall i | 0 <= i < ROOT_SECTORS :: v.root[i] == SectorOf(RootBytes(), i);
    hide MkVol;
    forall i: nat | InDir(g, [], i) ensures FreshSlot(EntOf(g, v, sh, 0, i), i) {
      RootSlot(i);
    }
  }

  lemma OneClusterSlot(g: Geo, v: Vol, sh: Shape, h: nat, i: nat)
    requires Base(g, v, sh) && IsDir(sh, h) && h != 0 && ChOf(sh, h) == [h] && g.spc == SPC && InDir(g, [h], i)
    ensures i < 16 * SPC && 2 <= h < |v.data| && |v.data[h]| == SPC
    ensures EntOf(g, v, sh, h, i) == EntryIn(v.data[h][i / 16], i % 16)
  {
    ChOfOk(g, v, sh, h);
    assert DirChain(g, [h]) && [h][0] == h;
    hide EntryIn, ChainsOk;
    QuotRem(i, Per(g));
    QuotRem(i / 16, SPC);
  }

  lemma FormattedSlot(mb: nat, disk: seq<Sector>, g: Geo, v: Vol, sh: Shape, h: nat, i: nat)
    requires Formatted(mb, FS_LBA, disk) && g == MkLayout(mb).g && v == MkVol(mb, disk)
    requires Base(g, v, sh) && 2 <= h < 5 && IsDir(sh, h) && ChOf(sh, h) == [h] && InDir(g, [h], i)
    ensures EntOf(g, v, sh, h, i) == SubEntry(h, i)
  {
    hide Formatted, SubBytes, SubEntry, EntryIn, SectorOf, MkVol, Base, MkLayout, EntOf, InDir, IsDir, ChOf;
    FormattedGeo(mb, disk);
    OneClusterSlot(g, v, sh, h, i);
    SubOnDisk(mb, disk, h, i / 16);
    ClusterSector(mb, disk, h, i / 16);
    SubSlot(h, i);
  }

  lemma MadeDir(clusters: nat, h: nat)
    requires 2 <= h < 5
    ensures IsDir(MkShape(clusters), h) && ChOf(MkShape(clusters), h) == [h]
  {
  }

  lemma FormattedSub(mb: nat, disk: seq<Sector>, g: Geo, v: Vol, sh: Shape, h: nat)
    requires Formatted(mb, FS_LBA, disk) && g == MkLayout(mb).g && v == MkVol(mb, disk) && sh == MkShape(g.clusters)
    requires Base(g, v, sh) && 2 <= h < 5
    ensures FreshDir(g, v, sh, h)
  {
    hide Formatted, SubBytes, EntOf, MkVol, MkLayout, MkShape, Base, InDir, SubEntry, IsDir, ChOf;
    FormattedGeo(mb, disk);
    MadeDir(g.clusters, h);
    forall i: nat | InDir(g, [h], i) ensures EntOf(g, v, sh, h, i) == SubEntry(h, i) {
      FormattedSlot(mb, disk, g, v, sh, h, i);
    }
    SubEntries(h);
  }

  lemma SubEntries(h: nat)
    requires 2 <= h < 5
    ensures forall i | 0 <= i < 2 ::
              var e := SubEntry(h, i);
              Live(e) && HasDirAttr(e) && DotName(NameOf(e), i) && HeadOf(e) == if i == 0 then h else 0
    ensures NameOf(SubEntry(h, 0)) != NameOf(SubEntry(h, 1))
    ensures forall i: nat | 2 <= i :: SubEntry(h, i)[0] == 0
  {
    hide Pad83, DirEntry, ZeroEntry, HeadOf, SizeOf, NameOf;
    DotNames();
    assert ZeroEntry()[0] == 0;
  }

  lemma FormattedIsMade(mb: nat, disk: seq<Sector>)
    requires Formatted(mb, FS_LBA, disk)
    ensures var g := MkLayout(mb).g; JustMade(g, MkVol(mb, disk), MkShape(g.clusters))
  {
    MkBase(mb, disk);
    var g, v := MkLayout(mb).g, MkVol(mb, disk);
    assert g.rootEntries == ROOT_ENTRIES;
    hide Image, BootOk, MkVol, MkLayout, Base, FreshRoot, FreshDir, MkShape;
    FormattedRoot(mb, disk, g, v, MkShape(g.clusters));
    FormattedSub(mb, disk, g, v, MkShape(g.clusters), 2);
    FormattedSub(mb, disk, g, v, MkShape(g.clusters), 3);
    FormattedSub(mb, disk, g, v, MkShape(g.clusters), 4);
  }

  lemma MadeRootOk(g: Geo, v: Vol, sh: Shape)
    requires JustMade(g, v, sh)
    ensures DirOk(g, v, sh, 0)
  {
    SysNamesDiffer();
    hide FreshDir, EntOf, Base, HeadOf, SizeOf, HasDirAttr, To83Spec, SysName;
  }

  lemma MadeNodeOk(g: Geo, v: Vol, sh: Shape, h: nat)
    requires JustMade(g, v, sh) && h in sh.nodes
    ensures NodeOk(g, v, sh, h)
  {
    hide FreshDir, EntOf, Base, HeadOf, SizeOf, HasDirAttr, To83Spec, SysName;
    assert FreshSlot(EntOf(g, v, sh, 0, h - 2), h - 2);
  }

  lemma MadeWellFormed(g: Geo, v: Vol, sh: Shape)
    requires JustMade(g, v, sh)
    ensures WellFormed(g, v, sh)
  {
    hide FreshDir, FreshRoot, EntOf, Base, DirOk, NodeOk;
    MadeRootOk(g, v, sh);
    forall d | IsDir(sh, d) ensures DirOk(g, v, sh, d) {
      if d != 0 { FreshDirOk(g, v, sh, d); }
    }
    forall h | h in sh.nodes ensures NodeOk(g, v, sh, h) {
      MadeNodeOk(g, v, sh, h);
    }
  }

  lemma MadeContents(g: Geo, v: Vol, sh: Shape, k: nat, d: nat, n: Name)
    requires JustMade(g, v, sh) && TableOk(g, v, sh, 0) && k < 3
    ensures Resolve(g, v, sh, SysName(k)) == Some(k + 2)
    ensures IsDir(sh, d) ==> File(g, v, sh, d, n) == None
  {
    hide EntOf, Base, HeadOf, SizeOf, HasDirAttr, To83Spec, TableOk;
    assert Match(g, v, sh, 0, To83Spec(SysName(k)), k);
    FindIs(g, v, sh, 0, To83Spec(SysName(k)), k);
    if IsDir(sh, d) {
      var i := Find(g, v, sh, d, n);
      if i.Some? {
        assert FreshDir(g, v, sh, 2) && FreshDir(g, v, sh, 3) && FreshDir(g, v, sh, 4);
        assert Match(g, v, sh, d, n, i.value);
      }
    }
  }

  /** A freshly formatted volume is well formed, has the three system directories by
      name, and holds no file in any directory. */
  lemma FormattedIsWellFormed(mb: nat, disk: seq<Sector>, k: nat, d: nat, n: Name)
    requires Formatted(mb, FS_LBA, disk) && k < 3
    ensures var g := MkLayout(mb).g;
            var v, sh := MkVol(mb, disk), MkShape(g.clusters);
            && WellFormed(g, v, sh) && Resolve(g, v, sh, SysName(k)) == Some(k + 2)
            && (IsDir(sh, d) ==> File(g, v, sh, d, n) == None)
  {
    FormattedIsMade(mb, disk);
    var g, v := MkLayout(mb).g, MkVol(mb, disk);
    var sh := MkShape(g.clusters);
    hide Formatted, MkVol, MkLayout, MkShape, JustMade, DirOk, Resolve, File;
    MadeWellFormed(g, v, sh);
    MadeRootOk(g, v, sh);
    RootTable(g, v, sh);
    MadeContents(g, v, sh, k, d, n);
  }

  lemma RootTable(g: Geo, v: Vol, sh: Shape)
    requires Base(g, v, sh) && DirOk(g, v, sh, 0)
    ensures TableOk(g, v, sh, 0)
  {
  }
}
