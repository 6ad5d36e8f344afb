/** Where the parts of a volume lie on a disk of 512-byte sectors. */
module FatDisk {
  import opened Bytes
  import opened FatDir

  /** Sector at which the file system starts. */
  const FS_LBA := 2048

  datatype Layout = Layout(g: Geo, reserved: nat, fatSectors: nat)

  function RootLba(l: Layout): nat { FS_LBA + l.reserved + 2 * l.fatSectors }

  function DataLba(l: Layout): nat { RootLba(l) + RootSectors(l.g) }

  /** First sector of FAT copy 0 or 1. */
  function CopyLba(l: Layout, f: nat): nat {
    FS_LBA + l.reserved + if f == 0 then 0 else l.fatSectors
  }

  /** `k * spc`, by repeated addition. */
  function Offset(k: nat, spc: nat): nat {
    if k == 0 then 0 else Offset(k - 1, spc) + spc
  }

  lemma {:induction false} OffsetIs(k: nat, spc: nat)
    ensures Offset(k, spc) == k * spc
  {
    if k > 0 {
      OffsetIs(k - 1, spc);
      assert (k - 1) * spc + spc == k * spc;
    }
  }

  lemma {:induction false} OffsetOrder(a: nat, b: nat, spc: nat)
    requires a < b
    ensures Offset(a, spc) + spc <= Offset(b, spc)
    decreases b
  {
    if a < b - 1 { OffsetOrder(a, b - 1, spc); }
  }

  function LbaOf(l: Layout, at: Loc): nat
    requires LocOk(l.g, at)
  {
    match at
    case RootAt(i) => RootLba(l) + i
    case DataAt(n, s) => DataLba(l) + Offset(n - 2, l.g.spc) + s
  }

  /** The disk is large enough, and every cluster number has a table entry. */
  ghost predicate LayoutOk(l: Layout, size: nat) {
    && GeoOk(l.g)
    && l.g.clusters + 2 <= 256 * l.fatSectors
    && DataLba(l) + Offset(l.g.clusters, l.g.spc) <= size
  }

  lemma LbaBounds(l: Layout, size: nat, at: Loc)
    requires LayoutOk(l, size) && LocOk(l.g, at)
    ensures RootLba(l) <= LbaOf(l, at) < size
    ensures at.DataAt? ==> DataLba(l) <= LbaOf(l, at)
  {
    if at.DataAt? {
      OffsetOrder(at.n - 2, l.g.clusters, l.g.spc);
    }
  }

  lemma LbasApart(l: Layout, size: nat, a: Loc, b: Loc)
    requires LayoutOk(l, size) && LocOk(l.g, a) && LocOk(l.g, b) && LbaOf(l, a) == LbaOf(l, b)
    ensures a == b
  {
    LbaBounds(l, size, a);
    LbaBounds(l, size, b);
    if a.DataAt? && b.DataAt? {
      if a.n < b.n {
        OffsetOrder(a.n - 2, b.n - 2, l.g.spc);
      } else if b.n < a.n {
        OffsetOrder(b.n - 2, a.n - 2, l.g.spc);
      }
    }
  }

  /** FAT copy `f` on the disk holds the table. */
  ghost predicate CopyHolds(l: Layout, disk: seq<Sector>, fat: seq<nat>, f: nat)
    requires LayoutOk(l, |disk|) && |fat| == l.g.clusters + 2
  {
    forall n | 0 <= n < |fat| :: Le16(disk[CopyLba(l, f) + n / 256], 2 * (n % 256)) == fat[n]
  }

  ghost predicate SectorsHold(l: Layout, disk: seq<Sector>, v: Vol)
    requires LayoutOk(l, |disk|) && VolShape(l.g, v)
  {
    forall at | LocOk(l.g, at) :: LbaOf(l, at) < |disk| && disk[LbaOf(l, at)] == SectorAt(l.g, v, at)
  }

  /** The disk holds the volume, both FAT copies agreeing. */
  ghost predicate Holds(l: Layout, disk: seq<Sector>, v: Vol) {
    && LayoutOk(l, |disk|) && VolShape(l.g, v)
    && CopyHolds(l, disk, v.fat, 0) && CopyHolds(l, disk, v.fat, 1)
    && SectorsHold(l, disk, v)
  }

  /** Sectors that are no part of the table, the root directory or a cluster: what lies
      before the table, the boot sector included, and after the last cluster. */
  predicate Outside(l: Layout, i: nat) {
    i < FS_LBA + l.reserved || DataLba(l) + Offset(l.g.clusters, l.g.spc) <= i
  }

  ghost predicate RestSame(l: Layout, disk: seq<Sector>, outer: seq<Sector>) {
    |disk| == |outer| && forall i | 0 <= i < |disk| && Outside(l, i) :: disk[i] == outer[i]
  }

  lemma RestUntouched(l: Layout, disk: seq<Sector>)
    ensures RestSame(l, disk, disk)
  {
  }

  lemma NeverOutside(l: Layout, size: nat, at: Loc)
    requires LayoutOk(l, size) && LocOk(l.g, at)
    ensures !Outside(l, LbaOf(l, at))
  {
    if at.DataAt? { OffsetOrder(at.n - 2, l.g.clusters, l.g.spc); }
  }

  /** A sector with the 16-bit word at `o` replaced. */
  function Patched(s: Sector, o: nat, w: nat): Sector
    requires o + 2 <= 512 && w < TWO16
  {
    s[o := w % 256][o + 1 := w / 256]
  }

  function PatchFat(l: Layout, disk: seq<Sector>, f: nat, n: nat, w: nat): (r: seq<Sector>)
    requires LayoutOk(l, |disk|) && n < l.g.clusters + 2 && w < TWO16 && f < 2
    ensures |r| == |disk|
  {
    var at := CopyLba(l, f) + n / 256;
    var s: Sector := Patched(disk[at], 2 * (n % 256), w);
    disk[at := s]
  }

  lemma PatchFatInside(l: Layout, disk: seq<Sector>, outer: seq<Sector>, f: nat, n: nat, w: nat)
    requires LayoutOk(l, |disk|) && n < l.g.clusters + 2 && w < TWO16 && f < 2 && RestSame(l, disk, outer)
    ensures RestSame(l, PatchFat(l, disk, f, n, w), outer)
  {
    assert !Outside(l, CopyLba(l, f) + n / 256);
  }

  lemma PatchFatCopy(l: Layout, disk: seq<Sector>, fat: seq<nat>, f: nat, n: nat, w: nat)
    requires LayoutOk(l, |disk|) && |fat| == l.g.clusters + 2 && n < |fat| && w < TWO16 && f < 2
    requires CopyHolds(l, disk, fat, f)
    ensures CopyHolds(l, PatchFat(l, disk, f, n, w), fat[n := w], f)
  {
    var d2 := PatchFat(l, disk, f, n, w);
    forall m | 0 <= m < |fat| ensures Le16(d2[CopyLba(l, f) + m / 256], 2 * (m % 256)) == fat[n := w][m] {
      assert Le16(disk[CopyLba(l, f) + m / 256], 2 * (m % 256)) == fat[m];
    }
  }

  lemma PatchFatOther(l: Layout, disk: seq<Sector>, fat: seq<nat>, f: nat, n: nat, w: nat, k: nat)
    requires LayoutOk(l, |disk|) && |fat| == l.g.clusters + 2 && n < |fat| && w < TWO16 && f < 2 && k < 2 && k != f
    requires CopyHolds(l, disk, fat, k)
    ensures CopyHolds(l, PatchFat(l, disk, f, n, w), fat, k)
  {
    var d2 := PatchFat(l, disk, f, n, w);
    forall m | 0 <= m < |fat| ensures Le16(d2[CopyLba(l, k) + m / 256], 2 * (m % 256)) == fat[m] {
      assert Le16(disk[CopyLba(l, k) + m / 256], 2 * (m % 256)) == fat[m];
    }
  }

  lemma PatchFatSectors(l: Layout, disk: seq<Sector>, v: Vol, f: nat, n: nat, w: nat)
    requires LayoutOk(l, |disk|) && VolShape(l.g, v) && n < l.g.clusters + 2 && w < TWO16 && f < 2
    requires SectorsHold(l, disk, v)
    ensures SectorsHold(l, PatchFat(l, disk, f, n, w), v)
  {
    var d2 := PatchFat(l, disk, f, n, w);
    forall at | LocOk(l.g, at) ensures LbaOf(l, at) < |d2| && d2[LbaOf(l, at)] == SectorAt(l.g, v, at) {
      LbaBounds(l, |disk|, at);
      assert disk[LbaOf(l, at)] == SectorAt(l.g, v, at);
    }
  }

  lemma SectorsIgnoreTable(l: Layout, disk: seq<Sector>, v: Vol, fat: seq<nat>)
    requires LayoutOk(l, |disk|) && VolShape(l.g, v) && VolShape(l.g, v.(fat := fat)) && SectorsHold(l, disk, v)
    ensures SectorsHold(l, disk, v.(fat := fat))
  {
    forall at | LocOk(l.g, at)
      ensures LbaOf(l, at) < |disk| && disk[LbaOf(l, at)] == SectorAt(l.g, v.(fat := fat), at)
    {
      assert disk[LbaOf(l, at)] == SectorAt(l.g, v, at);
    }
  }

  /** Writing the sector of a directory or data location changes just that one. */
  lemma PutSectorHolds(l: Layout, disk: seq<Sector>, v: Vol, at: Loc, s: Sector)
    requires Holds(l, disk, v) && LocOk(l.g, at) && LbaOf(l, at) < |disk|
    ensures Holds(l, disk[LbaOf(l, at) := s], PutSector(l.g, v, at, s))
  {
    var d2, v2 := disk[LbaOf(l, at) := s], PutSector(l.g, v, at, s);
    LbaBounds(l, |disk|, at);
    PutSectorCopies(l, disk, v.fat, at, s);
    forall b | LocOk(l.g, b) ensures LbaOf(l, b) < |d2| && d2[LbaOf(l, b)] == SectorAt(l.g, v2, b) {
      LbaBounds(l, |disk|, b);
      assert disk[LbaOf(l, b)] == SectorAt(l.g, v, b);
      if LbaOf(l, b) == LbaOf(l, at) {
        LbasApart(l, |disk|, at, b);
      }
    }
  }

  lemma PutSectorCopies(l: Layout, disk: seq<Sector>, fat: seq<nat>, at: Loc, s: Sector)
    requires LayoutOk(l, |disk|) && |fat| == l.g.clusters + 2 && LocOk(l.g, at) && RootLba(l) <= LbaOf(l, at) < |disk|
    requires CopyHolds(l, disk, fat, 0) && CopyHolds(l, disk, fat, 1)
    ensures CopyHolds(l, disk[LbaOf(l, at) := s], fat, 0) && CopyHolds(l, disk[LbaOf(l, at) := s], fat, 1)
  {
    var d2 := disk[LbaOf(l, at) := s];
    forall f, n | 0 <= f < 2 && 0 <= n < |fat|
      ensures Le16(d2[CopyLba(l, f) + n / 256], 2 * (n % 256)) == fat[n]
    {
      assert CopyLba(l, f) + n / 256 < RootLba(l);
      assert CopyHolds(l, disk, fat, f);
      assert Le16(disk[CopyLba(l, f) + n / 256], 2 * (n % 256)) == fat[n];
    }
  }
}
