/** What the driver's steps amount to, in terms of volumes alone: outcomes of each
    operation and the facts its methods need between steps. */
module FatFacts {
  import opened Arith
  import opened Bytes
  import opened FatTable
  import opened FatDir
  import opened FatState
  import opened FatOps
  import opened FatFiles
  import opened FatSteps
  import opened FatWrites
  import opened FatLost
  import opened FatNames
  import opened FatDisk
  import opened Wrappers

  /** Slot `idx` of directory `d` lies in sector `lba` and holds `e`. */
  ghost predicate Located(l: Layout, v: Vol, sh: Shape, d: nat, idx: nat, e: Entry, lba: nat)
    requires Base(l.g, v, sh) && IsDir(sh, d)
  {
    && InDir(l.g, ChOf(sh, d), idx) && e == EntOf(l.g, v, sh, d, idx)
    && DirChain(l.g, ChOf(sh, d)) && lba == LbaOf(l, SlotLoc(l.g, ChOf(sh, d), idx))
  }

  /** No slot before `idx` has this name. */
  ghost predicate NoMatchBefore(g: Geo, v: Vol, sh: Shape, d: nat, name: Name, idx: nat)
    requires Base(g, v, sh) && IsDir(sh, d)
  {
    forall j | 0 <= j < idx :: !Match(g, v, sh, d, name, j)
  }

  /** From `v` to `v2` directory `d` got cluster `nc`, and nothing else changed. */
  ghost predicate GrewBy(g: Geo, v: Vol, sh: Shape, v2: Vol, sh2: Shape, d: nat, nc: nat) {
    && Base(g, v, sh) && Base(g, v2, sh2) && IsDir(sh, d)
    && nc in Free(v.fat) && d != 0
    && v2.fat == Append(v.fat, (assert NodeChainOk(v.fat, sh, d); ChOf(sh, d)[|ChOf(sh, d)| - 1]), nc)
    && Grown(g, v, sh, v2, sh2, d, nc) && DataKept(v, sh, v2, sh2)
  }

  ghost predicate IsScanLimit(g: Geo, ch: seq<nat>, max: nat) {
    GeoOk(g) && max == SlotLimit(g, ch) && forall j | 0 <= j && InDir(g, ch, j) :: j < max
  }

  lemma NoMatchAtAll(g: Geo, v: Vol, sh: Shape, d: nat, name: Name, max: nat)
    requires Base(g, v, sh) && IsDir(sh, d) && NoMatchBefore(g, v, sh, d, name, max) && IsScanLimit(g, ChOf(sh, d), max)
    ensures Find(g, v, sh, d, name) == None
  {
  }

  lemma GrowStepBy(g: Geo, v: Vol, sh: Shape, d: nat, nc: nat, v2: Vol)
    requires WellFormed(g, v, sh) && IsDir(sh, d) && d != 0 && 2 <= nc < |v.fat| && v.fat[nc] == 0
    requires DirChain(g, ChOf(sh, d)) && ChOf(sh, d) != [] && VolShape(g, v2)
    requires v2 == Vol(Append(v.fat, ChOf(sh, d)[|ChOf(sh, d)| - 1], nc), v.root, v2.data)
    requires DataBut(v.data, v2.data, [nc]) && Zeroed(g, v2.data[nc])
    ensures WellFormed(g, v2, GrowChain(sh, d, nc)) && GrewBy(g, v, sh, v2, GrowChain(sh, d, nc), d, nc)
  {
    hide WellFormed;
    GrowStep(g, v, sh, d, nc, v2.data);
  }

  lemma ShapeSize(g: Geo, v: Vol, sh: Shape)
    requires Base(g, v, sh)
    ensures |sh.own| == g.clusters + 2
  {
  }

  ghost predicate FreshSector(s: Sector, nc: nat)
    requires nc < TWO16
  {
    && NameOf(EntryIn(s, 0)) == DotNameOf(1) && HasDirAttr(EntryIn(s, 0)) && HeadOf(EntryIn(s, 0)) == nc
    && NameOf(EntryIn(s, 1)) == DotNameOf(2) && HasDirAttr(EntryIn(s, 1)) && HeadOf(EntryIn(s, 1)) == 0
    && forall k | 2 <= k < 16 :: EntryIn(s, k)[0] == 0
  }

  lemma FirstSectorIs(one: Sector, two: Sector, nc: nat)
    requires nc < TWO16
    requires one == PutEntryIn(ZeroSector(), 0, Committed(EntryIn(ZeroSector(), 0), DotNameOf(1), ATTR_DIR, nc, 0))
    requires two == PutEntryIn(one, 1, Committed(EntryIn(one, 1), DotNameOf(2), ATTR_DIR, 0, 0))
    ensures FreshSector(two, nc)
  {
    hide PutEntryIn, Committed;
    forall k | 2 <= k < 16 ensures EntryIn(two, k)[0] == 0 {
      assert EntryIn(two, k) == EntryIn(ZeroSector(), k);
    }
  }

  ghost predicate FreshCluster(g: Geo, c: seq<Sector>, nc: nat)
    requires nc < TWO16
  {
    |c| == g.spc > 0 && FreshSector(c[0], nc) && forall s | 1 <= s < |c| :: c[s] == ZeroSector()
  }

  lemma RootIsDir(sh: Shape)
    ensures IsDir(sh, 0) && ChOf(sh, 0) == []
  {
  }

  lemma RootSlot(l: Layout, v: Vol, sh: Shape, v1: Vol, sh1: Shape, ok: bool, e: Entry, lba: nat, idx: nat, grew: bool,
                 nc: nat)
    requires Base(l.g, v, sh) && SlotGot(l, v, sh, v1, sh1, 0, ok, e, lba, idx, grew, nc)
    ensures v1 == v && sh1 == sh && (ok <==> HasRoom(l.g, v, sh, 0))
    ensures ok ==> Located(l, v, sh, 0, idx, e, lba) && Vacant(l.g, v, sh, 0, idx)
  {
  }

  /** The slots of a directory made of one fresh cluster. */
  lemma FreshSlots(g: Geo, v: Vol, nc: nat, j: nat)
    requires GeoOk(g) && VolShape(g, v) && 2 <= nc < g.clusters + 2 && FreshCluster(g, v.data[nc], nc)
    requires DirChain(g, [nc]) && InDir(g, [nc], j)
    ensures var e := Ent(g, v, [nc], j);
            if j == 0 then NameOf(e) == DotNameOf(1) && HasDirAttr(e) && HeadOf(e) == nc
            else if j == 1 then NameOf(e) == DotNameOf(2) && HasDirAttr(e) && HeadOf(e) == 0
            else e[0] == 0
  {
    hide InRange;
    var c := v.data[nc];
    assert SlotLoc(g, [nc], j) == DataAt(nc, Rem(j / 16, g.spc));
    assert j < 16 ==> Rem(j / 16, g.spc) == 0;
    assert j / 16 < g.spc;
    assert Rem(j / 16, g.spc) == j / 16;
    assert Ent(g, v, [nc], j) == EntryIn(c[j / 16], j % 16);
    hide Ent, SlotLoc, Rem;
    if j >= 16 {
      assert c[j / 16] == ZeroSector();
    } else {
      assert j / 16 == 0 && j % 16 == j;
    }
  }

  lemma FreshIsFresh(g: Geo, v: Vol, sh: Shape, nc: nat)
    requires Base(g, v, sh) && IsDir(sh, nc) && nc != 0 && ChOf(sh, nc) == [nc]
    requires 2 <= nc < g.clusters + 2 && FreshCluster(g, v.data[nc], nc)
    ensures FreshDir(g, v, sh, nc)
  {
    hide ChainsOk, VolShape, FreshCluster;
    ChOfOk(g, v, sh, nc);
    forall j | 0 <= j && InDir(g, [nc], j)
      ensures var e := EntOf(g, v, sh, nc, j);
              if j == 0 then NameOf(e) == DotNameOf(1) && HasDirAttr(e) && HeadOf(e) == nc
              else if j == 1 then NameOf(e) == DotNameOf(2) && HasDirAttr(e) && HeadOf(e) == 0
              else e[0] == 0
    {
      FreshSlots(g, v, nc, j);
    }
    DotNamesDiffer();
  }

  lemma DotNamesDiffer()
    ensures DotNameOf(1) != DotNameOf(2)
  {
    assert DotNameOf(1)[1] != DotNameOf(2)[1];
  }

  /** `v2` is `v` with one more directory, empty, under this name. */
  ghost predicate MadeDir(g: Geo, v: Vol, sh: Shape, v2: Vol, sh2: Shape, name: Name, nc: nat) {
    && Base(g, v, sh) && WellFormed(g, v2, sh2)
    && !IsDir(sh, nc) && (forall x: nat :: IsDir(sh2, x) <==> IsDir(sh, x) || x == nc)
    && (forall n: Name :: SubDir(g, v2, sh2, n) == if n == name then Some(nc) else SubDir(g, v, sh, n))
    && (forall x: nat, n: Name | IsDir(sh, x) :: File(g, v2, sh2, x, n) == File(g, v, sh, x, n))
    && (forall n: Name :: File(g, v2, sh2, nc, n) == None)
  }

  /** The possible outcomes of mkdir. */
  ghost predicate MkdirOutcome(g: Geo, v: Vol, sh: Shape, v2: Vol, sh2: Shape, name: Name, r: int)
    requires Base(g, v, sh)
  {
    && (r == 0 <==> Find(g, v, sh, 0, name) == None && HasRoom(g, v, sh, 0) && Free(v.fat) != {})
    && (r == 0 ==> |Free(v2.fat)| == |Free(v.fat)| - 1)
    && (r == 0 && LiveName(name) ==> exists nc :: MadeDir(g, v, sh, v2, sh2, name, nc))
    && (r == 0 && name[0] == DELETED ==> Lost(g, v, sh, v2, sh2, 0, 1))
    && (r != 0 ==> v2 == v && sh2 == sh)
  }

  lemma MkdirRefused(g: Geo, v: Vol, sh: Shape, name: Name)
    requires Base(g, v, sh)
    requires !(Find(g, v, sh, 0, name) == None && HasRoom(g, v, sh, 0) && Free(v.fat) != {})
    ensures MkdirOutcome(g, v, sh, v, sh, name, -1)
  {
  }

  lemma MadeEntry(g: Geo, v: Vol, sh: Shape, idx: nat, name: Name, nc: nat, w: Vol)
    requires WellFormed(g, v, sh) && Vacant(g, v, sh, 0, idx) && 2 <= nc < g.clusters + 2
    requires VolShape(g, w) && w.root == v.root
    ensures Base(g, v, sh) && GeoOk(g) && DirChain(g, []) && InDir(g, [], idx) && IsDir(sh, 0) && ChOf(sh, 0) == []
    ensures Ent(g, w, [], idx) == EntOf(g, v, sh, 0, idx)
    ensures nc < |v.fat| && nc < TWO16
  {
  }

  lemma MadeFiles(g: Geo, v: Vol, sh: Shape, v2: Vol, sh2: Shape, idx: nat, e: Entry, name: Name, nc: nat)
    requires WellFormed(g, v, sh) && WellFormed(g, v2, sh2) && nc !in sh.nodes && nc != 0
    requires InDir(g, [], idx) && !Live(EntOf(g, v, sh, 0, idx)) && Find(g, v, sh, 0, name) == None
    requires sh2 == CommittedShape(sh, 0, idx, e, [nc]) && OneSlot(g, v, sh, v2, sh2, 0, idx, e)
    requires DataKept(v, sh, v2, sh2)
    requires Live(e) && NameOf(e) == name && HasDirAttr(e) && HeadOf(e) == nc
    requires IsDir(sh2, nc) && FreshDir(g, v2, sh2, nc)
    ensures MadeDir(g, v, sh, v2, sh2, name, nc)
  {
    assert forall x: nat :: IsDir(sh2, x) <==> IsDir(sh, x) || x == nc;
    hide WellFormed, Base, OneSlot, DataKept, CommittedShape, FreshDir, SubDir, File;
    forall n: Name ensures SubDir(g, v2, sh2, n) == if n == name then Some(nc) else SubDir(g, v, sh, n) {
      SlotFacts(g, v, sh, v2, sh2, 0, idx, e, 0);
      MadeSubDir(g, v, sh, v2, sh2, idx, e, name, n);
    }
    forall x: nat, n: Name | IsDir(sh, x) ensures File(g, v2, sh2, x, n) == File(g, v, sh, x, n) {
      SlotFacts(g, v, sh, v2, sh2, 0, idx, e, x);
      if x == 0 && n == name {
        NoFileOfDir(g, v, sh, name, idx);
        NoFileOfDir(g, v2, sh2, name, idx);
      } else {
        OtherFilesKept(g, v, sh, v2, sh2, 0, idx, e, x, n);
      }
    }
    forall n: Name ensures File(g, v2, sh2, nc, n) == None {
      FreshHasNoFiles(g, v2, sh2, nc, n);
    }
  }

  lemma MadeSubDir(g: Geo, v: Vol, sh: Shape, v2: Vol, sh2: Shape, idx: nat, e: Entry, name: Name, n: Name)
    requires Base(g, v, sh) && Base(g, v2, sh2) && TableOk(g, v, sh, 0) && TableOk(g, v2, sh2, 0)
    requires InDir(g, [], idx) && !Live(EntOf(g, v, sh, 0, idx))
    requires SlotsBut(g, v, sh, v2, sh2, 0, 0, idx, e) && Live(e) && NameOf(e) == name && HasDirAttr(e)
    ensures SubDir(g, v2, sh2, n) == if n == name then Some(HeadOf(e)) else SubDir(g, v, sh, n)
  {
    if n == name {
      assert Match(g, v2, sh2, 0, name, idx);
      FindIs(g, v2, sh2, 0, name, idx);
    } else {
      OtherMatchesKept(g, v, sh, v2, sh2, 0, idx, e, 0, n);
      SubDirKept(g, v, sh, v2, sh2, n);
    }
  }

  lemma NoFileOfDir(g: Geo, v: Vol, sh: Shape, name: Name, idx: nat)
    requires Base(g, v, sh) && TableOk(g, v, sh, 0)
    requires Find(g, v, sh, 0, name) == None || (Match(g, v, sh, 0, name, idx) && HasDirAttr(EntOf(g, v, sh, 0, idx)))
    ensures File(g, v, sh, 0, name) == None
  {
    if Match(g, v, sh, 0, name, idx) {
      FindIs(g, v, sh, 0, name, idx);
    }
  }

  lemma FreshHasNoFiles(g: Geo, v: Vol, sh: Shape, nc: nat, n: Name)
    requires Base(g, v, sh) && IsDir(sh, nc) && FreshDir(g, v, sh, nc)
    ensures File(g, v, sh, nc, n) == None
  {
    hide ChainsOk, VolShape;
    var i := Find(g, v, sh, nc, n);
    if i.Some? {
      assert Match(g, v, sh, nc, n, i.value);
    }
  }

  /** A fresh cluster for a directory, before its entry is committed. */
  lemma MadeStaged(g: Geo, v: Vol, sh: Shape, idx: nat, name: Name, nc: nat, w: Vol)
    requires WellFormed(g, v, sh) && Vacant(g, v, sh, 0, idx) && Find(g, v, sh, 0, name) == None && LiveName(name)
    requires 2 <= nc < g.clusters + 2 && v.fat[nc] == 0
    requires VolShape(g, w) && w == Vol(v.fat[nc := END_MARK], v.root, w.data) && DataBut(v.data, w.data, [nc])
    requires FreshCluster(g, w.data[nc], nc)
    ensures var e := Committed(EntOf(g, v, sh, 0, idx), name, ATTR_DIR, nc, 0);
            var sh2 := CommittedShape(sh, 0, idx, e, [nc]);
            && FreeClusters(g, v, [nc]) && DataShape(g, w.data) && Committable(g, v, sh, 0, idx, e, [nc])
            && CommittedVol(g, v, sh, 0, idx, e, [nc], w.data) == PutEnt(g, w, [], idx, e)
            && Base(g, PutEnt(g, w, [], idx, e), sh2) && nc !in sh.nodes
            && IsDir(sh2, nc) && FreshDir(g, PutEnt(g, w, [], idx, e), sh2, nc)
  {
    hide WellFormed, ChainsOk, FreshCluster, PutEnt, FreshDir, DirOk;
    var e := Committed(EntOf(g, v, sh, 0, idx), name, ATTR_DIR, nc, 0);
    LinkOne(v.fat, nc);
    assert Staged(g, v, [nc], w.data) == w;
    CommittedVolBase(g, v, sh, 0, idx, e, [nc], w.data);
    CommittedVolData(g, v, sh, 0, idx, e, [nc], w.data);
    FreshIsFresh(g, CommittedVol(g, v, sh, 0, idx, e, [nc], w.data), CommittedShape(sh, 0, idx, e, [nc]), nc);
  }

  lemma MadeStepLive(g: Geo, v: Vol, sh: Shape, idx: nat, name: Name, nc: nat, w: Vol)
    requires WellFormed(g, v, sh) && Vacant(g, v, sh, 0, idx) && Find(g, v, sh, 0, name) == None && LiveName(name)
    requires 2 <= nc < g.clusters + 2 && v.fat[nc] == 0
    requires VolShape(g, w) && w == Vol(v.fat[nc := END_MARK], v.root, w.data) && DataBut(v.data, w.data, [nc])
    requires FreshCluster(g, w.data[nc], nc)
    ensures var e := Committed(EntOf(g, v, sh, 0, idx), name, ATTR_DIR, nc, 0);
            MadeDir(g, v, sh, PutEnt(g, w, [], idx, e), CommittedShape(sh, 0, idx, e, [nc]), name, nc)
  {
    hide WellFormed, Base, FreshCluster, PutEnt, FreshDir, CommittedVol, CommittedShape, Committable, FreeClusters,
         DataShape, DataBut, VolShape, OneSlot, DataKept, MadeDir, EntOf, Find;
    ClusterFitsEntry(g, v, sh, nc);
    var e := Committed(EntOf(g, v, sh, 0, idx), name, ATTR_DIR, nc, 0);
    MadeStaged(g, v, sh, idx, name, nc, w);
    CommitStep(g, v, sh, 0, idx, e, [nc], w.data);
    DirCommitted(e);
    MadeFiles(g, v, sh, PutEnt(g, w, [], idx, e), CommittedShape(sh, 0, idx, e, [nc]), idx, e, name, nc);
  }

  lemma ClusterFitsEntry(g: Geo, v: Vol, sh: Shape, nc: nat)
    requires Base(g, v, sh) && nc < g.clusters + 2
    ensures nc < TWO16
  {
  }

  lemma DirCommitted(e: Entry)
    ensures e[11] == ATTR_DIR ==> HasDirAttr(e)
  {
  }

  lemma OneTaken(fat: seq<nat>, nc: nat)
    requires 2 <= nc < |fat| && fat[nc] == 0
    ensures Free(fat) != {} && |Free(fat[nc := END_MARK])| == |Free(fat)| - 1
  {
    assert nc in Free(fat) && Free(fat[nc := END_MARK]) == Free(fat) - {nc};
  }

  lemma MadeStep(l: Layout, v: Vol, sh: Shape, idx: nat, name: Name, nc: nat, w: Vol)
    requires WellFormed(l.g, v, sh) && HasRoom(l.g, v, sh, 0) && Find(l.g, v, sh, 0, name) == None
    requires Vacant(l.g, v, sh, 0, idx) && 2 <= nc < l.g.clusters + 2 && v.fat[nc] == 0
    requires VolShape(l.g, w) && w == Vol(v.fat[nc := END_MARK], v.root, w.data) && DataBut(v.data, w.data, [nc])
    requires FreshCluster(l.g, w.data[nc], nc)
    ensures GeoOk(l.g) && DirChain(l.g, []) && InDir(l.g, [], idx) && Ent(l.g, w, [], idx) == EntOf(l.g, v, sh, 0, idx)
    ensures nc < TWO16 && 0 < TWO32
    ensures var e := Committed(EntOf(l.g, v, sh, 0, idx), name, ATTR_DIR, nc, 0);
            MkdirOutcome(l.g, v, sh, PutEnt(l.g, w, [], idx, e), MadeShape(sh, idx, e, nc), name, 0)
  {
    hide Free, WellFormed, ChainsOk, FreshCluster, PutEnt, HasRoom, MadeDir, Vacant, Find, Lost, VolShape, GeoOk, Base,
         DataBut, EntOf, Ent, Committed;
    MadeEntry(l.g, v, sh, idx, name, nc, w);
    OneTaken(v.fat, nc);
    if LiveName(name) {
      MadeStepLive(l.g, v, sh, idx, name, nc, w);
    }
    if name[0] == DELETED {
      LostDir(l.g, v, sh, idx, name, nc, w);
    }
  }

  /** The chains after a mkdir: a directory under a name that reads as deleted is none. */
  ghost function MadeShape(sh: Shape, idx: nat, e: Entry, nc: nat): Shape {
    if Live(e) then CommittedShape(sh, 0, idx, e, [nc]) else LostShape(sh, 0, idx, [nc])
  }

  lemma LostDir(g: Geo, v: Vol, sh: Shape, idx: nat, name: Name, nc: nat, w: Vol)
    requires WellFormed(g, v, sh) && Vacant(g, v, sh, 0, idx) && name[0] == DELETED
    requires 2 <= nc < g.clusters + 2 && v.fat[nc] == 0
    requires VolShape(g, w) && w == Vol(v.fat[nc := END_MARK], v.root, w.data) && DataBut(v.data, w.data, [nc])
    ensures var e := Committed(EntOf(g, v, sh, 0, idx), name, ATTR_DIR, nc, 0);
            Lost(g, v, sh, PutEnt(g, w, [], idx, e), LostShape(sh, 0, idx, [nc]), 0, 1)
  {
    LinkOne(v.fat, nc);
    var e := Committed(EntOf(g, v, sh, 0, idx), name, ATTR_DIR, nc, 0);
    assert e[0] == NameOf(e)[0] == DELETED;
    hide WellFormed, ChainsOk, Vacant, PutEnt, Lost;
    LostDone(g, v, sh, 0, idx, e, [nc], w);
  }

  ghost function DotSlot(d: nat, idx: nat): (r: bool)
    ensures r == IsDot(d, idx)
  {
    IsDot(d, idx)
  }

  /** The emptiness scan of directory number 0 stays on the disk. */
  lemma ScanWithinDisk(l: Layout, size: nat, idx: nat)
    requires LayoutOk(l, size) && idx < l.g.clusters * l.g.spc * 16
    ensures RootLba(l) + idx / 16 < size
  {
    OffsetIs(l.g.clusters, l.g.spc);
    assert idx / 16 < l.g.clusters * l.g.spc;
  }

  /** Sector `k` counted from the start of the root directory: the emptiness scan of
      directory number 0 runs on from the root into the clusters behind it. */
  function RawSector(g: Geo, v: Vol, k: nat): Sector
    requires GeoOk(g) && VolShape(g, v) && k < g.clusters * g.spc
  {
    var r := RootSectors(g);
    if k < r then v.root[k]
    else
      RawFits(g, k - r);
      v.data[2 + Quot(k - r, g.spc)][Rem(k - r, g.spc)]
  }

  lemma RawFits(g: Geo, k: nat)
    requires GeoOk(g) && k < g.clusters * g.spc
    ensures Quot(k, g.spc) < g.clusters
  {
    QuotRem(k, g.spc);
    DivBelow(k, g.spc, g.clusters);
  }

  lemma RawPlace(l: Layout, size: nat, k: nat)
    requires LayoutOk(l, size) && k < l.g.clusters * l.g.spc
    ensures k < RootSectors(l.g) ==> LbaOf(l, RootAt(k)) == RootLba(l) + k
    ensures k >= RootSectors(l.g) ==>
              var n := k - RootSectors(l.g);
              && LocOk(l.g, DataAt(2 + Quot(n, l.g.spc), Rem(n, l.g.spc)))
              && LbaOf(l, DataAt(2 + Quot(n, l.g.spc), Rem(n, l.g.spc))) == RootLba(l) + k
  {
    if k >= RootSectors(l.g) {
      var n := k - RootSectors(l.g);
      RawFits(l.g, n);
      QuotRem(n, l.g.spc);
      Euclid(n, l.g.spc);
      OffsetIs(Quot(n, l.g.spc), l.g.spc);
    }
  }

  lemma RawHeld(l: Layout, disk: seq<Sector>, v: Vol, k: nat)
    requires Holds(l, disk, v) && k < l.g.clusters * l.g.spc
    ensures RootLba(l) + k < |disk| && disk[RootLba(l) + k] == RawSector(l.g, v, k)
  {
    RawPlace(l, |disk|, k);
    hide CopyHolds, VolShape, Quot, Rem, Offset;
    var r := RootSectors(l.g);
    var at := if k < r then RootAt(k) else DataAt(2 + Quot(k - r, l.g.spc), Rem(k - r, l.g.spc));
    LbaBounds(l, |disk|, at);
    assert disk[LbaOf(l, at)] == SectorAt(l.g, v, at);
  }

  predicate RawOk(g: Geo, v: Vol, j: nat) {
    GeoOk(g) && j < g.clusters * g.spc * 16
  }

  /** First byte of slot `j` as that scan counts slots. */
  ghost function RawByte(g: Geo, v: Vol, j: nat): byte
    requires VolShape(g, v) && RawOk(g, v, j)
  {
    assert j / 16 < g.clusters * g.spc;
    RawSector(g, v, j / 16)[(j % 16) * 32]
  }

  /** That scan, from slot `j` on, meets a never-used slot or its limit before a live one. */
  ghost predicate RawEmpty(g: Geo, v: Vol, j: nat)
    requires GeoOk(g) && VolShape(g, v)
    decreases g.clusters * g.spc * 16 - j
  {
    j < g.clusters * g.spc * 16 ==>
      RawByte(g, v, j) == 0 || (RawByte(g, v, j) == DELETED && RawEmpty(g, v, j + 1))
  }

  /** Nothing live past the first never-used slot. */
  ghost predicate QuietAfterEnd(g: Geo, v: Vol, ch: seq<nat>) {
    && GeoOk(g) && VolShape(g, v) && DirChain(g, ch)
    && forall i, j | 0 <= i < j && InDir(g, ch, i) && InDir(g, ch, j) && Live(Ent(g, v, ch, j)) ::
       Ent(g, v, ch, i)[0] != 0
  }

  ghost predicate BareDir(g: Geo, v: Vol, ch: seq<nat>) {
    && GeoOk(g) && VolShape(g, v) && DirChain(g, ch)
    && forall j | 2 <= j && InDir(g, ch, j) :: !Live(Ent(g, v, ch, j))
  }

  ghost predicate DeadBefore(g: Geo, v: Vol, ch: seq<nat>, idx: nat) {
    && GeoOk(g) && VolShape(g, v) && DirChain(g, ch)
    && forall j | 2 <= j < idx && InDir(g, ch, j) :: !Live(Ent(g, v, ch, j))
  }

  lemma BareFrom(g: Geo, v: Vol, ch: seq<nat>, idx: nat)
    requires QuietAfterEnd(g, v, ch) && DeadBefore(g, v, ch, idx)
    requires InDir(g, ch, idx) ==> Ent(g, v, ch, idx)[0] == 0
    ensures BareDir(g, v, ch)
  {
    forall j | 2 <= j && InDir(g, ch, j) ensures !Live(Ent(g, v, ch, j)) {
      if j >= idx { InDirBelow(g, ch, idx, j); }
    }
  }

  lemma BareAtLimit(g: Geo, v: Vol, ch: seq<nat>, idx: nat)
    requires ch != [] && DeadBefore(g, v, ch, idx) && idx >= SlotLimit(g, ch)
    ensures BareDir(g, v, ch)
  {
    forall j | 2 <= j && InDir(g, ch, j) ensures !Live(Ent(g, v, ch, j)) {
      InDirBound(g, ch, j);
    }
  }

  lemma DeadAtStart(g: Geo, v: Vol, ch: seq<nat>)
    requires QuietAfterEnd(g, v, ch)
    ensures DeadBefore(g, v, ch, 2)
  {
  }

  /** What one more first byte says about a subdirectory. */
  lemma DeadStep(g: Geo, v: Vol, ch: seq<nat>, idx: nat, first: byte)
    requires QuietAfterEnd(g, v, ch) && DeadBefore(g, v, ch, idx) && 2 <= idx && InDir(g, ch, idx)
    requires first == Ent(g, v, ch, idx)[0]
    ensures first == 0 ==> BareDir(g, v, ch)
    ensures first != 0 && first != DELETED ==> !BareDir(g, v, ch)
    ensures first == DELETED ==> DeadBefore(g, v, ch, idx + 1)
  {
    hide VolShape, DirChain, InDir, Ent;
    if first == 0 { BareFrom(g, v, ch, idx); }
    assert first != 0 && first != DELETED ==> Live(Ent(g, v, ch, idx));
  }

  /** And about the scan of directory number 0. */
  lemma RawStep(g: Geo, v: Vol, j: nat)
    requires VolShape(g, v) && RawOk(g, v, j)
    ensures RawByte(g, v, j) == 0 ==> RawEmpty(g, v, j)
    ensures RawByte(g, v, j) != 0 && RawByte(g, v, j) != DELETED ==> !RawEmpty(g, v, j)
    ensures RawByte(g, v, j) == DELETED ==> (RawEmpty(g, v, j) <==> RawEmpty(g, v, j + 1))
  {
    hide VolShape, RawByte;
  }

  lemma RawAtLimit(g: Geo, v: Vol, j: nat)
    requires GeoOk(g) && VolShape(g, v) && j >= g.clusters * g.spc * 16
    ensures RawEmpty(g, v, j)
  {
  }

  lemma SubIsQuiet(g: Geo, v: Vol, sh: Shape, d: nat)
    requires WellFormed(g, v, sh) && IsDir(sh, d)
    ensures QuietAfterEnd(g, v, ChOf(sh, d))
  {
    DirIsFine(g, v, sh, d);
    ChOfOk(g, v, sh, d);
    hide WellFormed, DirOk;
    forall i, j | 0 <= i < j && InDir(g, ChOf(sh, d), i) && InDir(g, ChOf(sh, d), j) && Live(Ent(g, v, ChOf(sh, d), j))
      ensures Ent(g, v, ChOf(sh, d), i)[0] != 0
    {
      assert Live(EntOf(g, v, sh, d, j));
      assert EntOf(g, v, sh, d, i)[0] != 0;
    }
  }

  lemma MarkedIs(s: Sector, t: Sector, k: nat)
    requires k < 16 && t == s[k * 32 := DELETED]
    ensures t == PutEntryIn(s, k, Erased(EntryIn(s, k)))
  {
    var e := Erased(EntryIn(s, k));
    assert t == s[..32 * k] + e + s[32 * k + 32..];
  }

  /** The head a live entry names is a chain of the volume, or 0. */
  lemma FoundHead(g: Geo, v: Vol, sh: Shape, d: nat, idx: nat)
    requires WellFormed(g, v, sh) && IsDir(sh, d) && InDir(g, ChOf(sh, d), idx) && Live(EntOf(g, v, sh, d, idx))
    ensures var e := EntOf(g, v, sh, d, idx);
            && (HeadOf(e) == 0 || HeadOf(e) in sh.nodes) && HeadOf(e) < g.clusters + 2
            && (HasDirAttr(e) ==> IsDir(sh, HeadOf(e)))
            && InRange(v.fat)
  {
    assert DirOk(g, v, sh, d);
    assert SlotOk(g, v, sh, d, idx);
    var h := HeadOf(EntOf(g, v, sh, d, idx));
    if h in sh.nodes { assert NodeChainOk(v.fat, sh, h); }
  }

  lemma NotErasable(g: Geo, v: Vol, sh: Shape, d: nat, idx: nat)
    requires WellFormed(g, v, sh) && IsDir(sh, d) && InDir(g, ChOf(sh, d), idx) && Live(EntOf(g, v, sh, d, idx))
    requires var e := EntOf(g, v, sh, d, idx);
             HasDirAttr(e) && IsDir(sh, HeadOf(e)) && (HeadOf(e) != 0 ==> !BareDir(g, v, ChOf(sh, HeadOf(e))))
    ensures !Erasable(g, v, sh, d, idx)
  {
    assert DirOk(g, v, sh, d);
    assert SlotOk(g, v, sh, d, idx);
    hide WellFormed, DirOk;
    var h := HeadOf(EntOf(g, v, sh, d, idx));
    if h != 0 {
      ChOfOk(g, v, sh, h);
      var j :| 2 <= j && InDir(g, ChOf(sh, h), j) && Live(Ent(g, v, ChOf(sh, h), j));
      assert Live(EntOf(g, v, sh, h, j));
    }
  }

  lemma ErasableIf(g: Geo, v: Vol, sh: Shape, d: nat, idx: nat)
    requires WellFormed(g, v, sh) && IsDir(sh, d) && InDir(g, ChOf(sh, d), idx) && Live(EntOf(g, v, sh, d, idx))
    requires var e := EntOf(g, v, sh, d, idx);
             HasDirAttr(e) ==> IsDir(sh, HeadOf(e)) && (HeadOf(e) != 0 ==> BareDir(g, v, ChOf(sh, HeadOf(e))))
    ensures !IsDot(d, idx) ==> Erasable(g, v, sh, d, idx)
  {
    assert DirOk(g, v, sh, d);
    assert SlotOk(g, v, sh, d, idx);
    hide WellFormed, DirOk;
    var h := HeadOf(EntOf(g, v, sh, d, idx));
    if HasDirAttr(EntOf(g, v, sh, d, idx)) && h != 0 {
      ChOfOk(g, v, sh, h);
    }
  }

  /** The same for a dot entry, by what the scan said. */
  lemma DotScanned(g: Geo, v: Vol, sh: Shape, d: nat, idx: nat, empty: bool)
    requires WellFormed(g, v, sh) && IsDir(sh, d) && InDir(g, ChOf(sh, d), idx)
    requires var h := HeadOf(EntOf(g, v, sh, d, idx));
             && IsDir(sh, h) && (h != 0 ==> (empty <==> BareDir(g, v, ChOf(sh, h))))
             && (h == 0 ==> (empty <==> RawEmpty(g, v, 2)))
    ensures IsDot(d, idx) ==> (empty <==> DotPasses(g, v, sh, d, idx))
  {
    hide WellFormed, BareDir, RawEmpty;
    if IsDot(d, idx) { DotIs(g, v, sh, d, idx); }
  }

  lemma ErasedVolIs(g: Geo, v: Vol, sh: Shape, d: nat, idx: nat, v2: Vol)
    requires Base(g, v, sh) && IsDir(sh, d) && InDir(g, ChOf(sh, d), idx) && DirChain(g, ChOf(sh, d))
    requires var h := HeadOf(EntOf(g, v, sh, d, idx)); (h == 0 || h in sh.nodes) && h < g.clusters + 2
    requires var v1 := v.(fat := FreeFrom(v.fat, HeadOf(EntOf(g, v, sh, d, idx))));
             v2 == PutEnt(g, v1, ChOf(sh, d), idx, Erased(Ent(g, v1, ChOf(sh, d), idx)))
    ensures v2 == ErasedVol(g, v, sh, d, idx)
  {
  }

  /** When the entry of a directory itself, or that of its parent, passes for an empty directory. */
  ghost predicate DotPasses(g: Geo, v: Vol, sh: Shape, d: nat, idx: nat)
    requires Base(g, v, sh) && IsDir(sh, d)
  {
    if idx == 0 then BareDir(g, v, ChOf(sh, d)) else RawEmpty(g, v, 2)
  }

  lemma DotIs(g: Geo, v: Vol, sh: Shape, d: nat, idx: nat)
    requires WellFormed(g, v, sh) && IsDir(sh, d) && InDir(g, ChOf(sh, d), idx) && IsDot(d, idx)
    ensures var e := EntOf(g, v, sh, d, idx);
            Live(e) && HasDirAttr(e) && DotName(NameOf(e), idx) && HeadOf(e) == if idx == 0 then d else 0
  {
    assert DirOk(g, v, sh, d);
    assert SlotOk(g, v, sh, d, idx);
  }

  lemma DotIsDir(g: Geo, v: Vol, sh: Shape, d: nat, idx: nat)
    requires WellFormed(g, v, sh) && IsDir(sh, d) && InDir(g, ChOf(sh, d), idx)
    ensures !HasDirAttr(EntOf(g, v, sh, d, idx)) ==> !IsDot(d, idx)
  {
    hide WellFormed;
    if IsDot(d, idx) { DotIs(g, v, sh, d, idx); }
  }

  /** Deleting the live entry at (d, idx). A dot entry is let through too. */
  ghost predicate DeletedAt(g: Geo, v: Vol, sh: Shape, v2: Vol, sh2: Shape, d: nat, idx: nat, r: int)
    requires Base(g, v, sh) && IsDir(sh, d)
  {
    && InDir(g, ChOf(sh, d), idx)
    && var e := EntOf(g, v, sh, d, idx);
       && (HeadOf(e) == 0 || HeadOf(e) in sh.nodes)
       && (r == 0 <==> if IsDot(d, idx) then DotPasses(g, v, sh, d, idx) else Erasable(g, v, sh, d, idx))
       && (r == 0 ==> v2 == ErasedVol(g, v, sh, d, idx) && sh2 == if IsDot(d, idx) then sh else ErasedShape(sh, e))
       && (r != 0 ==> v2 == v && sh2 == sh)
  }

  lemma DeleteRefused(g: Geo, v: Vol, sh: Shape, d: nat, idx: nat)
    requires Base(g, v, sh) && IsDir(sh, d) && InDir(g, ChOf(sh, d), idx) && !Erasable(g, v, sh, d, idx)
    requires var e := EntOf(g, v, sh, d, idx); HeadOf(e) == 0 || HeadOf(e) in sh.nodes
    requires IsDot(d, idx) ==> !DotPasses(g, v, sh, d, idx)
    ensures DeletedAt(g, v, sh, v, sh, d, idx, -1)
  {
    hide Base, Erasable, ErasedVol, DotPasses;
  }

  lemma DeleteDone(g: Geo, v: Vol, sh: Shape, v2: Vol, sh2: Shape, d: nat, idx: nat)
    requires Base(g, v, sh) && IsDir(sh, d) && InDir(g, ChOf(sh, d), idx)
    requires var e := EntOf(g, v, sh, d, idx);
             && (HeadOf(e) == 0 || HeadOf(e) in sh.nodes)
             && (if IsDot(d, idx) then DotPasses(g, v, sh, d, idx) else Erasable(g, v, sh, d, idx))
             && v2 == ErasedVol(g, v, sh, d, idx) && sh2 == if IsDot(d, idx) then sh else ErasedShape(sh, e)
    ensures DeletedAt(g, v, sh, v2, sh2, d, idx, 0)
  {
    hide Base, Erasable, ErasedVol, ErasedShape, DotPasses;
  }

  /** The possible outcomes of a delete. */
  ghost predicate DeleteOutcome(g: Geo, v: Vol, sh: Shape, v2: Vol, sh2: Shape, dir: CString, name: Name, r: int)
    requires Base(g, v, sh)
  {
    var d := Resolve(g, v, sh, dir);
    if d.None? then r == -1 && v2 == v && sh2 == sh
    else
      && IsDir(sh, d.value)
      && var i := Find(g, v, sh, d.value, name);
         if i.None? then r == -1 && v2 == v && sh2 == sh
         else DeletedAt(g, v, sh, v2, sh2, d.value, i.value, r)
  }

  /** A file by path: the map the operations update. */
  ghost function Lookup(g: Geo, v: Vol, sh: Shape, dir: CString, name: Name): Option<seq<byte>>
    requires WellFormed(g, v, sh)
  {
    var d := Resolve(g, v, sh, dir);
    if d.None? then None
    else
      ResolvedIsDir(g, v, sh, dir);
      File(g, v, sh, d.value, name)
  }

  lemma ResolvedIsDir(g: Geo, v: Vol, sh: Shape, dir: CString)
    requires WellFormed(g, v, sh) && Resolve(g, v, sh, dir).Some?
    ensures IsDir(sh, Resolve(g, v, sh, dir).value)
  {
    if dir != [] {
      SubDirIsDir(g, v, sh, To83Spec(dir));
    }
  }

  lemma FoundIsLive(l: Layout, v: Vol, sh: Shape, d: nat, name: Name, idx: nat, e: Entry, lba: nat)
    requires Base(l.g, v, sh) && IsDir(sh, d) && Find(l.g, v, sh, d, name) == Some(idx)
    requires Located(l, v, sh, d, idx, e, lba)
    ensures Live(e) && NameOf(e) == name && InDir(l.g, ChOf(sh, d), idx) && e == EntOf(l.g, v, sh, d, idx)
    ensures File(l.g, v, sh, d, name) == if HasDirAttr(e) then None else Some(Contents(l.g, v, sh, e))
  {
  }

  ghost function FileChain(sh: Shape, e: Entry): seq<nat> {
    if SizeOf(e) > 0 && HeadOf(e) in sh.nodes then sh.nodes[HeadOf(e)].chain else []
  }

  lemma FileChainFacts(g: Geo, v: Vol, sh: Shape, d: nat, idx: nat)
    requires WellFormed(g, v, sh) && IsDir(sh, d) && InDir(g, ChOf(sh, d), idx)
    requires Live(EntOf(g, v, sh, d, idx)) && !HasDirAttr(EntOf(g, v, sh, d, idx))
    ensures var e := EntOf(g, v, sh, d, idx);
            var ch := FileChain(sh, e);
            && SizeOf(e) <= |ch| * ClusterSize(g)
            && (ch != [] ==> IsChain(v.fat, ch) && Distinct(ch) && ch[0] == HeadOf(e))
  {
    var e := EntOf(g, v, sh, d, idx);
    assert DirOk(g, v, sh, d);
    assert SlotOk(g, v, sh, d, idx);
    if SizeOf(e) > 0 {
      assert NodeChainOk(v.fat, sh, HeadOf(e));
      CeilDivIsLeast(SizeOf(e), ClusterSize(g), Need(g, SizeOf(e)));
    }
  }

  lemma ContentsAre(g: Geo, v: Vol, sh: Shape, e: Entry, ch: seq<nat>)
    requires Base(g, v, sh) && ch == FileChain(sh, e) && forall i | 0 <= i < |ch| :: ch[i] < |v.data|
    requires |ChainBytes(v.data, ch)| >= SizeOf(e)
    ensures Contents(g, v, sh, e) == ChainBytes(v.data, ch)[..SizeOf(e)]
  {
  }

  /** `b` is `b0` and then the first `n` bytes of the first `s` sectors. */
  ghost predicate Got(b: seq<byte>, b0: seq<byte>, secs: seq<Sector>, s: nat, n: nat) {
    s <= |secs| && n <= 512 * s && b == b0 + Flat(secs[..s])[..n]
  }

  lemma GotNone(b: seq<byte>, secs: seq<Sector>)
    ensures Got(b, b, secs, 0, 0)
  {
  }

  lemma GotOne(b: seq<byte>, b2: seq<byte>, b0: seq<byte>, secs: seq<Sector>, s: nat, n: nat, want: nat)
    requires s < |secs| && want <= 512 && n == 512 * s && Got(b, b0, secs, s, n)
    requires b2 == b + secs[s][..want]
    ensures Got(b2, b0, secs, s + 1, n + want)
  {
    assert secs[..s + 1][..s] == secs[..s];
    assert Flat(secs[..s + 1]) == Flat(secs[..s]) + secs[s];
    assert Flat(secs[..s + 1])[..n + want] == Flat(secs[..s])[..n] + secs[s][..want];
  }

  lemma GotAll(b: seq<byte>, b0: seq<byte>, secs: seq<Sector>, s: nat, n: nat)
    requires Got(b, b0, secs, s, n)
    ensures n <= |Flat(secs)| && b == b0 + Flat(secs)[..n]
  {
    FlatPrefix(secs, s);
  }

  /** The first `i` clusters of `ch` gave `b`, the whole size or all they hold. */
  ghost predicate ReadSoFar(g: Geo, d: seq<seq<Sector>>, ch: seq<nat>, i: nat, size: nat, done: nat, b: seq<byte>) {
    && i <= |ch| && DataShape(g, d) && (forall k | 0 <= k < |ch| :: 2 <= ch[k] < |d|)
    && var p := ChainBytes(d, ch[..i]);
       done == Min(|p|, size) && b == p[..done]
  }

  lemma ReadEnds(g: Geo, d: seq<seq<Sector>>, ch: seq<nat>, i: nat, size: nat, done: nat, b: seq<byte>)
    requires ReadSoFar(g, d, ch, i, size, done, b) && size <= |ch| * ClusterSize(g) && done < size
    ensures i < |ch|
  {
    if i == |ch| {
      assert ch[..i] == ch;
      ChainBytesLength(g, d, ch);
    }
  }

  lemma ReadStep(g: Geo, d: seq<seq<Sector>>, ch: seq<nat>, i: nat, size: nat, done0: nat, b0: seq<byte>, done: nat,
                 b: seq<byte>)
    requires ReadSoFar(g, d, ch, i, size, done0, b0) && i < |ch| && done0 < size
    requires done == Min(size, done0 + 512 * g.spc) && b == b0 + Flat(d[ch[i]])[..done - done0]
    ensures ReadSoFar(g, d, ch, i + 1, size, done, b)
  {
    var p, f := ChainBytes(d, ch[..i]), Flat(d[ch[i]]);
    assert ch[..i + 1][..i] == ch[..i] && ch[..i + 1][i] == ch[i];
    assert ChainBytes(d, ch[..i + 1]) == p + f;
  }

  lemma ReadAll(g: Geo, d: seq<seq<Sector>>, ch: seq<nat>, i: nat, size: nat, done: nat, b: seq<byte>)
    requires ReadSoFar(g, d, ch, i, size, done, b) && done == size
    ensures |ChainBytes(d, ch)| >= size && b == ChainBytes(d, ch)[..size]
  {
    ChainBytesPrefix(d, ch, i);
  }

  /** The possible outcomes of a write. */
  ghost predicate WriteOutcome(g: Geo, v: Vol, sh: Shape, v2: Vol, sh2: Shape, dir: CString, name: Name,
                               data: seq<byte>, r: int)
    requires Base(g, v, sh)
  {
    var d := Resolve(g, v, sh, dir);
    if d.None? then r == -1 && v2 == v && sh2 == sh
    else
      && IsDir(sh, d.value)
      && var i := Find(g, v, sh, d.value, name);
         if i.None? then
           exists grew :: CreateOutcome(g, v, sh, v2, sh2, d.value, name, data, r, grew)
         else
           var e := EntOf(g, v, sh, d.value, i.value);
           if HasDirAttr(e) then r == -1 && v2 == v && sh2 == sh
           else ReplaceOutcome(g, v, sh, v2, sh2, d.value, e, data, r)
  }

  ghost function Resolve(g: Geo, v: Vol, sh: Shape, dir: CString): Option<nat>
    requires Base(g, v, sh)
  {
    if dir == [] then Some(0) else SubDir(g, v, sh, To83Spec(dir))
  }

  /** When creating a file of this size succeeds. */
  ghost predicate CreateFits(g: Geo, v: Vol, sh: Shape, d: nat, size: nat)
    requires Base(g, v, sh) && IsDir(sh, d)
  {
    if HasRoom(g, v, sh, d) then Need(g, size) <= |Free(v.fat)|
    else d != 0 && Need(g, size) + 1 <= |Free(v.fat)|
  }

  /** After a replacement that ran out of space: the old chain is free, nothing else changed. */
  ghost predicate LostChain(v: Vol, v2: Vol, h: nat) {
    InRange(v.fat) && (h < |v.fat| || h >= STOP) && v2 == v.(fat := FreeFrom(v.fat, h))
  }

  lemma StoredFacts(g: Geo, v: Vol, w: Vol, bytes: seq<byte>, ch: seq<nat>)
    requires Stored(g, v, w, bytes, ch)
    ensures |Free(w.fat)| == |Free(v.fat)| - Need(g, |bytes|)
    ensures (ch != [] ==> ch[0] < TWO16) && 0 < TWO16 && |bytes| < TWO32 && VolShape(g, w) && GeoOk(g)
  {
    StoredCount(g, v, w, bytes, ch);
  }

  lemma FileEntryIs(e: Entry, name: Name, ch: seq<nat>, size: nat)
    requires size < TWO32 && (ch != [] ==> ch[0] < TWO16)
    ensures FileEntry(e, name, ch, size) == Committed(e, name, 0, if ch == [] then 0 else ch[0], size)
  {
  }

  lemma GrewCount(g: Geo, v: Vol, sh: Shape, v2: Vol, sh2: Shape, d: nat, nc: nat)
    requires GrewBy(g, v, sh, v2, sh2, d, nc)
    ensures |Free(v2.fat)| == |Free(v.fat)| - 1
  {
    hide Grown, DataKept;
    assert NodeChainOk(v.fat, sh, d);
    OwnedIsUsed(v.fat, sh, d, |ChOf(sh, d)| - 1);
    assert Free(v2.fat) == Free(v.fat) - {nc};
  }

  lemma GrewFind(g: Geo, v: Vol, sh: Shape, v2: Vol, sh2: Shape, d: nat, nc: nat, name: Name)
    requires WellFormed(g, v, sh) && WellFormed(g, v2, sh2) && IsDir(sh, d) && IsDir(sh2, d)
    requires Grown(g, v, sh, v2, sh2, d, nc) && DataKept(v, sh, v2, sh2)
    ensures Find(g, v2, sh2, d, name) == Find(g, v, sh, d, name)
  {
    DirIsFine(g, v, sh, d);
    hide WellFormed, Base, Grown, DataKept, MatchesKept, TableOk;
    GrowKeepsFile(g, v, sh, v2, sh2, d, nc, d, name);
    FindKept(g, v, sh, v2, sh2, d, name);
  }

  /** One more cluster linked behind the last of `ch`. */
  lemma TakeStep(g: Geo, v0: Vol, v: Vol, ch: seq<nat>, nc: nat)
    requires GeoOk(g) && VolShape(g, v0) && FreeClusters(g, v0, ch) && v == v0.(fat := Link(v0.fat, ch))
    requires 2 <= nc < g.clusters + 2 && v.fat[nc] == 0
    ensures FreeClusters(g, v0, ch + [nc]) && nc < STOP <= TWO16 && |v.fat| == g.clusters + 2
    ensures ch == [] ==> v0.(fat := Link(v0.fat, ch + [nc])) == v.(fat := v.fat[nc := END_MARK])
    ensures ch != [] ==>
              var last := ch[|ch| - 1];
              2 <= last < g.clusters + 2 && v0.(fat := Link(v0.fat, ch + [nc]))
                  == v.(fat := v.fat[nc := END_MARK][last := nc])
  {
    LinkMore(v0.fat, ch, nc);
    forall i | 0 <= i < |ch + [nc]| ensures v0.fat[(ch + [nc])[i]] == 0 {
      if i < |ch| { assert (ch + [nc])[i] == ch[i]; }
    }
  }

  lemma NothingTaken(g: Geo, v0: Vol)
    requires GeoOk(g) && VolShape(g, v0)
    ensures FreeClusters(g, v0, []) && v0 == v0.(fat := Link(v0.fat, []))
  {
  }

  lemma TakenFit(g: Geo, v0: Vol, ch: seq<nat>)
    requires VolShape(g, v0) && FreeClusters(g, v0, ch)
    ensures |ch| <= |Free(v0.fat)|
  {
    FreeCountAfterLinking(v0.fat, ch);
  }

  lemma NoneLeft(g: Geo, v0: Vol, v: Vol, ch: seq<nat>)
    requires VolShape(g, v0) && FreeClusters(g, v0, ch) && v == v0.(fat := Link(v0.fat, ch)) && Free(v.fat) == {}
    ensures |Free(v0.fat)| == |ch|
  {
    FreeCountAfterLinking(v0.fat, ch);
  }

  /** What DirSlot delivers. */
  ghost predicate SlotGot(l: Layout, v: Vol, sh: Shape, v1: Vol, sh1: Shape, d: nat,
                          ok: bool, e: Entry, lba: nat, idx: nat, grew: bool, nc: nat)
    requires Base(l.g, v, sh) && IsDir(sh, d)
  {
    && WellFormed(l.g, v1, sh1) && IsDir(sh1, d)
    && (ok <==> HasRoom(l.g, v, sh, d) || (d != 0 && Free(v.fat) != {}))
    && (grew <==> ok && !HasRoom(l.g, v, sh, d))
    && (!grew ==> v1 == v && sh1 == sh)
    && (grew ==> GrewBy(l.g, v, sh, v1, sh1, d, nc))
    && (ok ==> Located(l, v1, sh1, d, idx, e, lba) && Vacant(l.g, v1, sh1, d, idx))
  }

  lemma SlotGotIntro(l: Layout, v: Vol, sh: Shape, v1: Vol, sh1: Shape, d: nat,
                     ok: bool, e: Entry, lba: nat, idx: nat, grew: bool, nc: nat)
    requires Base(l.g, v, sh) && IsDir(sh, d)
    requires WellFormed(l.g, v1, sh1) && IsDir(sh1, d)
    requires ok <==> HasRoom(l.g, v, sh, d) || (d != 0 && Free(v.fat) != {})
    requires grew <==> ok && !HasRoom(l.g, v, sh, d)
    requires !grew ==> v1 == v && sh1 == sh
    requires grew ==> GrewBy(l.g, v, sh, v1, sh1, d, nc)
    requires ok ==> Located(l, v1, sh1, d, idx, e, lba) && Vacant(l.g, v1, sh1, d, idx)
    ensures SlotGot(l, v, sh, v1, sh1, d, ok, e, lba, idx, grew, nc)
  {
    hide WellFormed, Base, HasRoom, Free, Located, Vacant, GrewBy;
  }

  /** Same files, same lookup, one cluster fewer if the directory grew. */
  lemma SlotGotFacts(l: Layout, v: Vol, sh: Shape, v1: Vol, sh1: Shape, d: nat,
                     ok: bool, e: Entry, lba: nat, idx: nat, grew: bool, nc: nat, name: Name)
    requires WellFormed(l.g, v, sh) && IsDir(sh, d) && SlotGot(l, v, sh, v1, sh1, d, ok, e, lba, idx, grew, nc)
    ensures FilesSame(l.g, v, sh, v1, sh1)
    ensures Find(l.g, v1, sh1, d, name) == Find(l.g, v, sh, d, name)
    ensures |Free(v1.fat)| == |Free(v.fat)| - if grew then 1 else 0
  {
    hide WellFormed, Base, HasRoom, Free, Located, Vacant, FilesSame, Find, Grown, DataKept, Append;
    if grew {
      GrewCount(l.g, v, sh, v1, sh1, d, nc);
      GrewFind(l.g, v, sh, v1, sh1, d, nc, name);
      GrowKeepsFiles(l.g, v, sh, v1, sh1, d, nc);
    } else {
      SameRefl(l.g, v, sh);
    }
  }

  /** The possible outcomes of creating a file. */
  ghost predicate CreateOutcome(g: Geo, v: Vol, sh: Shape, v2: Vol, sh2: Shape, d: nat, name: Name, data: seq<byte>,
                                r: int, grew: bool)
    requires Base(g, v, sh) && IsDir(sh, d)
  {
    && (r == 0 <==> CreateFits(g, v, sh, d, |data|))
    && (grew <==> d != 0 && !HasRoom(g, v, sh, d) && Free(v.fat) != {})
    && |Free(v2.fat)| == |Free(v.fat)| - (if grew then 1 else 0) - (if r == 0 then Need(g, |data|) else 0)
    && (r == 0 && LiveName(name) ==> FileSet(g, v, sh, v2, sh2, d, name, Some(data)))
    && (r == 0 && name[0] == DELETED ==> Lost(g, v, sh, v2, sh2, d, |data|))
    && (r != 0 ==> WellFormed(g, v2, sh2) && FilesSame(g, v, sh, v2, sh2))
    && (r != 0 && !grew ==> v2 == v && sh2 == sh)
  }

  lemma CreateFails(l: Layout, v: Vol, sh: Shape, v1: Vol, sh1: Shape, d: nat,
                    ok: bool, e: Entry, lba: nat, idx: nat, grew: bool, nc: nat, name: Name, data: seq<byte>)
    requires WellFormed(l.g, v, sh) && IsDir(sh, d) && SlotGot(l, v, sh, v1, sh1, d, ok, e, lba, idx, grew, nc)
    requires ok ==> Need(l.g, |data|) > |Free(v1.fat)|
    ensures CreateOutcome(l.g, v, sh, v1, sh1, d, name, data, -1, grew)
  {
    hide *;
    SlotGotFacts(l, v, sh, v1, sh1, d, ok, e, lba, idx, grew, nc, name);
    NoFit(l, v, sh, v1, sh1, d, ok, e, lba, idx, grew, nc, name, data);
  }

  lemma NoFit(l: Layout, v: Vol, sh: Shape, v1: Vol, sh1: Shape, d: nat,
              ok: bool, e: Entry, lba: nat, idx: nat, grew: bool, nc: nat, name: Name, data: seq<byte>)
    requires Base(l.g, v, sh) && IsDir(sh, d) && SlotGot(l, v, sh, v1, sh1, d, ok, e, lba, idx, grew, nc)
    requires ok ==> Need(l.g, |data|) > |Free(v1.fat)|
    requires FilesSame(l.g, v, sh, v1, sh1) && |Free(v1.fat)| == |Free(v.fat)| - if grew then 1 else 0
    ensures CreateOutcome(l.g, v, sh, v1, sh1, d, name, data, -1, grew)
  {
    hide WellFormed, Base, HasRoom, Located, Vacant, FilesSame, Need, Grown, DataKept, Append, FileSet, Lost;
    NonEmptyCount(Free(v.fat));
  }

  lemma NonEmptyCount(s: set<nat>)
    ensures s == {} <==> |s| == 0
  {
  }

  lemma SlotGotPlace(l: Layout, v: Vol, sh: Shape, v1: Vol, sh1: Shape, d: nat,
                     e: Entry, lba: nat, idx: nat, grew: bool, nc: nat)
    requires Base(l.g, v, sh) && IsDir(sh, d) && SlotGot(l, v, sh, v1, sh1, d, true, e, lba, idx, grew, nc)
    ensures WellFormed(l.g, v1, sh1) && IsDir(sh1, d) && Located(l, v1, sh1, d, idx, e, lba)
    ensures Vacant(l.g, v1, sh1, d, idx)
    ensures HasRoom(l.g, v, sh, d) || (d != 0 && Free(v.fat) != {})
    ensures grew <==> !HasRoom(l.g, v, sh, d)
  {
    hide WellFormed, Base, HasRoom, Located, Vacant, GrewBy;
  }

  lemma LocatedPlace(l: Layout, v: Vol, sh: Shape, d: nat, idx: nat, e: Entry, lba: nat)
    requires Base(l.g, v, sh) && IsDir(sh, d) && Located(l, v, sh, d, idx, e, lba)
    ensures DirChain(l.g, ChOf(sh, d)) && InDir(l.g, ChOf(sh, d), idx) && GeoOk(l.g)
    ensures e == EntOf(l.g, v, sh, d, idx) && lba == LbaOf(l, SlotLoc(l.g, ChOf(sh, d), idx))
  {
    hide ChainsOk, VolShape;
  }

  lemma CreateSucceeds(l: Layout, v: Vol, sh: Shape, v1: Vol, sh1: Shape, d: nat,
                       e: Entry, lba: nat, idx: nat, grew: bool, nc: nat, name: Name, data: seq<byte>, ch: seq<nat>,
                       w: Vol)
    requires WellFormed(l.g, v, sh) && IsDir(sh, d) && SlotGot(l, v, sh, v1, sh1, d, true, e, lba, idx, grew, nc)
    requires Find(l.g, v, sh, d, name) == None && Stored(l.g, v1, w, data, ch) && Need(l.g, |data|) <= |Free(v1.fat)|
    requires (ch != [] ==> ch[0] < TWO16) && |data| < TWO32 && VolShape(l.g, w)
    requires WellFormed(l.g, v1, sh1) && IsDir(sh1, d) && DirChain(l.g, ChOf(sh1, d)) && InDir(l.g, ChOf(sh1, d), idx)
    requires e == EntOf(l.g, v1, sh1, d, idx) && Vacant(l.g, v1, sh1, d, idx) && Ent(l.g, w, ChOf(sh1, d), idx) == e
    ensures var e2 := FileEntry(e, name, ch, |data|);
            CreateOutcome(l.g, v, sh, PutEnt(l.g, w, ChOf(sh1, d), idx, e2), CommittedShape(sh1, d, idx, e2, ch), d,
                name, data, 0, grew)
  {
    hide *;
    SlotGotFacts(l, v, sh, v1, sh1, d, true, e, lba, idx, grew, nc, name);
    SlotGotPlace(l, v, sh, v1, sh1, d, e, lba, idx, grew, nc);
    StoredFacts(l.g, v1, w, data, ch);
    var e2 := FileEntry(e, name, ch, |data|);
    var v2, sh2 := PutEnt(l.g, w, ChOf(sh1, d), idx, e2), CommittedShape(sh1, d, idx, e2, ch);
    if LiveName(name) {
      CreateDone(l.g, v1, sh1, d, idx, name, data, ch, w);
      SameThenSet(l.g, v, sh, v1, sh1, v2, sh2, d, name, Some(data));
    }
    if name[0] == DELETED {
      LostFile(l.g, v1, sh1, d, idx, name, data, ch, w);
      SameThenLost(l.g, v, sh, v1, sh1, v2, sh2, d, |data|);
    }
    CreateFit(l.g, v, sh, v2, sh2, d, name, data, grew);
  }

  lemma CreateFit(g: Geo, v: Vol, sh: Shape, v2: Vol, sh2: Shape, d: nat, name: Name, data: seq<byte>, grew: bool)
    requires Base(g, v, sh) && IsDir(sh, d)
    requires HasRoom(g, v, sh, d) || (d != 0 && Free(v.fat) != {})
    requires grew <==> !HasRoom(g, v, sh, d)
    requires Need(g, |data|) <= |Free(v.fat)| - if grew then 1 else 0
    requires |Free(v2.fat)| == |Free(v.fat)| - (if grew then 1 else 0) - Need(g, |data|)
    requires LiveName(name) ==> FileSet(g, v, sh, v2, sh2, d, name, Some(data))
    requires name[0] == DELETED ==> Lost(g, v, sh, v2, sh2, d, |data|)
    ensures CreateOutcome(g, v, sh, v2, sh2, d, name, data, 0, grew)
  {
    hide Base, HasRoom, Need, Free, FileSet, Lost;
  }

  /** A file committed under a name that reads as deleted. */
  lemma LostFile(g: Geo, v: Vol, sh: Shape, d: nat, idx: nat, name: Name, data: seq<byte>, ch: seq<nat>, w: Vol)
    requires WellFormed(g, v, sh) && IsDir(sh, d) && Vacant(g, v, sh, d, idx) && name[0] == DELETED
    requires DirChain(g, ChOf(sh, d)) && Stored(g, v, w, data, ch) && (ch != [] ==> ch[0] < TWO16)
    ensures var e := FileEntry(EntOf(g, v, sh, d, idx), name, ch, |data|);
            Lost(g, v, sh, PutEnt(g, w, ChOf(sh, d), idx, e), CommittedShape(sh, d, idx, e, ch), d, |data|)
  {
    var e := FileEntry(EntOf(g, v, sh, d, idx), name, ch, |data|);
    LostEntry(sh, d, idx, EntOf(g, v, sh, d, idx), name, ch, |data|);
    StoredParts(g, v, w, data, ch);
    hide *;
    LostDone(g, v, sh, d, idx, e, ch, w);
    LostCount(g, v, sh, PutEnt(g, w, ChOf(sh, d), idx, e), LostShape(sh, d, idx, ch), d, |ch|, |data|);
  }

  lemma LostEntry(sh: Shape, d: nat, idx: nat, was: Entry, name: Name, ch: seq<nat>, size: nat)
    requires name[0] == DELETED && size < TWO32 && (ch != [] ==> ch[0] < TWO16)
    ensures var e := FileEntry(was, name, ch, size);
            e[0] == DELETED && CommittedShape(sh, d, idx, e, ch) == LostShape(sh, d, idx, ch)
  {
    var e := FileEntry(was, name, ch, size);
    assert e[0] == NameOf(e)[0] && !HasDirAttr(e);
  }

  lemma StoredParts(g: Geo, v: Vol, w: Vol, data: seq<byte>, ch: seq<nat>)
    requires Stored(g, v, w, data, ch)
    ensures VolShape(g, v) && VolShape(g, w) && FreeClusters(g, v, ch) && w.root == v.root && w.fat == Link(v.fat, ch)
    ensures GeoOk(g) && DataBut(v.data, w.data, ch) && (|ch| == 0 <==> |data| == 0)
  {
    hide VolShape, FreeClusters, DataBut, Need;
    NeedZero(g, |data|);
  }

  lemma LostCount(g: Geo, v: Vol, sh: Shape, v2: Vol, sh2: Shape, d: nat, a: nat, b: nat)
    requires Lost(g, v, sh, v2, sh2, d, a) && (a == 0 <==> b == 0)
    ensures Lost(g, v, sh, v2, sh2, d, b)
  {
    hide FilesSame, Orphan, WellFormed;
  }

  /** The possible outcomes of replacing a file. */
  ghost predicate ReplaceOutcome(g: Geo, v: Vol, sh: Shape, v2: Vol, sh2: Shape, d: nat, e: Entry, data: seq<byte>,
                                 r: int)
    requires Base(g, v, sh) && IsDir(sh, d)
  {
    && (r == 0 <==> Need(g, |data|) <= |Free(v.fat)| + ChainLen(sh, e))
    && (r == 0 ==>
          && FileSet(g, v, sh, v2, sh2, d, NameOf(e), Some(data))
          && |Free(v2.fat)| == |Free(v.fat)| + ChainLen(sh, e) - Need(g, |data|))
    && (r != 0 ==> sh2 == sh && LostChain(v, v2, HeadOf(e)))
  }

  lemma ReplaceFails(g: Geo, v: Vol, sh: Shape, v1: Vol, d: nat, e: Entry, data: seq<byte>)
    requires Base(g, v, sh) && IsDir(sh, d) && LostChain(v, v1, HeadOf(e))
    requires |Free(v1.fat)| == |Free(v.fat)| + ChainLen(sh, e) && Need(g, |data|) > |Free(v1.fat)|
    ensures ReplaceOutcome(g, v, sh, v1, sh, d, e, data, -1)
  {
    hide Base, Need, Free, FileSet, LostChain, ChainLen;
  }

  lemma ReplaceFit(g: Geo, v: Vol, sh: Shape, v2: Vol, sh2: Shape, d: nat, e: Entry, data: seq<byte>)
    requires Base(g, v, sh) && IsDir(sh, d)
    requires Need(g, |data|) <= |Free(v.fat)| + ChainLen(sh, e)
    requires |Free(v2.fat)| == |Free(v.fat)| + ChainLen(sh, e) - Need(g, |data|)
    requires FileSet(g, v, sh, v2, sh2, d, NameOf(e), Some(data))
    ensures ReplaceOutcome(g, v, sh, v2, sh2, d, e, data, 0)
  {
    hide Base, Need, Free, FileSet, LostChain, ChainLen;
  }

  lemma ReplaceSucceeds(l: Layout, v: Vol, sh: Shape, d: nat, e: Entry, idx: nat, data: seq<byte>, ch: seq<nat>,
                        v1: Vol, w: Vol)
    requires WellFormed(l.g, v, sh) && IsDir(sh, d) && Live(e) && !HasDirAttr(e)
    requires DirChain(l.g, ChOf(sh, d)) && InDir(l.g, ChOf(sh, d), idx) && e == EntOf(l.g, v, sh, d, idx)
    requires LostChain(v, v1, HeadOf(e)) && Stored(l.g, v1, w, data, ch) && Need(l.g, |data|) <= |Free(v1.fat)|
    requires |Free(v1.fat)| == |Free(v.fat)| + ChainLen(sh, e)
    requires (ch != [] ==> ch[0] < TWO16) && |data| < TWO32 && VolShape(l.g, w) && GeoOk(l.g)
    ensures Ent(l.g, w, ChOf(sh, d), idx) == e
    ensures var e2 := FileEntry(e, NameOf(e), ch, |data|);
            ReplaceOutcome(l.g, v, sh, PutEnt(l.g, w, ChOf(sh, d), idx, e2),
                CommittedShape(ErasedShape(sh, e), d, idx, e2, ch), d, e, data, 0)
  {
    hide *;
    StoredFacts(l.g, v1, w, data, ch);
    FileNotDot(l.g, v, sh, d, idx);
    LostIs(v, v1, HeadOf(e));
    ReplaceDone(l.g, v, sh, d, idx, data, ch, w);
    var e2 := FileEntry(e, NameOf(e), ch, |data|);
    ReplaceFit(l.g, v, sh, PutEnt(l.g, w, ChOf(sh, d), idx, e2), CommittedShape(ErasedShape(sh, e), d, idx, e2, ch), d,
        e, data);
  }

  lemma LostIntro(v: Vol, v1: Vol, h: nat)
    requires InRange(v.fat) && (h < |v.fat| || h >= STOP) && v1 == v.(fat := FreeFrom(v.fat, h))
    ensures LostChain(v, v1, h)
  {
  }

  lemma StoredEntry(g: Geo, v: Vol, sh: Shape, w: Vol, data: seq<byte>, ch: seq<nat>, d: nat, idx: nat)
    requires Base(g, v, sh) && IsDir(sh, d) && Stored(g, v, w, data, ch) && DirChain(g, ChOf(sh, d))
    requires InDir(g, ChOf(sh, d), idx)
    ensures VolShape(g, w) && Ent(g, w, ChOf(sh, d), idx) == EntOf(g, v, sh, d, idx)
  {
    DirNotFree(g, v, sh, d, ch);
    StoredSlot(g, v, w, ch, ChOf(sh, d), idx);
  }

  lemma LostIs(v: Vol, v1: Vol, h: nat)
    requires LostChain(v, v1, h)
    ensures InRange(v.fat) && (h < |v.fat| || h >= STOP) && v1 == v.(fat := FreeFrom(v.fat, h))
  {
  }

  /** After freeing the chain of a file, what is free. */
  lemma FreedFacts(g: Geo, v: Vol, sh: Shape, d: nat, idx: nat)
    requires WellFormed(g, v, sh) && IsDir(sh, d) && InDir(g, ChOf(sh, d), idx)
    requires Live(EntOf(g, v, sh, d, idx)) && !HasDirAttr(EntOf(g, v, sh, d, idx))
    ensures var e := EntOf(g, v, sh, d, idx);
            && (HeadOf(e) < g.clusters + 2) && InRange(v.fat) && |v.fat| == g.clusters + 2
            && |Free(FreeFrom(v.fat, HeadOf(e)))| == |Free(v.fat)| + ChainLen(sh, e)
  {
    FileNotDot(g, v, sh, d, idx);
    hide WellFormed;
    FreedCount(g, v, sh, HeadOf(EntOf(g, v, sh, d, idx)));
  }

  /** `t` is `s` with the fields of the entry at `o` set, and nothing else changed. */
  ghost predicate EntryPatched(s: seq<byte>, t: seq<byte>, o: nat, name: Name, attr: byte, head: nat, size: nat)
    requires head < TWO16 && size < TWO32
  {
    && |s| == |t| == 512 && o + 32 <= 512
    && forall k | 0 <= k < 512 :: t[k] ==
         if k < o || k >= o + 32 then s[k]
         else if k < o + 11 then name[k - o]
         else if k == o + 11 then attr
         else if k < o + 20 then s[k]
         else if k < o + 22 then 0
         else if k < o + 26 then s[k]
         else if k < o + 28 then ToLe16(head)[k - o - 26]
         else ToLe32(size)[k - o - 28]
  }

  lemma PatchedIs(s: Sector, t: Sector, k: nat, name: Name, attr: byte, head: nat, size: nat)
    requires k < 16 && head < TWO16 && size < TWO32 && EntryPatched(s, t, k * 32, name, attr, head, size)
    ensures t == PutEntryIn(s, k, Committed(EntryIn(s, k), name, attr, head, size))
  {
    var e := EntryIn(s, k);
    var c := Committed(e, name, attr, head, size);
    assert c == name + [attr] + e[12..20] + [0, 0] + e[22..26] + ToLe16(head) + ToLe32(size);
    forall i | 0 <= i < 32 ensures t[k * 32 + i] == c[i] {
    }
    assert t == s[..32 * k] + c + s[32 * k + 32..];
  }

  /** The first `i` clusters of `ch` hold the first `done` bytes, all of them or full. */
  ghost predicate Poured(g: Geo, d: seq<seq<Sector>>, ch: seq<nat>, i: nat, data: seq<byte>, done: nat) {
    && i <= |ch| && done <= |data| && DataShape(g, d) && (forall k | 0 <= k < |ch| :: 2 <= ch[k] < |d|) && Distinct(ch)
    && var p := ChainBytes(d, ch[..i]);
       done == Min(|p|, |data|) && p[..done] == data[..done]
  }

  lemma PouredNone(g: Geo, v: Vol, ch: seq<nat>, data: seq<byte>)
    requires VolShape(g, v) && (ch == [] || (IsChain(v.fat, ch) && Distinct(ch)))
    ensures DataBut(v.data, v.data, ch) && Poured(g, v.data, ch, 0, data, 0)
  {
  }

  lemma InChain(g: Geo, v: Vol, ch: seq<nat>, i: nat)
    requires VolShape(g, v) && IsChain(v.fat, ch) && i < |ch|
    ensures 2 <= ch[i] < g.clusters + 2
  {
  }

  lemma PourNext(fat: seq<nat>, a: seq<seq<Sector>>, b: seq<seq<Sector>>, c: seq<seq<Sector>>, ch: seq<nat>, i: nat)
    requires IsChain(fat, ch) && i < |ch| && DataBut(a, b, ch) && DataBut(b, c, [ch[i]])
    ensures DataBut(a, c, ch) && 2 <= ch[i] < |fat| && (i < |ch| - 1 ==> fat[ch[i]] == ch[i + 1])
  {
  }

  lemma PouredFits(g: Geo, d: seq<seq<Sector>>, ch: seq<nat>, i: nat, data: seq<byte>, done: nat)
    requires Poured(g, d, ch, i, data, done)
    ensures forall k | 0 <= k < |ch| :: ch[k] < |d|
  {
  }

  lemma PouredEnds(g: Geo, d: seq<seq<Sector>>, ch: seq<nat>, i: nat, data: seq<byte>, done: nat)
    requires Poured(g, d, ch, i, data, done) && |data| <= |ch| * ClusterSize(g) && done < |data|
    ensures i < |ch|
  {
    if i == |ch| {
      assert ch[..i] == ch;
      ChainBytesLength(g, d, ch);
    }
  }

  lemma PourStep(g: Geo, d0: seq<seq<Sector>>, d: seq<seq<Sector>>, ch: seq<nat>, i: nat, data: seq<byte>, done0: nat,
                 done: nat)
    requires Poured(g, d0, ch, i, data, done0) && i < |ch| && done0 < |data| && DataShape(g, d)
    requires DataBut(d0, d, [ch[i]])
    requires done == Min(|data|, done0 + 512 * g.spc) && Flat(d[ch[i]])[..done - done0] == data[done0..done]
    ensures Poured(g, d, ch, i + 1, data, done)
  {
    var p, f := ChainBytes(d0, ch[..i]), Flat(d[ch[i]]);
    forall k | 0 <= k < i ensures d[ch[..i][k]] == d0[ch[..i][k]] {
      assert ch[k] != ch[i];
    }
    ChainBytesFrame(d0, d, ch[..i]);
    assert ch[..i + 1][..i] == ch[..i] && ch[..i + 1][i] == ch[i];
    assert ChainBytes(d, ch[..i + 1]) == p + f;
    assert data[..done] == data[..done0] + data[done0..done];
  }

  lemma PouredAll(g: Geo, d: seq<seq<Sector>>, ch: seq<nat>, i: nat, data: seq<byte>, done: nat)
    requires Poured(g, d, ch, i, data, done) && done == |data|
    ensures Take(ChainBytes(d, ch), |data|) == data
  {
    ChainBytesPrefix(d, ch, i);
    assert data[..done] == data;
  }

  lemma {:induction false} ChainBytesPrefix(d: seq<seq<Sector>>, ch: seq<nat>, i: nat)
    requires i <= |ch| && forall k | 0 <= k < |ch| :: ch[k] < |d|
    ensures ChainBytes(d, ch[..i]) <= ChainBytes(d, ch)
    decreases |ch|
  {
    if i < |ch| {
      ChainBytesPrefix(d, ch[..|ch| - 1], i);
      assert ch[..|ch| - 1][..i] == ch[..i];
    } else {
      assert ch[..i] == ch;
    }
  }

  lemma PourOne(before: seq<Sector>, after: seq<Sector>, s: nat, sec: Sector, data: seq<byte>, done: nat, d1: nat,
                d2: nat)
    requires s < |before| && after == before[s := sec]
    requires done <= d1 <= d2 <= |data| && d1 == done + 512 * s && d2 == Min(|data|, d1 + 512)
    requires Flat(before[..s])[..d1 - done] == data[done..d1]
    requires sec[..d2 - d1] == data[d1..d2]
    ensures Flat(after[..s + 1])[..d2 - done] == data[done..d2]
  {
    assert after[..s + 1][..s] == before[..s] && after[..s + 1][s] == sec;
    var f := Flat(before[..s]);
    assert Flat(after[..s + 1]) == f + sec;
    assert f[..d1 - done] == f;
    assert (f + sec)[..d2 - done] == f + sec[..d2 - d1];
    assert data[done..d2] == data[done..d1] + data[d1..d2];
  }

  /** The first `s` sectors hold the data from `done` to `done2`. */
  ghost predicate Filled(secs: seq<Sector>, s: nat, data: seq<byte>, done: nat, done2: nat) {
    && s <= |secs| && done <= done2 <= |data| && done2 - done <= 512 * s
    && Flat(secs[..s])[..done2 - done] == data[done..done2]
  }

  lemma NothingFilled(v: Vol, n: nat, data: seq<byte>, done: nat)
    requires n < |v.data| && done <= |data|
    ensures DataBut(v.data, v.data, [n]) && Filled(v.data[n], 0, data, done, done)
  {
  }

  lemma SectorFilled(g: Geo, v0: Vol, v: Vol, n: nat, s: nat, sec: Sector, data: seq<byte>, done: nat, d1: nat, d2: nat)
    requires VolShape(g, v) && LocOk(g, DataAt(n, s)) && n < |v.data| && DataBut(v0.data, v.data, [n])
    requires Filled(v.data[n], s, data, done, d1) && d1 == done + 512 * s && d1 <= d2 == Min(|data|, d1 + 512)
    requires sec[..d2 - d1] == data[d1..d2]
    ensures var w := PutSector(g, v, DataAt(n, s), sec);
            && w == v.(data := w.data) && DataBut(v0.data, w.data, [n]) && |w.data| == |v.data|
            && Filled(w.data[n], s + 1, data, done, d2)
  {
    PourOne(v.data[n], v.data[n][s := sec], s, sec, data, done, d1, d2);
  }

  lemma FilledAll(secs: seq<Sector>, s: nat, data: seq<byte>, done: nat, done2: nat)
    requires Filled(secs, s, data, done, done2)
    ensures done2 - done <= |Flat(secs)| && Flat(secs)[..done2 - done] == data[done..done2]
  {
    FlatPrefix(secs, s);
  }

  /** The slot that growing brought into being is vacant. */
  lemma GrownSlot(g: Geo, v: Vol, sh: Shape, v2: Vol, sh2: Shape, d: nat, nc: nat, idx: nat)
    requires Base(g, v, sh) && Base(g, v2, sh2) && IsDir(sh, d) && Grown(g, v, sh, v2, sh2, d, nc)
    requires AllLive(g, v, sh, d, idx) && !InDir(g, ChOf(sh, d), idx) && InDir(g, ChOf(sh, d) + [nc], idx)
    ensures IsDir(sh2, d) && Vacant(g, v2, sh2, d, idx)
  {
    if idx < 2 {
      ChOfOk(g, v, sh, d);
      FirstSlots(g, ChOf(sh, d), idx);
    }
  }

  /** Marking a free cluster leaves a chain a chain. */
  lemma StillWalks(fat: seq<nat>, ch: seq<nat>, nc: nat)
    requires IsChain(fat, ch) && nc < |fat| && fat[nc] == 0
    ensures IsChain(fat[nc := END_MARK], ch)
  {
    assert forall i | 0 <= i < |ch| - 1 :: fat[ch[i]] == ch[i + 1];
    assert forall i | 0 <= i < |ch| :: ch[i] != nc by {
      forall i | 0 <= i < |ch| ensures ch[i] != nc {
        assert i < |ch| - 1 ==> fat[ch[i]] == ch[i + 1];
      }
    }
  }

  // ----- listing -----

  datatype Item = Item(name: seq<byte>, attr: byte, size: nat)

  ghost predicate Shown(g: Geo, v: Vol, sh: Shape, d: nat, j: nat)
    requires Base(g, v, sh) && IsDir(sh, d)
  {
    InDir(g, ChOf(sh, d), j) && Live(EntOf(g, v, sh, d, j)) && !HasVolAttr(EntOf(g, v, sh, d, j))
  }

  function ItemOf(e: Entry): Item {
    Item(PrettySpec(NameOf(e)), e[11], SizeOf(e))
  }

  ghost predicate Increasing(s: seq<nat>) {
    forall i, j | 0 <= i < j < |s| :: s[i] < s[j]
  }

  /** `slots` are the shown slots below `idx`, in order, and `out` their items. */
  ghost predicate Listed(g: Geo, v: Vol, sh: Shape, d: nat, idx: nat, slots: seq<nat>, out: seq<Item>)
    requires Base(g, v, sh) && IsDir(sh, d)
  {
    && Increasing(slots) && |slots| == |out|
    && (forall k | 0 <= k < |slots| ::
          slots[k] < idx && Shown(g, v, sh, d, slots[k]) && out[k] == ItemOf(EntOf(g, v, sh, d, slots[k])))
    && (forall j | 0 <= j < idx && Shown(g, v, sh, d, j) :: j in slots)
  }

  /** Every shown slot once, in order, with its item. */
  ghost predicate Listing(g: Geo, v: Vol, sh: Shape, d: nat, slots: seq<nat>, out: seq<Item>)
    requires Base(g, v, sh)
  {
    && IsDir(sh, d) && Increasing(slots) && |slots| == |out|
    && (forall k | 0 <= k < |slots| :: Shown(g, v, sh, d, slots[k]) && out[k] == ItemOf(EntOf(g, v, sh, d, slots[k])))
    && (forall j: nat | Shown(g, v, sh, d, j) :: j in slots)
  }

  lemma ListedNone(g: Geo, v: Vol, sh: Shape, d: nat)
    requires Base(g, v, sh) && IsDir(sh, d)
    ensures Listed(g, v, sh, d, 0, [], [])
  {
  }

  lemma ListedSkip(g: Geo, v: Vol, sh: Shape, d: nat, idx: nat, slots: seq<nat>, out: seq<Item>)
    requires Base(g, v, sh) && IsDir(sh, d) && Listed(g, v, sh, d, idx, slots, out)
    requires InDir(g, ChOf(sh, d), idx) && (!Live(EntOf(g, v, sh, d, idx)) || HasVolAttr(EntOf(g, v, sh, d, idx)))
    ensures Listed(g, v, sh, d, idx + 1, slots, out)
  {
    hide Base;
  }

  lemma ListedOne(g: Geo, v: Vol, sh: Shape, d: nat, idx: nat, slots: seq<nat>, out: seq<Item>)
    requires Base(g, v, sh) && IsDir(sh, d) && Listed(g, v, sh, d, idx, slots, out) && InDir(g, ChOf(sh, d), idx)
    requires Live(EntOf(g, v, sh, d, idx)) && !HasVolAttr(EntOf(g, v, sh, d, idx))
    ensures Listed(g, v, sh, d, idx + 1, slots + [idx], out + [ItemOf(EntOf(g, v, sh, d, idx))])
  {
    hide Base, EntOf, InDir;
    var s2 := slots + [idx];
    forall j | 0 <= j < idx + 1 && Shown(g, v, sh, d, j) ensures j in s2 {
      if j == idx { assert s2[|slots|] == idx; }
    }
  }

  lemma ListedEnd(g: Geo, v: Vol, sh: Shape, d: nat, idx: nat, slots: seq<nat>, out: seq<Item>)
    requires Base(g, v, sh) && IsDir(sh, d) && Listed(g, v, sh, d, idx, slots, out) && TableOk(g, v, sh, d)
    requires InDir(g, ChOf(sh, d), idx) ==> EntOf(g, v, sh, d, idx)[0] == 0
    ensures Listing(g, v, sh, d, slots, out)
  {
    hide Base, EntOf, InDir;
    forall j: nat | Shown(g, v, sh, d, j) ensures j in slots {
      if j >= idx { NoneShownPast(g, v, sh, d, idx, j); }
    }
  }

  lemma NoneShownPast(g: Geo, v: Vol, sh: Shape, d: nat, idx: nat, j: nat)
    requires Base(g, v, sh) && IsDir(sh, d) && TableOk(g, v, sh, d) && idx <= j
    requires InDir(g, ChOf(sh, d), idx) ==> EntOf(g, v, sh, d, idx)[0] == 0
    ensures !Shown(g, v, sh, d, j)
  {
    hide ChainsOk, VolShape, InDir;
    if Shown(g, v, sh, d, j) {
      InDirBelow(g, ChOf(sh, d), idx, j);
    }
  }

  lemma ListedLimit(g: Geo, v: Vol, sh: Shape, d: nat, max: nat, slots: seq<nat>, out: seq<Item>)
    requires Base(g, v, sh) && IsDir(sh, d) && Listed(g, v, sh, d, max, slots, out) && IsScanLimit(g, ChOf(sh, d), max)
    ensures Listing(g, v, sh, d, slots, out)
  {
    hide ChainsOk, VolShape;
  }

  // ----- mounting -----

  /** The checks fat_mount makes before it takes any field. */
  predicate Signed(b: Sector) {
    b[510] == 0x55 && b[511] == 0xAA && Le16(b, 11) == 512 && b[16] == 2
  }

  /** And those before it works out where the parts are. */
  predicate Sized(b: Sector) { b[13] != 0 && Le16(b, 22) != 0 }

  /** The sectors left for data, in 32-bit arithmetic. */
  function DataSectors(total: nat, res: nat, fatSec: nat, entries: nat): (n: nat)
    ensures n < TWO32
  {
    (total - res - 2 * fatSec - (entries * 32 + 511) / 512) % TWO32
  }

  function Quotient(n: nat, spc: nat): nat
    requires spc > 0
  {
    n / spc
  }

  /** The geometry a boot sector claims. */
  function ClaimedLayout(b: Sector): Layout
    requires Sized(b)
  {
    var total := if Le16(b, 19) == 0 then Le32(b, 32) else Le16(b, 19);
    var n := DataSectors(total, Le16(b, 14), Le16(b, 22), Le16(b, 17));
    Layout(Geo(b[13], Le16(b, 17), Quotient(n, b[13])), Le16(b, 14), Le16(b, 22))
  }

  /** The geometry fat_mount accepts. */
  function MountLayout(b: Sector): Option<Layout> {
    if Signed(b) && Sized(b) && 4085 <= ClaimedLayout(b).g.clusters <= 65525 then Some(ClaimedLayout(b)) else None
  }

  lemma Unmountable(b: Sector)
    requires !Signed(b) || !Sized(b)
    ensures MountLayout(b) == None
  {
  }

  lemma Claims(b: Sector, total: nat, dataSec: nat)
    requires Sized(b) && total == if Le16(b, 19) == 0 then Le32(b, 32) else Le16(b, 19)
    requires dataSec == (total - Le16(b, 14) - 2 * Le16(b, 22) - (Le16(b, 17) * 32 + 511) / 512) % TWO32
    ensures var l := ClaimedLayout(b);
            && l == Layout(Geo(b[13], Le16(b, 17), dataSec / b[13]), Le16(b, 14), Le16(b, 22))
            && RootLba(l) == FS_LBA + Le16(b, 14) + 2 * Le16(b, 22)
            && DataLba(l) == RootLba(l) + (Le16(b, 17) * 32 + 511) / 512
    ensures MountLayout(b) == if Signed(b) && 4085 <= dataSec / b[13] <= 65525 then Some(ClaimedLayout(b)) else None
  {
    hide Le16, Le32;
    assert dataSec == DataSectors(total, Le16(b, 14), Le16(b, 22), Le16(b, 17));
  }

  function WordAt(b: Sector, o: nat): nat
    requires o + 2 <= 512
  {
    b[o] as int + 0x100 * (b[o + 1] as int)
  }

  /** The sectors of the volume that are neither reserved nor table nor root, by the bytes of the boot
      sector, in 32-bit arithmetic. */
  function DataClaimed(b: Sector): nat {
    var total := if WordAt(b, 19) == 0 then WordAt(b, 32) + 0x1_0000 * WordAt(b, 34) else WordAt(b, 19);
    (total - WordAt(b, 14) - 2 * WordAt(b, 22) - (WordAt(b, 17) + 15) / 16) % TWO32
  }

  /** Which boot sectors are mounted: signature, 512-byte sectors, two tables, a cluster size, tables of
      some length, and from 4085 to 65525 whole clusters; and where that puts the parts. */
  lemma MountIff(b: Sector)
    ensures var d, spc := DataClaimed(b), b[13] as int;
            && (MountLayout(b).Some? <==>
                && b[510] == 0x55 && b[511] == 0xAA && b[11] == 0 && b[12] == 2 && b[16] == 2
                && spc != 0 && WordAt(b, 22) != 0 && 4085 * spc <= d < 65526 * spc)
            && (MountLayout(b).Some? ==>
                  var l := MountLayout(b).value;
                  && l.g.spc == spc && l.g.rootEntries == WordAt(b, 17)
                  && l.g.clusters * spc <= d < (l.g.clusters + 1) * spc
                  && RootLba(l) == FS_LBA + WordAt(b, 14) + 2 * WordAt(b, 22)
                  && DataLba(l) == RootLba(l) + (WordAt(b, 17) + 15) / 16)
  {
    hide DataSectors, Quotient, RootLba, DataLba;
    var d, spc := DataClaimed(b), b[13] as int;
    SameClaim(b);
    if spc != 0 && WordAt(b, 22) != 0 {
      Claims(b, if Le16(b, 19) == 0 then Le32(b, 32) else Le16(b, 19), d);
      QuotientBounds(d, spc);
    }
  }

  lemma SameClaim(b: Sector)
    ensures Le16(b, 11) == 512 <==> b[11] == 0 && b[12] == 2
    ensures Le16(b, 14) == WordAt(b, 14) && Le16(b, 17) == WordAt(b, 17) && Le16(b, 22) == WordAt(b, 22)
    ensures var total := if Le16(b, 19) == 0 then Le32(b, 32) else Le16(b, 19);
            DataClaimed(b) == (total - Le16(b, 14) - 2 * Le16(b, 22) - (Le16(b, 17) * 32 + 511) / 512) % TWO32
    ensures (WordAt(b, 17) * 32 + 511) / 512 == (WordAt(b, 17) + 15) / 16
  {
  }

  lemma QuotientBounds(n: nat, spc: nat)
    requires spc > 0
    ensures n / spc * spc <= n < (n / spc + 1) * spc
    ensures 4085 <= n / spc <= 65525 <==> 4085 * spc <= n < 65526 * spc
  {
    Euclid(n, spc);
    DivBelow(n, spc, 4085);
    DivBelow(n, spc, 65526);
    assert (n / spc + 1) * spc == n / spc * spc + spc;
  }
}
