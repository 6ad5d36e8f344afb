/** The FAT16 driver: the methods read and write sectors through one shared
    buffer, and are specified by what they do to the volume. */
module FatDriver {
  import opened Arith
  import opened Bytes
  import opened FatTable
  import opened FatDir
  import opened FatState
  import opened FatOps
  import opened FatFiles
  import opened FatSteps
  import opened FatWrites
  import opened FatNames
  import opened FatDisk
  import opened FatFacts
  import opened Wrappers

  class Driver {
    // geometry, set by Mount
    var spc: nat
    var reserved: nat
    var fats: nat
    var rootEntries: nat
    var fatSectors: nat
    var clusters: nat
    var rootLba: nat
    var dataLba: nat

    /** The scratch sector every operation works through. */
    const sec: array<byte>

    var disk: seq<Sector>

    /** The geometry as one value, the volume on the disk, and its chains. */
    ghost var lay: Layout
    ghost var vol: Vol
    ghost var sh: Shape
    /** The disk as it was mounted. */
    ghost var outer: seq<Sector>

    /** The fields describe a disk that holds `vol` and is otherwise as it was mounted. */
    ghost predicate Mounted()
      reads this`spc, this`reserved, this`fats, this`rootEntries, this`fatSectors, this`clusters
      reads this`rootLba, this`dataLba, this`disk, this`lay, this`vol, this`outer
    {
      && sec.Length == 512 && fats == 2
      && lay == Layout(Geo(spc, rootEntries, clusters), reserved, fatSectors)
      && rootLba == RootLba(lay) && dataLba == DataLba(lay)
      && Holds(lay, disk, vol) && RestSame(lay, disk, outer)
    }

    /** The kernel's static state before fat_mount. */
    constructor (d: seq<Sector>)
      ensures sec.Length == 512 && fresh(sec) && disk == d
    {
      sec := new byte[512](_ => 0);
      disk := d;
    }

    // ----- the device -----

    method AtaRead(lba: nat)
      requires sec.Length == 512 && lba < |disk|
      modifies sec
      ensures sec[..] == disk[lba]
    {
      var s := disk[lba];
      forall i | 0 <= i < 512 {
        sec[i] := s[i];
      }
    }

    method AtaWrite(lba: nat)
      requires sec.Length == 512 && lba < |disk|
      modifies this`disk
      ensures |sec[..]| == 512 && disk == old(disk)[lba := sec[..]]
    {
      var s: Sector := sec[..];
      disk := disk[lba := s];
    }

    /** First sector of cluster `n`. */
    function ClusterLba(n: nat): int
      reads this
    {
      dataLba + (n - 2) * spc
    }

    /** Reads the sector of a directory or data location. */
    method ReadLoc(lba: nat, ghost at: Loc)
      requires Mounted() && LocOk(lay.g, at) && lba == LbaOf(lay, at)
      modifies sec
      ensures sec[..] == SectorAt(lay.g, vol, at)
    {
      LbaBounds(lay, |disk|, at);
      AtaRead(lba);
    }

    method WriteLoc(lba: nat, ghost at: Loc)
      requires Mounted() && LocOk(lay.g, at) && lba == LbaOf(lay, at)
      modifies this`disk, this`vol
      ensures |sec[..]| == 512
      ensures Mounted() && vol == PutSector(lay.g, old(vol), at, sec[..])
    {
      LbaBounds(lay, |disk|, at);
      NeverOutside(lay, |disk|, at);
      PutSectorHolds(lay, disk, vol, at, sec[..]);
      AtaWrite(lba);
      vol := PutSector(lay.g, vol, at, sec[..]);
    }

    lemma DataLbaIs(n: nat, s: nat)
      requires Mounted() && LocOk(lay.g, DataAt(n, s))
      ensures ClusterLba(n) + s == LbaOf(lay, DataAt(n, s))
    {
      OffsetIs(n - 2, spc);
    }

    // ----- table entries -----

    method FatGet(n: nat) returns (v: nat)
      requires Mounted() && n < clusters + 2
      modifies sec
      ensures v == vol.fat[n]
    {
      var off := n * 2;
      var lba := FS_LBA + reserved + off / 512;
      var o := off % 512;
      assert lba == CopyLba(lay, 0) + n / 256 && o == 2 * (n % 256);
      assert Le16(disk[CopyLba(lay, 0) + n / 256], 2 * (n % 256)) == vol.fat[n];
      AtaRead(lba);
      v := sec[o] as int + 256 * (sec[o + 1] as int);
    }

    method FatSetCopy(f: nat, n: nat, v: nat)
      requires sec.Length == 512 && LayoutOk(lay, |disk|) && n < lay.g.clusters + 2 && v < TWO16 && f < 2
      requires reserved == lay.reserved && fatSectors == lay.fatSectors
      modifies this`disk, sec
      ensures disk == PatchFat(lay, old(disk), f, n, v)
    {
      var off := n * 2;
      var o := off % 512;
      var lba := FS_LBA + reserved + f * fatSectors + off / 512;
      assert f * fatSectors == if f == 0 then 0 else fatSectors;
      assert lba == CopyLba(lay, f) + n / 256 && o == 2 * (n % 256);
      AtaRead(lba);
      sec[o] := v % 256;
      sec[o + 1] := v / 256;
      assert sec[..] == Patched(disk[lba], o, v);
      AtaWrite(lba);
    }

    method FatSet(n: nat, v: nat)
      requires Mounted() && n < clusters + 2 && v < TWO16 && (v < clusters + 2 || v >= STOP)
      modifies this`disk, this`vol, sec
      ensures Mounted() && vol == old(vol).(fat := old(vol).fat[n := v])
    {
      hide CopyHolds, SectorsHold, RestSame;
      ghost var fat2 := vol.fat[n := v];
      var f := 0;
      while f < fats
        invariant f <= 2 && LayoutOk(lay, |disk|) && vol == old(vol)
        invariant CopyHolds(lay, disk, if f > 0 then fat2 else vol.fat, 0)
        invariant CopyHolds(lay, disk, if f > 1 then fat2 else vol.fat, 1)
        invariant SectorsHold(lay, disk, vol) && RestSame(lay, disk, outer)
      {
        PatchFatCopy(lay, disk, vol.fat, f, n, v);
        PatchFatOther(lay, disk, if f == 0 then vol.fat else fat2, f, n, v, 1 - f);
        PatchFatSectors(lay, disk, vol, f, n, v);
        PatchFatInside(lay, disk, outer, f, n, v);
        FatSetCopy(f, n, v);
        f := f + 1;
      }
      SectorsIgnoreTable(lay, disk, vol, fat2);
      vol := vol.(fat := fat2);
    }

    /** First free cluster, marked end of chain; -1 when there is none. */
    method ClAlloc() returns (nc: int)
      requires Mounted()
      modifies this`disk, this`vol, sec
      ensures Mounted() && nc >= -1
      ensures nc == -1 <==> Free(old(vol.fat)) == {}
      ensures nc == -1 ==> vol == old(vol)
      ensures nc != -1 ==>
                && 2 <= nc < clusters + 2 && old(vol.fat)[nc] == 0
                && (forall m | 2 <= m < nc :: old(vol.fat)[m] != 0)
                && vol == old(vol).(fat := old(vol).fat[nc := END_MARK])
    {
      var n := 2;
      while n < 2 + clusters
        invariant 2 <= n <= 2 + clusters && disk == old(disk) && vol == old(vol)
        invariant forall m | 2 <= m < n :: vol.fat[m] != 0
      {
        var v := FatGet(n);
        if v == 0 {
          assert n in Free(vol.fat);
          FatSet(n, END_MARK);
          return n;
        }
        n := n + 1;
      }
      return -1;
    }

    /** Frees everything a walk from `n` meets, whatever shape the table is in. */
    method ClFreeChain(n: nat)
      requires Mounted() && (n < clusters + 2 || n >= STOP)
      modifies this`disk, this`vol, sec
      ensures Mounted() && vol == old(vol).(fat := FreeFrom(old(vol).fat, n))
    {
      var c: nat := n;
      while c >= 2 && c < STOP
        invariant Mounted() && (c < clusters + 2 || c >= STOP)
        invariant vol == old(vol).(fat := vol.fat)
        invariant FreeFrom(vol.fat, c) == FreeFrom(old(vol).fat, n)
        decreases Used(vol.fat), c
      {
        FreeStep(vol.fat, c);
        var nx := FatGet(c);
        FatSet(c, 0);
        c := nx;
        if nx >= EOC {
          break;
        }
      }
    }

    // ----- directories -----

    /** What a directory argument stands for: 0 and no chain for the root. */
    ghost predicate Walks(d: nat, ch: seq<nat>)
      reads this
    {
      && GeoOk(lay.g) && DirChain(lay.g, ch)
      && (if d == 0 then ch == [] else IsChain(vol.fat, ch) && ch[0] == d)
    }

    /** The cluster `step` links on from `d`; fails at the end of the chain. */
    method Walk(d: nat, step: nat, ghost ch: seq<nat>) returns (ok: bool, n: nat)
      requires Mounted() && d != 0 && Walks(d, ch)
      modifies sec
      ensures ok <==> step < |ch|
      ensures ok ==> n == ch[step]
    {
      n := d;
      var s := 0;
      while s < step
        invariant 0 <= s <= step && s < |ch| && n == ch[s]
      {
        assert s < |ch| - 1 ==> vol.fat[ch[s]] == ch[s + 1];
        var nx := FatGet(n);
        if nx < 2 || nx >= STOP {
          return false, 0;
        }
        n := nx;
        s := s + 1;
      }
      ok := true;
    }

    /** Sector of slot `idx`. Walking a subdirectory past its last cluster fails. */
    method DirLba(d: nat, idx: nat, ghost ch: seq<nat>) returns (ok: bool, lba: nat)
      requires Mounted() && Walks(d, ch)
      modifies sec
      ensures ok <==> d == 0 || InDir(lay.g, ch, idx)
      ensures d == 0 ==> lba == rootLba + idx / 16
      ensures ok && InDir(lay.g, ch, idx) ==> lba == LbaOf(lay, SlotLoc(lay.g, ch, idx))
    {
      if d == 0 {
        return true, rootLba + idx / 16;
      }
      var per := spc * 16;
      QuotRem(idx, Per(lay.g));
      QuotRem(idx / 16, spc);
      lba := 0;
      var n;
      ok, n := Walk(d, idx / per, ch);
      if ok {
        DataLbaIs(n, (idx / 16) % spc);
        lba := ClusterLba(n) + (idx / 16) % spc;
      }
    }

    method NameSame(a: Name, b: Name) returns (same: bool)
      ensures same <==> a == b
    {
      for i := 0 to 11
        invariant a[..i] == b[..i]
      {
        if a[i] != b[i] {
          return false;
        }
      }
      assert a == a[..11] && b == b[..11];
      return true;
    }

    /** Slots of directory `d` to scan at most. */
    method ScanLimit(d: nat) returns (max: nat)
      requires Mounted() && Base(lay.g, vol, sh) && IsDir(sh, d)
      ensures IsScanLimit(lay.g, ChOf(sh, d), max)
      ensures d == 0 ==> max == rootEntries
    {
      hide ChainsOk, Holds;
      max := if d == 0 then rootEntries else clusters * spc * 16;
      ChOfOk(lay.g, vol, sh, d);
      forall j | 0 <= j && InDir(lay.g, ChOf(sh, d), j) ensures j < max {
        InDirBound(lay.g, ChOf(sh, d), j);
      }
    }

    lemma DirWalks(d: nat)
      requires Mounted() && Base(lay.g, vol, sh) && IsDir(sh, d)
      ensures Walks(d, ChOf(sh, d)) && DirChain(lay.g, ChOf(sh, d)) && (d != 0 ==> ChOf(sh, d) != [])
    {
      ChOfOk(lay.g, vol, sh, d);
      if d != 0 { assert NodeChainOk(vol.fat, sh, d); }
    }

    /** Reads entry `idx` of directory `d`; fails past the end of a subdirectory. */
    method ReadSlot(d: nat, idx: nat) returns (ok: bool, e: Entry, lba: nat)
      requires Mounted() && Base(lay.g, vol, sh) && IsDir(sh, d) && (d == 0 ==> idx < rootEntries)
      modifies sec
      ensures ok <==> InDir(lay.g, ChOf(sh, d), idx)
      ensures ok ==> Located(lay, vol, sh, d, idx, e, lba)
      ensures ok ==> sec[..] == SectorAt(lay.g, vol, SlotLoc(lay.g, ChOf(sh, d), idx))
    {
      hide ChainsOk, Holds, SlotLoc;
      DirWalks(d);
      hide Walks;
      e := seq(32, _ => 0);
      ok, lba := DirLba(d, idx, ChOf(sh, d));
      if ok {
        ReadLoc(lba, SlotLoc(lay.g, ChOf(sh, d), idx));
        e := sec[(idx % 16) * 32..(idx % 16) * 32 + 32];
      }
    }

    /** Looks at one slot: does the search end here, and does the name match? */
    method LookAt(d: nat, name: Name, idx: nat) returns (end: bool, same: bool, e: Entry, lba: nat)
      requires Mounted() && Base(lay.g, vol, sh) && IsDir(sh, d) && TableOk(lay.g, vol, sh, d)
      requires d == 0 ==> idx < rootEntries
      requires NoMatchBefore(lay.g, vol, sh, d, name, idx)
      modifies sec
      ensures end ==> Find(lay.g, vol, sh, d, name) == None
      ensures !end && !same ==> NoMatchBefore(lay.g, vol, sh, d, name, idx + 1)
      ensures !end && same ==> Find(lay.g, vol, sh, d, name) == Some(idx) && Located(lay, vol, sh, d, idx, e, lba)
    {
      hide ChainsOk, Holds, TableOk, Match;
      var ok;
      ok, e, lba := ReadSlot(d, idx);
      same := false;
      if !ok || e[0] == 0 {
        NothingFrom(d, name, idx);
        return true, false, e, lba;
      }
      MatchIs(d, name, idx, e);
      if e[0] != DELETED {
        same := NameSame(e[..11], name);
      }
      if same {
        FindIs(lay.g, vol, sh, d, name, idx);
      }
      end := false;
    }

    /** Finds the live entry with this name. */
    method DirFind(d: nat, name: Name) returns (found: bool, e: Entry, lba: nat, idx: nat)
      requires Mounted() && Base(lay.g, vol, sh) && IsDir(sh, d) && TableOk(lay.g, vol, sh, d)
      modifies sec
      ensures Find(lay.g, vol, sh, d, name) == if found then Some(idx) else None
      ensures found ==> Located(lay, vol, sh, d, idx, e, lba)
    {
      assert NoMatchBefore(lay.g, vol, sh, d, name, 0);
      hide Mounted, Base, Located, NoMatchBefore, TableOk, IsScanLimit;
      var max := ScanLimit(d);
      idx, lba, e := 0, 0, seq(32, _ => 0);
      while idx < max
        invariant idx <= max && NoMatchBefore(lay.g, vol, sh, d, name, idx)
      {
        var end, same;
        end, same, e, lba := LookAt(d, name, idx);
        if end {
          return false, e, lba, idx;
        }
        if same {
          return true, e, lba, idx;
        }
        idx := idx + 1;
      }
      NoMatchAtAll(lay.g, vol, sh, d, name, idx);
      found := false;
    }

    lemma MatchIs(d: nat, name: Name, idx: nat, e: Entry)
      requires Base(lay.g, vol, sh) && IsDir(sh, d) && InDir(lay.g, ChOf(sh, d), idx)
      requires e == EntOf(lay.g, vol, sh, d, idx)
      ensures Match(lay.g, vol, sh, d, name, idx) <==> Live(e) && e[..11] == name
    {
    }

    /** Past the end of a directory, or its first never-used slot, nothing matches. */
    lemma NothingFrom(d: nat, name: Name, idx: nat)
      requires Base(lay.g, vol, sh) && IsDir(sh, d) && TableOk(lay.g, vol, sh, d)
      requires InDir(lay.g, ChOf(sh, d), idx) ==> EntOf(lay.g, vol, sh, d, idx)[0] == 0
      ensures forall j | j >= idx :: !Match(lay.g, vol, sh, d, name, j)
    {
      forall j | j >= idx ensures !Match(lay.g, vol, sh, d, name, j) {
        if InDir(lay.g, ChOf(sh, d), j) {
          InDirBelow(lay.g, ChOf(sh, d), idx, j);
        }
      }
    }

    // ----- slots for new entries -----

    method ZeroSec()
      requires sec.Length == 512
      modifies sec
      ensures sec[..] == ZeroSector()
    {
      for i := 0 to 512
        invariant forall k | 0 <= k < i :: sec[k] == 0
      {
        sec[i] := 0;
      }
    }

    /** Clears sectors `from`.. of cluster `n`. */
    method ZeroCluster(n: nat, from: nat)
      requires Mounted() && 2 <= n < clusters + 2 && from <= spc
      modifies this`disk, this`vol, sec
      ensures Mounted() && vol == old(vol).(data := vol.data) && DataBut(old(vol).data, vol.data, [n])
      ensures forall t | 0 <= t < spc :: vol.data[n][t] == if t < from then old(vol).data[n][t] else ZeroSector()
    {
      var s := from;
      while s < spc
        invariant from <= s <= spc
        invariant Mounted() && vol == old(vol).(data := vol.data) && DataBut(old(vol).data, vol.data, [n])
        invariant forall t | 0 <= t < spc ::
                    vol.data[n][t] == if from <= t < s then ZeroSector() else old(vol).data[n][t]
      {
        ZeroSec();
        DataLbaIs(n, s);
        WriteLoc(ClusterLba(n) + s, DataAt(n, s));
        s := s + 1;
      }
    }

    /** The last cluster of a chain. */
    method LastCluster(d: nat, ghost ch: seq<nat>) returns (n: nat)
      requires Mounted() && d != 0 && Walks(d, ch)
      modifies sec
      ensures n == ch[|ch| - 1]
    {
      n := d;
      ghost var i := 0;
      while true
        invariant 0 <= i < |ch| && n == ch[i]
        decreases |ch| - i
      {
        assert i < |ch| - 1 ==> vol.fat[ch[i]] == ch[i + 1];
        var last := FatGet(n);
        if last >= EOC {
          break;
        }
        n, i := last, i + 1;
      }
    }

    /** Takes a free cluster, links it behind the last one of `ch` and clears it. */
    method AppendCluster(d: nat, ghost ch: seq<nat>) returns (nc: int)
      requires Mounted() && d != 0 && Walks(d, ch)
      modifies this`disk, this`vol, sec
      ensures Mounted()
      ensures nc == -1 <==> Free(old(vol).fat) == {}
      ensures nc == -1 ==> vol == old(vol)
      ensures nc != -1 ==>
                && 2 <= nc < clusters + 2 && old(vol).fat[nc] == 0
                && vol == Vol(Append(old(vol).fat, ch[|ch| - 1], nc), old(vol).root, vol.data)
                && DataBut(old(vol).data, vol.data, [nc]) && Zeroed(lay.g, vol.data[nc])
    {
      nc := ClAlloc();
      if nc < 0 {
        return;
      }
      StillWalks(old(vol).fat, ch, nc);
      var n := LastCluster(d, ch);
      FatSet(n, nc);
      ZeroCluster(nc, 0);
    }

    /** Appends a cleared cluster to directory `d`, if there is a free one. */
    method GrowDir(d: nat) returns (ok: bool, ghost nc: nat)
      requires Mounted() && WellFormed(lay.g, vol, sh) && IsDir(sh, d) && d != 0
      modifies this`disk, this`vol, this`sh, sec
      ensures Mounted() && WellFormed(lay.g, vol, sh)
      ensures ok <==> Free(old(vol).fat) != {}
      ensures !ok ==> vol == old(vol) && sh == old(sh)
      ensures ok ==> GrewBy(lay.g, old(vol), old(sh), vol, sh, d, nc)
    {
      hide WellFormed, ChainsOk, GrewBy, Walks;
      DirWalks(d);
      ShapeSize(lay.g, vol, sh);
      var c := AppendCluster(d, ChOf(sh, d));
      if c < 0 {
        return false, 0;
      }
      GrowStepBy(lay.g, old(vol), sh, d, c, vol);
      sh := GrowChain(sh, d, c);
      return true, c;
    }

    /** Grows `d` so that slot `idx`, the first past its end, comes to be. */
    method GrowSlot(d: nat, idx: nat) returns (ok: bool, e: Entry, lba: nat, ghost nc: nat)
      requires Mounted() && WellFormed(lay.g, vol, sh) && IsDir(sh, d) && d != 0
      requires AllLive(lay.g, vol, sh, d, idx) && !InDir(lay.g, ChOf(sh, d), idx)
      modifies this`disk, this`vol, this`sh, sec
      ensures Mounted() && WellFormed(lay.g, vol, sh) && IsDir(sh, d)
      ensures ok <==> Free(old(vol).fat) != {}
      ensures !ok ==> vol == old(vol) && sh == old(sh)
      ensures ok ==> GrewBy(lay.g, old(vol), old(sh), vol, sh, d, nc)
      ensures ok ==> Located(lay, vol, sh, d, idx, e, lba) && Vacant(lay.g, vol, sh, d, idx)
    {
      ghost var v0, sh0 := vol, sh;
      hide WellFormed, ChainsOk, Holds, GrewBy, Located, AllLive, Vacant;
      e, lba := seq(32, _ => 0), 0;
      ok, nc := GrowDir(d);
      if ok {
        GrewSlot(v0, sh0, d, nc, idx);
        ok, e, lba := ReadSlot(d, idx);
      }
    }

    lemma GrewSlot(v0: Vol, sh0: Shape, d: nat, nc: nat, idx: nat)
      requires GrewBy(lay.g, v0, sh0, vol, sh, d, nc) && AllLive(lay.g, v0, sh0, d, idx)
      requires !InDir(lay.g, ChOf(sh0, d), idx)
      ensures IsDir(sh, d) && InDir(lay.g, ChOf(sh, d), idx) && Vacant(lay.g, vol, sh, d, idx)
    {
      ChOfOk(lay.g, v0, sh0, d);
      FirstSlotPastEnd(lay.g, ChOf(sh0, d), nc, idx);
      GrownSlot(lay.g, v0, sh0, vol, sh, d, nc, idx);
    }

    /** Looks at one slot: past the end, dead, or live like all before it. */
    method ProbeSlot(d: nat, idx: nat) returns (past: bool, dead: bool, e: Entry, lba: nat)
      requires Mounted() && Base(lay.g, vol, sh) && IsDir(sh, d) && DirOk(lay.g, vol, sh, d)
      requires AllLive(lay.g, vol, sh, d, idx) && (d == 0 ==> idx < rootEntries)
      modifies sec
      ensures past ==> d != 0 && !InDir(lay.g, ChOf(sh, d), idx) && !HasRoom(lay.g, vol, sh, d)
      ensures !past && dead ==>
                HasRoom(lay.g, vol, sh, d) && Located(lay, vol, sh, d, idx, e, lba) && Vacant(lay.g, vol, sh, d, idx)
      ensures !past && !dead ==> AllLive(lay.g, vol, sh, d, idx + 1)
    {
      hide WellFormed, ChainsOk, Holds, DirOk;
      var ok;
      ok, e, lba := ReadSlot(d, idx);
      past, dead := !ok, false;
      if !ok {
        PastEnd(d, idx);
        NoRoom(lay.g, vol, sh, d, idx);
      } else if e[0] == 0 || e[0] == DELETED {
        FirstDeadIsVacant(lay.g, vol, sh, d, idx);
        dead := true;
      }
    }

    lemma ScanDone(d: nat, max: nat)
      requires Mounted() && Base(lay.g, vol, sh) && IsDir(sh, d) && AllLive(lay.g, vol, sh, d, max)
      requires IsScanLimit(lay.g, ChOf(sh, d), max)
      ensures !HasRoom(lay.g, vol, sh, d) && (d == 0 || Free(vol.fat) == {})
    {
      NoRoom(lay.g, vol, sh, d, max);
      if d != 0 {
        FullDirMeansFullDisk(lay.g, vol, sh, d);
      }
    }

    /** The first dead slot of `d`, or else the number of the first slot past its end. */
    method ScanSlots(d: nat) returns (dead: bool, more: bool, e: Entry, lba: nat, idx: nat)
      requires Mounted() && Base(lay.g, vol, sh) && IsDir(sh, d) && DirOk(lay.g, vol, sh, d)
      modifies sec
      ensures dead == HasRoom(lay.g, vol, sh, d)
      ensures dead ==> Located(lay, vol, sh, d, idx, e, lba) && Vacant(lay.g, vol, sh, d, idx)
      ensures dead ==> AllLive(lay.g, vol, sh, d, idx)
      ensures !dead && more ==> d != 0 && AllLive(lay.g, vol, sh, d, idx) && !InDir(lay.g, ChOf(sh, d), idx)
      ensures !dead && !more ==> d == 0 || Free(vol.fat) == {}
    {
      assert AllLive(lay.g, vol, sh, d, 0);
      hide Mounted, Base, Located, DirOk, Vacant, HasRoom, AllLive, InDir, IsScanLimit;
      var max := ScanLimit(d);
      idx, lba, e, dead, more := 0, 0, seq(32, _ => 0), false, false;
      while idx < max
        invariant idx <= max && AllLive(lay.g, vol, sh, d, idx)
      {
        more, dead, e, lba := ProbeSlot(d, idx);
        if more {
          return false, true, e, lba, idx;
        }
        if dead {
          return true, false, e, lba, idx;
        }
        idx := idx + 1;
      }
      ScanDone(d, idx);
      return false, false, e, lba, idx;
    }

    /** A slot for a new entry: the first dead one, else a first one of a new cluster. */
    method DirSlot(d: nat) returns (ok: bool, e: Entry, lba: nat, idx: nat, ghost grew: bool, ghost nc: nat)
      requires Mounted() && WellFormed(lay.g, vol, sh) && IsDir(sh, d)
      modifies this`disk, this`vol, this`sh, sec
      ensures Mounted() && SlotGot(lay, old(vol), old(sh), vol, sh, d, ok, e, lba, idx, grew, nc)
      ensures ok && !grew ==> Base(lay.g, vol, sh) && IsDir(sh, d) && AllLive(lay.g, vol, sh, d, idx)
    {
      hide *;
      DirIsFine(lay.g, vol, sh, d);
      ghost var v0, sh0 := vol, sh;
      var more;
      ok, more, e, lba, idx := ScanSlots(d);
      grew, nc := false, 0;
      if !ok && more {
        ok, e, lba, nc := GrowSlot(d, idx);
        grew := ok;
      }
      SlotGotIntro(lay, v0, sh0, vol, sh, d, ok, e, lba, idx, grew, nc);
    }

    lemma PastEnd(d: nat, idx: nat)
      requires Mounted() && Base(lay.g, vol, sh) && IsDir(sh, d) && !InDir(lay.g, ChOf(sh, d), idx)
      ensures forall j | j >= idx :: !InDir(lay.g, ChOf(sh, d), j)
    {
      forall j | j >= idx ensures !InDir(lay.g, ChOf(sh, d), j) {
        if InDir(lay.g, ChOf(sh, d), j) { InDirBelow(lay.g, ChOf(sh, d), idx, j); }
      }
    }

    // ----- file data -----

    lemma VolumeShape()
      requires Mounted()
      ensures GeoOk(lay.g) && VolShape(lay.g, vol) && InRange(vol.fat) && lay.g.spc == spc && lay.g.clusters == clusters
      ensures sec.Length == 512
    {
    }

    /** Takes one more cluster and links it behind `prev`, the last of `ch`. */
    method TakeCluster(prev: nat, ghost v0: Vol, ghost ch: seq<nat>) returns (nc: int)
      requires Mounted() && VolShape(lay.g, v0) && FreeClusters(lay.g, v0, ch) && vol == v0.(fat := Link(v0.fat, ch))
      requires prev == if ch == [] then 0 else ch[|ch| - 1]
      modifies this`disk, this`vol, sec
      ensures Mounted() && nc >= -1
      ensures nc == -1 ==> vol == old(vol) && |Free(v0.fat)| == |ch|
      ensures nc != -1 ==>
                && 2 <= nc < lay.g.clusters + 2 && FreeClusters(lay.g, v0, ch + [nc])
                && vol == v0.(fat := Link(v0.fat, ch + [nc]))
    {
      hide *;
      VolumeShape();
      ghost var v1 := vol;
      nc := ClAlloc();
      if nc >= 0 {
        TakeStep(lay.g, v0, v1, ch, nc);
        if prev != 0 {
          FatSet(prev, nc);
        }
      } else {
        NoneLeft(lay.g, v0, v1, ch);
      }
    }

    /** Takes `need` free clusters and links them; gives all back if it runs out. */
    method AllocChain(need: nat) returns (ok: bool, first: nat, ghost ch: seq<nat>)
      requires Mounted()
      modifies this`disk, this`vol, sec
      ensures Mounted()
      ensures ok <==> need <= |Free(old(vol).fat)|
      ensures !ok ==> vol == old(vol)
      ensures ok ==>
                && |ch| == need && first == (if ch == [] then 0 else ch[0])
                && FreeClusters(lay.g, old(vol), ch) && vol == old(vol).(fat := Link(old(vol).fat, ch))
    {
      hide Mounted, VolShape, InRange, Link, Clusters, Distinct, Free, GeoOk;
      ghost var v0 := vol;
      VolumeShape();
      NothingTaken(lay.g, v0);
      ch, first := [], 0;
      var c, prev := 0, 0;
      while c < need
        invariant Mounted() && |ch| == c <= need
        invariant FreeClusters(lay.g, v0, ch) && vol == v0.(fat := Link(v0.fat, ch))
        invariant first == (if ch == [] then 0 else ch[0]) && prev == (if ch == [] then 0 else ch[c - 1])
        invariant first == 0 ==> ch == []
        decreases need - c
      {
        var nc := TakeCluster(prev, v0, ch);
        if nc < 0 {
          if first != 0 {
            GiveBack(first, v0, ch);
          }
          return false, 0, ch;
        }
        var taken: nat := nc;
        if first == 0 {
          first := taken;
        }
        prev, ch, c := taken, ch + [taken], c + 1;
      }
      TakenFit(lay.g, v0, ch);
      ok := true;
    }

    method GiveBack(first: nat, ghost v0: Vol, ghost ch: seq<nat>)
      requires Mounted() && VolShape(lay.g, v0) && FreeClusters(lay.g, v0, ch) && vol == v0.(fat := Link(v0.fat, ch))
      requires ch != [] && first == ch[0]
      modifies this`disk, this`vol, sec
      ensures Mounted() && vol == v0
    {
      FreeUndoesLink(v0.fat, ch);
      ClFreeChain(first);
    }

    /** Fills the scratch sector with the next bytes of `data`, zero past its end. */
    method FillSector(data: seq<byte>, done: nat) returns (done2: nat)
      requires sec.Length == 512 && done <= |data|
      modifies sec
      ensures done2 == Min(|data|, done + 512)
      ensures |sec[..]| == 512 && sec[..done2 - done] == data[done..done2]
      ensures forall k | done2 - done <= k < 512 :: sec[k] == 0
    {
      done2 := done;
      for i := 0 to 512
        invariant done2 == Min(|data|, done + i)
        invariant forall k | 0 <= k < i :: sec[k] == if done + k < |data| then data[done + k] else 0
      {
        if done2 < |data| {
          sec[i] := data[done2];
          done2 := done2 + 1;
        } else {
          sec[i] := 0;
        }
      }
    }

    /** Writes the next bytes of `data` to cluster `n`. */
    method PourCluster(n: nat, data: seq<byte>, done: nat) returns (done2: nat)
      requires Mounted() && 2 <= n < clusters + 2 && done <= |data|
      modifies this`disk, this`vol, sec
      ensures Mounted() && vol == old(vol).(data := vol.data) && DataBut(old(vol).data, vol.data, [n])
      ensures |vol.data[n]| == spc && done2 == Min(|data|, done + 512 * spc)
      ensures Flat(vol.data[n])[..done2 - done] == data[done..done2]
    {
      hide Mounted, DataBut, Filled, Flat, PutSector, GeoOk, InRange;
      VolumeShape();
      ghost var v0 := vol;
      NothingFilled(v0, n, data, done);
      var s := 0;
      done2 := done;
      while s < spc && done2 < |data|
        invariant s <= spc && done2 == Min(|data|, done + 512 * s)
        invariant Mounted() && VolShape(lay.g, vol) && vol == v0.(data := vol.data) && DataBut(v0.data, vol.data, [n])
        invariant Filled(vol.data[n], s, data, done, done2)
      {
        ghost var v1, d1 := vol, done2;
        done2 := FillSector(data, done2);
        DataLbaIs(n, s);
        WriteLoc(ClusterLba(n) + s, DataAt(n, s));
        SectorFilled(lay.g, v0, v1, n, s, sec[..], data, done, d1, done2);
        s := s + 1;
        VolumeShape();
      }
      FilledAll(vol.data[n], s, data, done, done2);
    }

    /** Pours `data` into the chain `ch`, which is long enough for it. */
    method Pour(first: nat, data: seq<byte>, ghost ch: seq<nat>)
      requires Mounted() && |data| <= |ch| * ClusterSize(lay.g) && (ch == [] ==> first == 0)
      requires ch != [] ==> IsChain(vol.fat, ch) && Distinct(ch) && ch[0] == first
      modifies this`disk, this`vol, sec
      ensures Mounted() && vol == old(vol).(data := vol.data) && DataBut(old(vol).data, vol.data, ch)
      ensures (forall i | 0 <= i < |ch| :: ch[i] < |vol.data|) && Take(ChainBytes(vol.data, ch), |data|) == data
    {
      hide Mounted, InRange, GeoOk, Poured, Distinct, DataBut, IsChain, Flat, ChainBytes, VolShape;
      ghost var v0 := vol;
      VolumeShape();
      PouredNone(lay.g, vol, ch, data);
      var n: nat, done: nat := first, 0;
      ghost var i: nat := 0;
      while done < |data|
        invariant Mounted() && VolShape(lay.g, vol) && vol == v0.(data := vol.data) && DataBut(v0.data, vol.data, ch)
        invariant done <= |data| && Poured(lay.g, vol.data, ch, i, data, done)
        invariant i < |ch| ==> n == ch[i]
        decreases |ch| - i
      {
        PouredEnds(lay.g, vol.data, ch, i, data, done);
        InChain(lay.g, v0, ch, i);
        ghost var d0, done0 := vol.data, done;
        done := PourCluster(n, data, done);
        VolumeShape();
        PourStep(lay.g, d0, vol.data, ch, i, data, done0, done);
        PourNext(v0.fat, v0.data, d0, vol.data, ch, i);
        n := FatGet(n);
        i := i + 1;
      }
      PouredAll(lay.g, vol.data, ch, i, data, done);
      PouredFits(lay.g, vol.data, ch, i, data, done);
    }

    // ----- committing an entry -----

    /** Rewrites name, attribute, first cluster and size of one slot. */
    method CommitEntry(idx: nat, lba: nat, name: Name, attr: byte, head: nat, size: nat, ghost dch: seq<nat>)
      requires Mounted() && DirChain(lay.g, dch) && InDir(lay.g, dch, idx)
      requires lba == LbaOf(lay, SlotLoc(lay.g, dch, idx))
      requires head < TWO16 && size < TWO32
      modifies this`disk, this`vol, sec
      ensures Mounted()
      ensures vol == PutEnt(lay.g, old(vol), dch, idx,
              Committed(Ent(lay.g, old(vol), dch, idx), name, attr, head, size))
    {
      hide Holds;
      VolumeShape();
      ghost var at := SlotLoc(lay.g, dch, idx);
      ReadLoc(lba, at);
      ghost var s := sec[..];
      PatchEntry((idx % 16) * 32, name, attr, head, size);
      PatchedIs(s, sec[..], idx % 16, name, attr, head, size);
      WriteLoc(lba, at);
    }

    method PatchEntry(o: nat, name: Name, attr: byte, head: nat, size: nat)
      requires sec.Length == 512 && o + 32 <= 512 && head < TWO16 && size < TWO32
      modifies sec
      ensures EntryPatched(old(sec[..]), sec[..], o, name, attr, head, size)
    {
      for i := 0 to 11
        invariant forall k | 0 <= k < 512 :: sec[k] == if o <= k < o + i then name[k - o] else old(sec[k])
      {
        sec[o + i] := name[i];
      }
      sec[o + 11] := attr;
      sec[o + 26], sec[o + 27] := head % 256, head / 256;
      sec[o + 20], sec[o + 21] := 0, 0;
      var lo, hi := size % TWO16, size / TWO16;
      sec[o + 28], sec[o + 29] := lo % 256, lo / 256;
      sec[o + 30], sec[o + 31] := hi % 256, hi / 256;
    }

    // ----- writing a file -----

    /** Clusters that `len` bytes take. */
    method ClustersFor(len: nat) returns (need: nat)
      requires Mounted() && len + ClusterSize(lay.g) <= TWO32
      ensures need == Need(lay.g, len) && len <= need * ClusterSize(lay.g)
    {
      VolumeShape();
      hide Holds;
      var per := spc * 512;
      need := (len + per - 1) / per;
      CeilDivIsLeast(len, ClusterSize(lay.g), need);
    }

    /** Stores `data` in a new chain, or takes nothing if it does not fit. */
    method StoreData(data: seq<byte>) returns (ok: bool, first: nat, ghost ch: seq<nat>)
      requires Mounted() && |data| + ClusterSize(lay.g) <= TWO32
      modifies this`disk, this`vol, sec
      ensures Mounted()
      ensures ok <==> Need(lay.g, |data|) <= |Free(old(vol).fat)|
      ensures !ok ==> vol == old(vol)
      ensures ok ==> Stored(lay.g, old(vol), vol, data, ch) && first == if ch == [] then 0 else ch[0]
    {
      hide Mounted, VolShape, InRange, Need, Link, ChainBytes, Free;
      VolumeShape();
      ghost var v0 := vol;
      var need := ClustersFor(|data|);
      ok, first, ch := AllocChain(need);
      if ok {
        if ch != [] {
          LinkMakesChain(v0.fat, ch);
        }
        VolumeShape();
        Pour(first, data, ch);
        VolumeShape();
      }
    }

    /** The directory a path component names; the empty one is the root. */
    method ResolveDir(dir: CString) returns (ok: bool, d: nat)
      requires Mounted() && WellFormed(lay.g, vol, sh)
      modifies sec
      ensures Resolve(lay.g, vol, sh, dir) == if ok then Some(d) else None
      ensures ok ==> IsDir(sh, d)
    {
      hide WellFormed, Base, TableOk;
      if dir == [] {
        return true, 0;
      }
      DirIsFine(lay.g, vol, sh, 0);
      var n83 := To83(dir);
      var e, lba, idx;
      ok, e, lba, idx := DirFind(0, n83);
      d := 0;
      if ok && !HasDirAttr(e) {
        ok := false;
      }
      if ok {
        d := HeadOf(e);
        SubDirIsDir(lay.g, vol, sh, n83);
      }
    }

    /** Replaces the file in slot `idx`: the old chain goes first. */
    method ReplaceFile(d: nat, e: Entry, lba: nat, idx: nat, data: seq<byte>) returns (r: int)
      requires Mounted() && WellFormed(lay.g, vol, sh) && IsDir(sh, d)
      requires Located(lay, vol, sh, d, idx, e, lba) && Live(e) && !HasDirAttr(e)
      requires |data| + ClusterSize(lay.g) <= TWO32
      modifies this`disk, this`vol, this`sh, sec
      ensures Mounted() && (r == 0 || r == -1)
      ensures ReplaceOutcome(lay.g, old(vol), old(sh), vol, sh, d, e, data, r)
    {
      hide *;
      ghost var v0, sh0 := vol, sh;
      LocatedPlace(lay, vol, sh, d, idx, e, lba);
      FreedFacts(lay.g, vol, sh, d, idx);
      VolumeShape();
      ClFreeChain(HeadOf(e));
      ghost var v1 := vol;
      LostIntro(v0, v1, HeadOf(e));
      var ok, first;
      ghost var ch;
      ok, first, ch := StoreData(data);
      if !ok {
        ReplaceFails(lay.g, v0, sh0, v1, d, e, data);
        return -1;
      }
      StoredFacts(lay.g, v1, vol, data, ch);
      ReplaceSucceeds(lay, v0, sh0, d, e, idx, data, ch, v1, vol);
      FileEntryIs(e, NameOf(e), ch, |data|);
      CommitEntry(idx, lba, NameOf(e), 0, first, |data|, ChOf(sh0, d));
      sh := CommittedShape(ErasedShape(sh0, e), d, idx, FileEntry(e, NameOf(e), ch, |data|), ch);
      return 0;
    }

    /** Creates a file in a dead slot of `d`, growing the directory if it has none. */
    method CreateFile(d: nat, name: Name, data: seq<byte>) returns (r: int, ghost grew: bool)
      requires Mounted() && WellFormed(lay.g, vol, sh) && IsDir(sh, d)
      requires Find(lay.g, vol, sh, d, name) == None
      requires |data| + ClusterSize(lay.g) <= TWO32
      modifies this`disk, this`vol, this`sh, sec
      ensures Mounted() && (r == 0 || r == -1)
      ensures CreateOutcome(lay.g, old(vol), old(sh), vol, sh, d, name, data, r, grew)
    {
      hide *;
      ghost var v0, sh0 := vol, sh;
      var ok, e, lba, idx;
      ghost var nc;
      ok, e, lba, idx, grew, nc := DirSlot(d);
      if !ok {
        CreateFails(lay, v0, sh0, vol, sh, d, ok, e, lba, idx, grew, nc, name, data);
        return -1, grew;
      }
      ghost var v1, sh1 := vol, sh;
      SlotGotPlace(lay, v0, sh0, v1, sh1, d, e, lba, idx, grew, nc);
      LocatedPlace(lay, v1, sh1, d, idx, e, lba);
      var first;
      ghost var ch;
      ok, first, ch := StoreData(data);
      if !ok {
        CreateFails(lay, v0, sh0, vol, sh, d, true, e, lba, idx, grew, nc, name, data);
        return -1, grew;
      }
      StoredFacts(lay.g, v1, vol, data, ch);
      StoredEntry(lay.g, v1, sh1, vol, data, ch, d, idx);
      CreateSucceeds(lay, v0, sh0, v1, sh1, d, e, lba, idx, grew, nc, name, data, ch, vol);
      FileEntryIs(e, name, ch, |data|);
      CommitEntry(idx, lba, name, 0, first, |data|, ChOf(sh1, d));
      sh := CommittedShape(sh1, d, idx, FileEntry(e, name, ch, |data|), ch);
      return 0, grew;
    }

    /** Creates or replaces a file. */
    method Write(dir: CString, name: CString, data: seq<byte>) returns (r: int)
      requires Mounted() && WellFormed(lay.g, vol, sh) && |data| + ClusterSize(lay.g) <= TWO32
      modifies this`disk, this`vol, this`sh, sec
      ensures Mounted() && (r == 0 || r == -1)
      ensures WriteOutcome(lay.g, old(vol), old(sh), vol, sh, dir, To83Spec(name), data, r)
    {
      ghost var v0, sh0 := vol, sh;
      hide WellFormed, Base, Mounted, CreateOutcome, ReplaceOutcome, Find, Resolve, Located, TableOk, DirOk, EntOf,
           Need;
      var ok, d := ResolveDir(dir);
      if !ok {
        return -1;
      }
      var n83 := To83(name);
      DirIsFine(lay.g, vol, sh, d);
      var exists_, e, lba, idx := DirFind(d, n83);
      if exists_ {
        FoundIsLive(lay, vol, sh, d, n83, idx, e, lba);
        if HasDirAttr(e) {
          return -1;
        }
        r := ReplaceFile(d, e, lba, idx, data);
      } else {
        ghost var grew;
        r, grew := CreateFile(d, n83, data);
      }
    }

    // ----- reading a file -----

    /** Copies the next bytes of the scratch sector into the buffer. */
    method CopyOut(buf: array<byte>, done: nat, want: nat)
      requires sec.Length == 512 && buf != sec && done + want <= buf.Length && want <= 512
      modifies buf
      ensures buf[..done + want] == old(buf[..done]) + sec[..want]
    {
      for i := 0 to want
        invariant buf[..done + i] == old(buf[..done]) + sec[..i]
      {
        buf[done + i] := sec[i];
      }
    }

    /** Reads the next bytes of a file from cluster `n`. */
    method ReadCluster(n: nat, buf: array<byte>, done: nat, size: nat) returns (done2: nat)
      requires Mounted() && 2 <= n < clusters + 2 && done <= size <= buf.Length && buf != sec
      modifies sec, buf
      ensures done2 == Min(size, done + 512 * spc) && n < |vol.data| && |vol.data[n]| == spc
      ensures buf[..done2] == old(buf[..done]) + Flat(vol.data[n])[..done2 - done]
    {
      hide Mounted, InRange, Got, Flat, GeoOk;
      VolumeShape();
      var s := 0;
      done2 := done;
      ghost var b0 := buf[..done];
      GotNone(b0, vol.data[n]);
      while s < spc && done2 < size
        invariant s <= spc && done2 == Min(size, done + 512 * s)
        invariant Got(buf[..done2], b0, vol.data[n], s, done2 - done)
      {
        var want := size - done2;
        if want > 512 {
          want := 512;
        }
        DataLbaIs(n, s);
        ReadLoc(ClusterLba(n) + s, DataAt(n, s));
        ghost var b1 := buf[..done2];
        CopyOut(buf, done2, want);
        GotOne(b1, buf[..done2 + want], b0, vol.data[n], s, done2 - done, want);
        done2 := done2 + want;
        s := s + 1;
      }
      GotAll(buf[..done2], b0, vol.data[n], s, done2 - done);
    }

    /** Reads `size` bytes from the chain `ch`, which holds at least that many. The
        checks for a broken chain in the loop cannot fail on a well-formed volume. */
    method ReadChain(head: nat, size: nat, buf: array<byte>, ghost ch: seq<nat>)
      requires Mounted() && size <= buf.Length && buf != sec && size <= |ch| * ClusterSize(lay.g)
      requires ch != [] ==> IsChain(vol.fat, ch) && Distinct(ch) && ch[0] == head
      modifies sec, buf
      ensures (forall i | 0 <= i < |ch| :: ch[i] < |vol.data|)
      ensures |ChainBytes(vol.data, ch)| >= size && buf[..size] == ChainBytes(vol.data, ch)[..size]
    {
      VolumeShape();
      hide Mounted, InRange;
      var n, done: nat := head, 0;
      ghost var i: nat := 0;
      while done < size
        invariant done <= size && ReadSoFar(lay.g, vol.data, ch, i, size, done, buf[..done])
        invariant i < |ch| ==> n == ch[i]
        decreases |ch| - i
      {
        ReadEnds(lay.g, vol.data, ch, i, size, done, buf[..done]);
        assert 2 <= n < STOP;
        ghost var b0, done0 := buf[..done], done;
        done := ReadCluster(n, buf, done, size);
        ReadStep(lay.g, vol.data, ch, i, size, done0, b0, done, buf[..done]);
        assert i < |ch| - 1 ==> vol.fat[ch[i]] == ch[i + 1];
        n := FatGet(n);
        i := i + 1;
      }
      ReadAll(lay.g, vol.data, ch, i, size, done, buf[..done]);
    }

    /** Reads a whole file into a fresh buffer, if there is memory for one. */
    method Read(dir: CString, name: CString, memory: bool) returns (ok: bool, buf: array<byte>, len: nat)
      requires Mounted() && WellFormed(lay.g, vol, sh)
      modifies sec
      ensures fresh(buf)
      ensures ok <==> memory && Lookup(lay.g, vol, sh, dir, To83Spec(name)).Some?
      ensures ok ==> len <= buf.Length && Lookup(lay.g, vol, sh, dir, To83Spec(name)) == Some(buf[..len])
    {
      hide WellFormed, Base, Mounted, Find, Resolve, Located, TableOk, DirOk, EntOf, Need, ChainBytes, Take, Contents;
      buf, len := new byte[0], 0;
      var d;
      ok, d := ResolveDir(dir);
      if !ok {
        return;
      }
      var n83 := To83(name);
      DirIsFine(lay.g, vol, sh, d);
      var e, lba, idx;
      ok, e, lba, idx := DirFind(d, n83);
      if !ok {
        return;
      }
      FoundIsLive(lay, vol, sh, d, n83, idx, e, lba);
      if HasDirAttr(e) {
        return false, buf, len;
      }
      if !memory {
        return false, buf, len;
      }
      var size := SizeOf(e);
      buf := new byte[if size != 0 then size else 1];
      ghost var ch := FileChain(sh, e);
      FileChainFacts(lay.g, vol, sh, d, idx);
      ReadChain(HeadOf(e), size, buf, ch);
      ContentsAre(lay.g, vol, sh, e, ch);
      len := size;
    }

    // ----- deleting -----

    /** Reads the first byte of a slot for the emptiness scan. For directory number 0
        the scan runs on past the root's own sectors. */
    method ReadFirst(d: nat, idx: nat, ghost ch: seq<nat>) returns (ok: bool, first: byte)
      requires Mounted() && Walks(d, ch) && idx < clusters * spc * 16
      modifies sec
      ensures d != 0 ==> (ok <==> InDir(lay.g, ch, idx))
      ensures d != 0 && ok ==> first == Ent(lay.g, vol, ch, idx)[0]
      ensures RawOk(lay.g, vol, idx) && (d == 0 ==> ok && first == RawByte(lay.g, vol, idx))
    {
      VolumeShape();
      var lba;
      first := 0;
      ok, lba := DirLba(d, idx, ch);
      if ok {
        if d != 0 {
          LbaBounds(lay, |disk|, SlotLoc(lay.g, ch, idx));
          assert disk[lba] == SectorAt(lay.g, vol, SlotLoc(lay.g, ch, idx));
        } else {
          ScanWithinDisk(lay, |disk|, idx);
          RawHeld(lay, disk, vol, idx / 16);
        }
        AtaRead(lba);
        first := sec[(idx % 16) * 32];
      }
    }

    /** Is there nothing live in directory `d` beyond its first two slots? */
    method NothingBeyondDots(d: nat, ghost ch: seq<nat>) returns (empty: bool)
      requires Mounted() && Walks(d, ch) && QuietAfterEnd(lay.g, vol, ch)
      modifies sec
      ensures d != 0 ==> (empty <==> BareDir(lay.g, vol, ch))
      ensures GeoOk(lay.g) && VolShape(lay.g, vol) && (d == 0 ==> (empty <==> RawEmpty(lay.g, vol, 2)))
    {
      hide Mounted, InRange, Walks, QuietAfterEnd, DeadBefore, RawEmpty, BareDir, VolShape, GeoOk, RawByte, Ent, InDir;
      VolumeShape();
      var max := clusters * spc * 16;
      var idx := 2;
      DeadAtStart(lay.g, vol, ch);
      if d != 0 { WalksChain(d, ch); }
      while idx < max
        invariant 2 <= idx
        invariant d != 0 ==> DeadBefore(lay.g, vol, ch, idx)
        invariant d == 0 ==> (RawEmpty(lay.g, vol, 2) <==> RawEmpty(lay.g, vol, idx))
      {
        var ok, first := ReadFirst(d, idx, ch);
        if d == 0 {
          RawStep(lay.g, vol, idx);
        } else if ok {
          DeadStep(lay.g, vol, ch, idx, first);
        } else {
          BareFrom(lay.g, vol, ch, idx);
        }
        if !ok || first == 0 {
          return true;
        }
        if first != DELETED {
          return false;
        }
        idx := idx + 1;
      }
      if d != 0 { BareAtLimit(lay.g, vol, ch, idx); }
      if d == 0 { RawAtLimit(lay.g, vol, idx); }
      empty := true;
    }

    lemma WalksChain(d: nat, ch: seq<nat>)
      requires Walks(d, ch) && d != 0
      ensures GeoOk(lay.g) && DirChain(lay.g, ch) && ch != []
    {
    }

    /** Marks one slot deleted. */
    method EraseEntry(idx: nat, lba: nat, ghost dch: seq<nat>)
      requires Mounted() && DirChain(lay.g, dch) && InDir(lay.g, dch, idx)
      requires lba == LbaOf(lay, SlotLoc(lay.g, dch, idx))
      modifies this`disk, this`vol, sec
      ensures Mounted()
      ensures vol == PutEnt(lay.g, old(vol), dch, idx, Erased(Ent(lay.g, old(vol), dch, idx)))
    {
      VolumeShape();
      hide Holds;
      ghost var at := SlotLoc(lay.g, dch, idx);
      ReadLoc(lba, at);
      ghost var s := sec[..];
      sec[(idx % 16) * 32] := DELETED;
      MarkedIs(s, sec[..], idx % 16);
      WriteLoc(lba, at);
    }

    /** Deletes the entry found at slot `idx`, unless it is a directory with entries. */
    method DeleteAt(d: nat, e: Entry, lba: nat, idx: nat) returns (r: int)
      requires Mounted() && WellFormed(lay.g, vol, sh) && IsDir(sh, d) && Located(lay, vol, sh, d, idx, e, lba)
      requires Live(e)
      modifies this`disk, this`vol, this`sh, sec
      ensures Mounted() && (r == 0 || r == -1)
      ensures DeletedAt(lay.g, old(vol), old(sh), vol, sh, d, idx, r)
    {
      hide *;
      ghost var v0, sh0 := vol, sh;
      VolumeShape();
      LocatedPlace(lay, vol, sh, d, idx, e, lba);
      FoundHead(lay.g, vol, sh, d, idx);
      if HasDirAttr(e) {
        var sub := HeadOf(e);
        DirWalks(sub);
        SubIsQuiet(lay.g, vol, sh, sub);
        var empty := NothingBeyondDots(sub, ChOf(sh, sub));
        DotScanned(lay.g, vol, sh, d, idx, empty);
        if !empty {
          NotErasable(lay.g, vol, sh, d, idx);
          DeleteRefused(lay.g, vol, sh, d, idx);
          return -1;
        }
      }
      DotIsDir(lay.g, vol, sh, d, idx);
      ErasableIf(lay.g, vol, sh, d, idx);
      ClFreeChain(HeadOf(e));
      VolumeShape();
      EraseEntry(idx, lba, ChOf(sh0, d));
      ErasedVolIs(lay.g, v0, sh0, d, idx, vol);
      ghost var dot := DotSlot(d, idx);
      if !dot {
        sh := ErasedShape(sh0, e);
      }
      DeleteDone(lay.g, v0, sh0, vol, sh, d, idx);
      return 0;
    }

    /** Deletes a file or an empty directory. */
    method Delete(dir: CString, name: CString) returns (r: int)
      requires Mounted() && WellFormed(lay.g, vol, sh)
      modifies this`disk, this`vol, this`sh, sec
      ensures Mounted() && (r == 0 || r == -1)
      ensures DeleteOutcome(lay.g, old(vol), old(sh), vol, sh, dir, To83Spec(name), r)
    {
      hide WellFormed, Base, Mounted, Find, Resolve, Located, TableOk, DirOk, EntOf, DeletedAt;
      var ok, d := ResolveDir(dir);
      if !ok {
        return -1;
      }
      var n83 := To83(name);
      DirIsFine(lay.g, vol, sh, d);
      var found, e, lba, idx := DirFind(d, n83);
      if !found {
        return -1;
      }
      FoundIsLive(lay, vol, sh, d, n83, idx, e, lba);
      r := DeleteAt(d, e, lba, idx);
    }

    // ----- making a directory -----

    /** One dot entry, in the cleared scratch sector. */
    method DotEntry(o: nat, dots: nat, cl: nat)
      requires sec.Length == 512 && o + 32 <= 512 && 1 <= dots <= 2 && cl < TWO16
      modifies sec
      ensures EntryPatched(old(sec[..]), sec[..], o, DotNameOf(dots), ATTR_DIR, cl, 0)
    {
      PatchEntry(o, DotNameOf(dots), ATTR_DIR, cl, 0);
    }

    /** Fills the scratch sector with the first sector of a new directory. */
    method FillFirstSector(nc: nat)
      requires sec.Length == 512 && nc < TWO16
      modifies sec
      ensures |sec[..]| == 512 && FreshSector(sec[..], nc)
    {
      ZeroSec();
      DotEntry(0, 1, nc);
      ghost var one := sec[..];
      PatchedIs(ZeroSector(), one, 0, DotNameOf(1), ATTR_DIR, nc, 0);
      DotEntry(32, 2, 0);
      PatchedIs(one, sec[..], 1, DotNameOf(2), ATTR_DIR, 0, 0);
      FirstSectorIs(one, sec[..], nc);
    }

    /** Fills a cluster for a new directory: two dot entries, then never-used slots. */
    method FillDirCluster(nc: nat)
      requires Mounted() && 2 <= nc < clusters + 2
      modifies this`disk, this`vol, sec
      ensures Mounted() && vol == old(vol).(data := vol.data) && DataBut(old(vol).data, vol.data, [nc])
      ensures FreshCluster(lay.g, vol.data[nc], nc)
    {
      VolumeShape();
      hide Mounted, FreshSector;
      FillFirstSector(nc);
      DataLbaIs(nc, 0);
      WriteLoc(ClusterLba(nc), DataAt(nc, 0));
      VolumeShape();
      ZeroCluster(nc, 1);
    }

    /** Makes a directory in the root. */
    method Mkdir(name: CString) returns (r: int)
      requires Mounted() && WellFormed(lay.g, vol, sh)
      modifies this`disk, this`vol, this`sh, sec
      ensures Mounted() && (r == 0 || r == -1)
      ensures MkdirOutcome(lay.g, old(vol), old(sh), vol, sh, To83Spec(name), r)
    {
      hide *;
      ghost var v0, sh0 := vol, sh;
      var n83 := To83(name);
      DirIsFine(lay.g, vol, sh, 0);
      RootIsDir(sh);
      VolumeShape();
      var found, e, lba, idx := DirFind(0, n83);
      if found {
        MkdirRefused(lay.g, vol, sh, n83);
        return -1;
      }
      var ok;
      ghost var grew, gn;
      ok, e, lba, idx, grew, gn := DirSlot(0);
      RootSlot(lay, v0, sh0, vol, sh, ok, e, lba, idx, grew, gn);
      if !ok {
        MkdirRefused(lay.g, vol, sh, n83);
        return -1;
      }
      var nc := ClAlloc();
      if nc < 0 {
        MkdirRefused(lay.g, vol, sh, n83);
        return -1;
      }
      LocatedPlace(lay, v0, sh0, 0, idx, e, lba);
      VolumeShape();
      FillDirCluster(nc);
      VolumeShape();
      ghost var w := vol;
      MadeStep(lay, v0, sh0, idx, n83, nc, w);
      CommitEntry(idx, lba, n83, ATTR_DIR, nc, 0, ChOf(sh0, 0));
      sh := MadeShape(sh0, idx, Committed(e, n83, ATTR_DIR, nc, 0), nc);
      return 0;
    }

    // ----- listing -----

    /** Lists the live entries of a directory, volume labels apart, in slot order. */
    method List(dir: CString) returns (ok: bool, out: seq<Item>, ghost slots: seq<nat>)
      requires Mounted() && WellFormed(lay.g, vol, sh)
      modifies sec
      ensures ok <==> Resolve(lay.g, vol, sh, dir).Some?
      ensures ok ==> Listing(lay.g, vol, sh, Resolve(lay.g, vol, sh, dir).value, slots, out)
    {
      hide WellFormed, Base, Mounted, Resolve, TableOk, DirOk, EntOf, Located, IsScanLimit, Listed, InDir, Listing;
      out, slots := [], [];
      var d;
      ok, d := ResolveDir(dir);
      if !ok {
        return;
      }
      DirIsFine(lay.g, vol, sh, d);
      var max := ScanLimit(d);
      var idx := 0;
      ListedNone(lay.g, vol, sh, d);
      while idx < max
        invariant idx <= max && Listed(lay.g, vol, sh, d, idx, slots, out)
      {
        var in_, e, lba := ReadSlot(d, idx);
        if !in_ || e[0] == 0 {
          if in_ { LocatedPlace(lay, vol, sh, d, idx, e, lba); }
          ListedEnd(lay.g, vol, sh, d, idx, slots, out);
          return;
        }
        LocatedPlace(lay, vol, sh, d, idx, e, lba);
        if e[0] == DELETED || HasVolAttr(e) {
          ListedSkip(lay.g, vol, sh, d, idx, slots, out);
        } else {
          var name := Pretty(e[..11]);
          ListedOne(lay.g, vol, sh, d, idx, slots, out);
          out, slots := out + [Item(name, e[11], SizeOf(e))], slots + [idx];
        }
        idx := idx + 1;
      }
      ListedLimit(lay.g, vol, sh, d, idx, slots, out);
    }

    // ----- mounting -----

    /** The fields are those of the boot sector. */
    ghost predicate FieldsOf(b: Sector)
      reads this`spc, this`reserved, this`fats, this`rootEntries, this`fatSectors
    {
      spc == b[13] && reserved == Le16(b, 14) && fats == 2 && rootEntries == Le16(b, 17) && fatSectors == Le16(b, 22)
    }

    /** The parts of the volume are where the boot sector says. */
    ghost predicate PartsOf(b: Sector)
      requires Sized(b)
      reads this`rootLba, this`dataLba, this`clusters
    {
      var l := ClaimedLayout(b);
      rootLba == RootLba(l) && dataLba == DataLba(l) && clusters == l.g.clusters
    }

    /** Takes the geometry from the boot sector. `v` and `s` are what the disk holds.
        A check that fails late leaves the fields taken before it set. */
    method Mount(ghost v: Vol, ghost s: Shape) returns (r: int)
      requires sec.Length == 512 && FS_LBA < |disk|
      modifies this`spc, this`reserved, this`fats, this`rootEntries, this`fatSectors, this`clusters
      modifies this`rootLba, this`dataLba, this`lay, this`vol, this`sh, this`outer, sec
      ensures r == if MountLayout(disk[FS_LBA]).Some? then 0 else -1
      ensures r == 0 ==> lay == MountLayout(disk[FS_LBA]).value && vol == v && sh == s && outer == disk
      ensures r == 0 && Holds(lay, disk, v) ==> Mounted()
      ensures r != 0 ==> unchanged(this`lay, this`vol, this`sh, this`outer)
      ensures if Signed(disk[FS_LBA]) then FieldsOf(disk[FS_LBA])
              else unchanged(this`spc, this`reserved, this`fats, this`rootEntries, this`fatSectors)
      ensures if Signed(disk[FS_LBA]) && Sized(disk[FS_LBA]) then PartsOf(disk[FS_LBA])
              else unchanged(this`rootLba, this`dataLba, this`clusters)
    {
      hide Holds, RestSame, MountLayout, ClaimedLayout, Signed, Le16, Le32, PartsOf, Mounted;
      ghost var b := disk[FS_LBA];
      if !Signed(b) || !Sized(b) { Unmountable(b); }
      var ok := TakeFields();
      if !ok {
        return -1;
      }
      var total := Le16(sec[..], 19);
      if total == 0 {
        total := Le32(sec[..], 32);
      }
      if spc == 0 || fatSectors == 0 {
        return -1;
      }
      ok := PlaceParts(total, b);
      if !ok {
        return -1;
      }
      lay, vol, sh, outer := ClaimedLayout(b), v, s, disk;
      BecomesMounted(b);
      return 0;
    }

    /** Reads the boot sector, checks its signature, and takes the fields over. */
    method TakeFields() returns (ok: bool)
      requires sec.Length == 512 && FS_LBA < |disk|
      modifies this`spc, this`reserved, this`fats, this`rootEntries, this`fatSectors, sec
      ensures sec[..] == disk[FS_LBA] && ok == Signed(disk[FS_LBA])
      ensures ok ==> FieldsOf(disk[FS_LBA])
      ensures !ok ==> unchanged(this`spc, this`reserved, this`fats, this`rootEntries, this`fatSectors)
    {
      hide Le16;
      AtaRead(FS_LBA);
      if sec[510] != 0x55 || sec[511] != 0xAA {
        return false;
      }
      if Le16(sec[..], 11) != 512 || sec[16] != 2 {
        return false;
      }
      spc, reserved, fats := sec[13], Le16(sec[..], 14), sec[16];
      rootEntries, fatSectors := Le16(sec[..], 17), Le16(sec[..], 22);
      return true;
    }

    /** Works out where the parts are, and whether this is FAT16. */
    method PlaceParts(total: nat, ghost b: Sector) returns (ok: bool)
      requires FieldsOf(b) && Signed(b) && Sized(b) && total == if Le16(b, 19) == 0 then Le32(b, 32) else Le16(b, 19)
      modifies this`rootLba, this`dataLba, this`clusters
      ensures PartsOf(b) && MountLayout(b) == if ok then Some(ClaimedLayout(b)) else None
    {
      hide MountLayout, ClaimedLayout, Le16, Le32, RootLba, DataLba;
      var rootSec := (rootEntries * 32 + 511) / 512;
      rootLba := FS_LBA + reserved + fats * fatSectors;
      dataLba := rootLba + rootSec;
      var dataSec := (total - reserved - fats * fatSectors - rootSec) % TWO32;
      Claims(b, total, dataSec);
      clusters := dataSec / spc;
      ok := clusters >= 4085 && clusters <= 65525;
    }

    lemma BecomesMounted(b: Sector)
      requires sec.Length == 512 && Sized(b) && FieldsOf(b) && PartsOf(b) && lay == ClaimedLayout(b) && outer == disk
      ensures Holds(lay, disk, vol) ==> Mounted()
    {
      hide Holds, RestSame, Le16, Le32, RootLba, DataLba;
      RestUntouched(lay, disk);
    }
  }
}
