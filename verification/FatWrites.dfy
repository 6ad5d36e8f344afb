/** What writing, replacing and deleting a file mean for the whole volume. */
module FatWrites {
  import opened Arith
  import opened Bytes
  import opened FatTable
  import opened FatDir
  import opened FatState
  import opened FatOps
  import opened FatFiles
  import opened FatSteps
  import opened Wrappers

  /** Same directories, and the same files in them except under one key. */
  ghost predicate FilesBut(g: Geo, v: Vol, sh: Shape, v2: Vol, sh2: Shape, d: nat, name: Name) {
    && Base(g, v, sh) && Base(g, v2, sh2)
    && (forall x: nat :: IsDir(sh, x) <==> IsDir(sh2, x))
    && (forall x: nat, n: Name | IsDir(sh, x) && (x != d || n != name) ::
       File(g, v2, sh2, x, n) == File(g, v, sh, x, n))
    && (forall n: Name :: SubDir(g, v2, sh2, n) == SubDir(g, v, sh, n))
  }

  /** The name is there as a plain file: no attributes, and this size. */
  ghost predicate Plain(g: Geo, v: Vol, sh: Shape, d: nat, name: Name, size: nat)
    requires Base(g, v, sh) && IsDir(sh, d)
  {
    var i := Find(g, v, sh, d, name);
    i.Some? && var e := EntOf(g, v, sh, d, i.value); e[11] == 0 && SizeOf(e) == size
  }

  /** The volume `v2` is `v` with the file (d, name) set to `f`. */
  ghost predicate FileSet(g: Geo, v: Vol, sh: Shape, v2: Vol, sh2: Shape, d: nat, name: Name, f: Option<seq<byte>>) {
    && WellFormed(g, v2, sh2) && IsDir(sh2, d)
    && FilesBut(g, v, sh, v2, sh2, d, name)
    && File(g, v2, sh2, d, name) == f
    && (f.Some? ==> Plain(g, v2, sh2, d, name, |f.value|))
  }

  // ----- one slot -----

  lemma OneSlotFiles(g: Geo, v: Vol, sh: Shape, v2: Vol, sh2: Shape, d: nat, idx: nat, e: Entry, name: Name)
    requires WellFormed(g, v, sh) && WellFormed(g, v2, sh2) && IsDir(sh, d) && InDir(g, ChOf(sh, d), idx)
    requires OneSlot(g, v, sh, v2, sh2, d, idx, e) && DataKept(v, sh, v2, sh2)
    requires forall x: nat :: IsDir(sh, x) <==> IsDir(sh2, x)
    requires Live(EntOf(g, v, sh, d, idx)) ==>
               NameOf(EntOf(g, v, sh, d, idx)) == name && !HasDirAttr(EntOf(g, v, sh, d, idx))
    requires Live(e) ==> NameOf(e) == name && !HasDirAttr(e)
    requires Live(EntOf(g, v, sh, d, idx)) || Find(g, v, sh, d, name) == None
    requires Live(e) || Find(g, v2, sh2, d, name) == None
    ensures FilesBut(g, v, sh, v2, sh2, d, name)
  {
    forall x: nat, n: Name | IsDir(sh, x) && (x != d || n != name)
      ensures File(g, v2, sh2, x, n) == File(g, v, sh, x, n)
    {
      SlotFacts(g, v, sh, v2, sh2, d, idx, e, x);
      OtherFilesKept(g, v, sh, v2, sh2, d, idx, e, x, n);
    }
    forall n: Name ensures SubDir(g, v2, sh2, n) == SubDir(g, v, sh, n) {
      SlotFacts(g, v, sh, v2, sh2, d, idx, e, 0);
      if d == 0 && n == name {
        NoSubDirOfFile(g, v, sh, n, idx);
        NoSubDirOfFile(g, v2, sh2, n, idx);
      } else {
        OtherMatchesKept(g, v, sh, v2, sh2, d, idx, e, 0, n);
        SubDirKept(g, v, sh, v2, sh2, n);
      }
    }
  }

  lemma SlotFacts(g: Geo, v: Vol, sh: Shape, v2: Vol, sh2: Shape, d: nat, idx: nat, e: Entry, x: nat)
    requires WellFormed(g, v, sh) && WellFormed(g, v2, sh2) && IsDir(sh, x) && IsDir(sh2, x)
    requires OneSlot(g, v, sh, v2, sh2, d, idx, e)
    ensures SlotsBut(g, v, sh, v2, sh2, x, d, idx, e) && DirOk(g, v, sh, x) && DirOk(g, v2, sh2, x)
    ensures TableOk(g, v, sh, x)
  {
  }

  lemma NoSubDirOfFile(g: Geo, v: Vol, sh: Shape, name: Name, idx: nat)
    requires Base(g, v, sh) && TableOk(g, v, sh, 0)
    requires Find(g, v, sh, 0, name) == None || (Match(g, v, sh, 0, name, idx) && !HasDirAttr(EntOf(g, v, sh, 0, idx)))
    ensures SubDir(g, v, sh, name) == None
  {
    if Match(g, v, sh, 0, name, idx) {
      FindIs(g, v, sh, 0, name, idx);
    }
  }

  // ----- creating -----

  /** The entry a file write leaves in a slot. */
  function FileEntry(old_: Entry, name: Name, ch: seq<nat>, size: nat): Entry
    requires size < TWO32 && (ch != [] ==> ch[0] < TWO16)
  {
    Committed(old_, name, 0, if ch == [] then 0 else ch[0], size)
  }

  lemma NeedZero(g: Geo, n: nat)
    requires GeoOk(g)
    ensures Need(g, n) == 0 <==> n == 0
  {
    CeilDivIsLeast(n, ClusterSize(g), 0);
  }

  /** The slot's directory after the commit, and what the new chain holds. */
  lemma CreatedFacts(g: Geo, v: Vol, sh: Shape, v2: Vol, sh2: Shape, d: nat, idx: nat, e: Entry, ch: seq<nat>,
                     data2: seq<seq<Sector>>)
    requires Base(g, v, sh) && Base(g, v2, sh2) && IsDir(sh, d) && InDir(g, ChOf(sh, d), idx) && !HasDirAttr(e)
    requires sh2 == CommittedShape(sh, d, idx, e, ch) && OneSlot(g, v, sh, v2, sh2, d, idx, e)
    requires ch != [] ==> ch[0] !in sh.nodes
    requires |v2.data| == |data2| && forall i | 0 <= i < |ch| :: ch[i] < |data2| && v2.data[ch[i]] == data2[ch[i]]
    ensures forall x: nat :: IsDir(sh, x) <==> IsDir(sh2, x)
    ensures InDir(g, ChOf(sh2, d), idx) && EntOf(g, v2, sh2, d, idx) == e
    ensures ch != [] ==> ch[0] in sh2.nodes && sh2.nodes[ch[0]].chain == ch
    ensures ChainBytes(v2.data, ch) == ChainBytes(data2, ch)
  {
    hide ChainsOk, VolShape;
    assert IsDir(sh2, d);
    assert SlotsBut(g, v, sh, v2, sh2, d, d, idx, e);
    ChainBytesFrame(v2.data, data2, ch);
  }

  lemma CreatedFiles(g: Geo, v: Vol, sh: Shape, v2: Vol, sh2: Shape, d: nat, idx: nat, e: Entry, name: Name,
                     bytes: seq<byte>, ch: seq<nat>, data2: seq<seq<Sector>>)
    requires WellFormed(g, v, sh) && WellFormed(g, v2, sh2) && IsDir(sh, d)
    requires InDir(g, ChOf(sh, d), idx) && !Live(EntOf(g, v, sh, d, idx)) && Find(g, v, sh, d, name) == None
    requires sh2 == CommittedShape(sh, d, idx, e, ch) && OneSlot(g, v, sh, v2, sh2, d, idx, e)
    requires DataKept(v, sh, v2, sh2)
    requires Live(e) && NameOf(e) == name && !HasDirAttr(e) && e[11] == 0 && SizeOf(e) == |bytes|
    requires ch != [] ==> ch[0] !in sh.nodes && HeadOf(e) == ch[0] && bytes != []
    requires ch == [] ==> bytes == []
    requires |v2.data| == |data2| && forall i | 0 <= i < |ch| :: ch[i] < |data2| && v2.data[ch[i]] == data2[ch[i]]
    requires Take(ChainBytes(data2, ch), |bytes|) == bytes
    ensures FileSet(g, v, sh, v2, sh2, d, name, Some(bytes))
  {
    hide WellFormed, ChainsOk, OneSlot, DataKept, FilesBut, SlotsBut, CommittedShape, DirOk, TableOk;
    CreatedFacts(g, v, sh, v2, sh2, d, idx, e, ch, data2);
    SlotFacts(g, v, sh, v2, sh2, d, idx, e, d);
    OneSlotFiles(g, v, sh, v2, sh2, d, idx, e, name);
    CommitSetsFile(g, v2, sh2, d, idx, e, ch);
  }

  /** Writing `bytes` to a new file in a vacant slot sets that file and nothing else. */
  /** The new entry is right for its slot. */
  lemma CreatableEntry(g: Geo, v: Vol, sh: Shape, d: nat, idx: nat, name: Name, bytes: seq<byte>, ch: seq<nat>)
    requires WellFormed(g, v, sh) && IsDir(sh, d) && Vacant(g, v, sh, d, idx) && LiveName(name)
    requires Find(g, v, sh, d, name) == None && |bytes| < TWO32 && |ch| == Need(g, |bytes|)
    requires FreeClusters(g, v, ch)
    ensures GeoOk(g) && InDir(g, ChOf(sh, d), idx) && !Live(EntOf(g, v, sh, d, idx)) && (ch == [] <==> bytes == [])
    ensures ch != [] ==> ch[0] < TWO16
    ensures var e := FileEntry(EntOf(g, v, sh, d, idx), name, ch, |bytes|);
            && Live(e) && NameOf(e) == name && !HasDirAttr(e) && e[11] == 0 && SizeOf(e) == |bytes|
            && (ch != [] ==> HeadOf(e) == ch[0]) && Committable(g, v, sh, d, idx, e, ch)
  {
    hide WellFormed, ChainsOk, Live, NameOf, HeadOf, SizeOf, EntOf, Need, Committed, InRange;
    NeedZero(g, |bytes|);
  }

  lemma CommittedChain(g: Geo, v: Vol, sh: Shape, d: nat, idx: nat, e: Entry, ch: seq<nat>, data2: seq<seq<Sector>>)
    requires Base(g, v, sh) && IsDir(sh, d) && InDir(g, ChOf(sh, d), idx)
    requires FreeClusters(g, v, ch) && DataShape(g, data2) && DataBut(v.data, data2, ch)
    requires Base(g, CommittedVol(g, v, sh, d, idx, e, ch, data2), CommittedShape(sh, d, idx, e, ch))
    requires ch != [] ==> ch[0] !in sh.nodes
    ensures var v2 := CommittedVol(g, v, sh, d, idx, e, ch, data2);
            |v2.data| == |data2| && forall i | 0 <= i < |ch| :: ch[i] < |data2| && v2.data[ch[i]] == data2[ch[i]]
  {
    hide ChainsOk, CommittedVol, CommittedShape, InRange, DataBut, ChOf, InDir;
    CommittedVolData(g, v, sh, d, idx, e, ch, data2);
  }

  lemma CreateStep(g: Geo, v: Vol, sh: Shape, d: nat, idx: nat, name: Name, bytes: seq<byte>, ch: seq<nat>,
                   data2: seq<seq<Sector>>)
    requires WellFormed(g, v, sh) && IsDir(sh, d) && Vacant(g, v, sh, d, idx) && LiveName(name)
    requires Find(g, v, sh, d, name) == None
    requires |bytes| < TWO32 && |ch| == Need(g, |bytes|)
    requires FreeClusters(g, v, ch) && DataShape(g, data2) && DataBut(v.data, data2, ch)
    requires Take(ChainBytes(data2, ch), |bytes|) == bytes
    ensures var e := FileEntry(EntOf(g, v, sh, d, idx), name, ch, |bytes|);
            FileSet(g, v, sh, CommittedVol(g, v, sh, d, idx, e, ch, data2), CommittedShape(sh, d, idx, e, ch), d, name,
                Some(bytes))
  {
    hide WellFormed, Base, FileSet, CommittedVol, CommittedShape, Committable, FileEntry, Vacant, Live, NameOf, HeadOf,
         SizeOf, HasDirAttr, FreeClusters, DataShape, DataBut, VolShape, Find, EntOf, OneSlot, DataKept;
    CreatableEntry(g, v, sh, d, idx, name, bytes, ch);
    var e := FileEntry(EntOf(g, v, sh, d, idx), name, ch, |bytes|);
    var v2, sh2 := CommittedVol(g, v, sh, d, idx, e, ch, data2), CommittedShape(sh, d, idx, e, ch);
    CommittedVolBase(g, v, sh, d, idx, e, ch, data2);
    CommitStep(g, v, sh, d, idx, e, ch, data2);
    CommittedChain(g, v, sh, d, idx, e, ch, data2);
    CreatedFiles(g, v, sh, v2, sh2, d, idx, e, name, bytes, ch, data2);
  }

  // ----- erasing -----

  lemma RemovedFiles(g: Geo, v: Vol, sh: Shape, v2: Vol, sh2: Shape, d: nat, idx: nat)
    requires WellFormed(g, v, sh) && WellFormed(g, v2, sh2) && IsDir(sh, d) && InDir(g, ChOf(sh, d), idx)
    requires Live(EntOf(g, v, sh, d, idx)) && !HasDirAttr(EntOf(g, v, sh, d, idx))
    requires OneSlot(g, v, sh, v2, sh2, d, idx, Erased(EntOf(g, v, sh, d, idx))) && DataKept(v, sh, v2, sh2)
    requires forall x: nat :: IsDir(sh, x) <==> IsDir(sh2, x)
    ensures Find(g, v2, sh2, d, NameOf(EntOf(g, v, sh, d, idx))) == None
    ensures FileSet(g, v, sh, v2, sh2, d, NameOf(EntOf(g, v, sh, d, idx)), None)
  {
    var e := EntOf(g, v, sh, d, idx);
    SlotFacts(g, v, sh, v2, sh2, d, idx, Erased(e), d);
    hide WellFormed, ChainsOk, OneSlot, DataKept, FilesBut, DirOk, TableOk;
    EraseRemovesFile(g, v, sh, v2, sh2, d, idx);
    hide SlotsBut;
    OneSlotFiles(g, v, sh, v2, sh2, d, idx, Erased(e), NameOf(e));
  }

  /** Erasing a file's entry and freeing its chain removes that file and nothing else. */
  lemma RemoveStep(g: Geo, v: Vol, sh: Shape, d: nat, idx: nat)
    requires WellFormed(g, v, sh) && IsDir(sh, d) && Erasable(g, v, sh, d, idx)
    requires !HasDirAttr(EntOf(g, v, sh, d, idx))
    ensures var e := EntOf(g, v, sh, d, idx);
            && OwnsItsChain(sh, e, d, idx)
            && FileSet(g, v, sh, ErasedVol(g, v, sh, d, idx), ErasedShape(sh, e), d, NameOf(e), None)
            && Find(g, ErasedVol(g, v, sh, d, idx), ErasedShape(sh, e), d, NameOf(e)) == None
  {
    hide WellFormed, ChainsOk, FileSet, ErasedVol;
    var e := EntOf(g, v, sh, d, idx);
    EraseStep(g, v, sh, d, idx);
    var v2, sh2 := ErasedVol(g, v, sh, d, idx), ErasedShape(sh, e);
    assert forall x: nat :: IsDir(sh, x) <==> IsDir(sh2, x);
    RemovedFiles(g, v, sh, v2, sh2, d, idx);
  }

  // ----- replacing -----

  lemma PutEntryTwice(s: Sector, k: nat, a: Entry, b: Entry)
    requires k < 16
    ensures PutEntryIn(PutEntryIn(s, k, a), k, b) == PutEntryIn(s, k, b)
  {
    var t := PutEntryIn(s, k, a);
    assert t[..32 * k] == s[..32 * k] && t[32 * k + 32..] == s[32 * k + 32..];
  }

  lemma PutEntTwice(g: Geo, v: Vol, ch: seq<nat>, idx: nat, a: Entry, b: Entry)
    requires GeoOk(g) && VolShape(g, v) && DirChain(g, ch) && InDir(g, ch, idx)
    ensures PutEnt(g, PutEnt(g, v, ch, idx, a), ch, idx, b) == PutEnt(g, v, ch, idx, b)
  {
    hide InRange, PutEntryIn, SlotLoc;
    var l := SlotLoc(g, ch, idx);
    var s := SectorAt(g, v, l);
    PutEntryTwice(s, idx % 16, a, b);
    PutSectorTwice(g, v, l, PutEntryIn(s, idx % 16, a), PutEntryIn(s, idx % 16, b));
  }

  lemma PutSectorTwice(g: Geo, v: Vol, l: Loc, a: Sector, b: Sector)
    requires VolShape(g, v) && LocOk(g, l)
    ensures PutSector(g, PutSector(g, v, l, a), l, b) == PutSector(g, v, l, b)
  {
    var x, y := PutSector(g, PutSector(g, v, l, a), l, b), PutSector(g, v, l, b);
    match l
    case RootAt(i) => assert x.root == y.root;
    case DataAt(n, s) =>
      var c: seq<Sector> := v.data[n];
      assert c[s := a][s := b] == c[s := b];
      assert x.data == y.data;
  }

  lemma EntryAfterErasing(e: Entry, name: Name, ch: seq<nat>, size: nat)
    requires size < TWO32 && (ch != [] ==> ch[0] < TWO16)
    ensures FileEntry(Erased(e), name, ch, size) == FileEntry(e, name, ch, size)
  {
    var z := Erased(e);
    assert z[12..20] == e[12..20] && z[22..26] == e[22..26];
  }

  /** Erasing the slot in both, two volumes that differ only at `ch` still do. */
  lemma ErasedDataBut(g: Geo, v: Vol, w: Vol, dch: seq<nat>, idx: nat, a: Entry, ch: seq<nat>)
    requires GeoOk(g) && VolShape(g, v) && VolShape(g, w) && DirChain(g, dch) && InDir(g, dch, idx)
    requires DataBut(v.data, w.data, ch) && forall i | 0 <= i < |dch| :: dch[i] !in ch
    ensures DataBut(PutEnt(g, v, dch, idx, a).data, PutEnt(g, w, dch, idx, a).data, ch)
    ensures forall n | 0 <= n < |w.data| && n in ch :: PutEnt(g, w, dch, idx, a).data[n] == w.data[n]
  {
    hide InRange, PutEntryIn;
    if dch != [] {
      assert dch[Quot(idx, Per(g))] !in ch;
    }
  }

  lemma FilesButCompose(g: Geo, v: Vol, sh: Shape, v1: Vol, sh1: Shape, v2: Vol, sh2: Shape, d: nat, name: Name)
    requires FilesBut(g, v, sh, v1, sh1, d, name) && FilesBut(g, v1, sh1, v2, sh2, d, name)
    ensures FilesBut(g, v, sh, v2, sh2, d, name)
  {
    hide Base, File, SubDir;
    forall x: nat, n: Name | IsDir(sh, x) && (x != d || n != name)
      ensures File(g, v2, sh2, x, n) == File(g, v, sh, x, n)
    {
      assert IsDir(sh1, x);
    }
    forall n: Name ensures SubDir(g, v2, sh2, n) == SubDir(g, v, sh, n) {
      assert SubDir(g, v1, sh1, n) == SubDir(g, v, sh, n);
    }
  }

  lemma ErasedIsVacant(g: Geo, v: Vol, sh: Shape, v1: Vol, sh1: Shape, d: nat, idx: nat)
    requires Base(g, v, sh) && Base(g, v1, sh1) && IsDir(sh, d) && IsDir(sh1, d) && TableOk(g, v, sh, d)
    requires InDir(g, ChOf(sh, d), idx) && !IsDot(d, idx) && Live(EntOf(g, v, sh, d, idx))
    requires SlotsBut(g, v, sh, v1, sh1, d, d, idx, Erased(EntOf(g, v, sh, d, idx)))
    ensures Vacant(g, v1, sh1, d, idx)
  {
    hide ChainsOk, VolShape;
    forall j | 0 <= j < idx && InDir(g, ChOf(sh, d), j) ensures EntOf(g, v1, sh1, d, j)[0] != 0 {
      assert EntOf(g, v, sh, d, j)[0] != 0;
    }
  }

  /** A directory outlives the deletion of a file. */
  lemma DirOutlives(sh: Shape, e: Entry, d: nat, x: nat, idx: nat)
    requires IsDir(sh, x) && !HasDirAttr(e) && OwnsItsChain(sh, e, d, idx)
    ensures IsDir(ErasedShape(sh, e), x) && ChOf(ErasedShape(sh, e), x) == ChOf(sh, x)
  {
  }

  lemma SlotNow(g: Geo, v: Vol, sh: Shape, v2: Vol, sh2: Shape, d: nat, idx: nat, e: Entry)
    requires Base(g, v, sh) && Base(g, v2, sh2) && IsDir(sh, d) && IsDir(sh2, d) && InDir(g, ChOf(sh, d), idx)
    requires SlotsBut(g, v, sh, v2, sh2, d, d, idx, e)
    ensures InDir(g, ChOf(sh2, d), idx) && EntOf(g, v2, sh2, d, idx) == e
  {
    hide Base;
  }

  lemma OwnHead(sh: Shape, e: Entry, d: nat, idx: nat)
    requires OwnsItsChain(sh, e, d, idx)
    ensures HeadOf(e) == 0 || HeadOf(e) in sh.nodes
  {
  }

  lemma ShortHead(g: Geo, v: Vol, ch: seq<nat>)
    requires GeoOk(g) && VolShape(g, v) && FreeClusters(g, v, ch)
    ensures ch != [] ==> ch[0] < TWO16
  {
  }

  lemma ErasedSlotVacant(g: Geo, v: Vol, sh: Shape, d: nat, idx: nat)
    requires WellFormed(g, v, sh) && IsDir(sh, d) && InDir(g, ChOf(sh, d), idx) && !IsDot(d, idx)
    requires Live(EntOf(g, v, sh, d, idx)) && !HasDirAttr(EntOf(g, v, sh, d, idx))
    requires var e := EntOf(g, v, sh, d, idx);
             OwnsItsChain(sh, e, d, idx) && Base(g, ErasedVol(g, v, sh, d, idx), ErasedShape(sh, e))
    ensures var v1, sh1 := ErasedVol(g, v, sh, d, idx), ErasedShape(sh, EntOf(g, v, sh, d, idx));
            && IsDir(sh1, d) && ChOf(sh1, d) == ChOf(sh, d)
            && Vacant(g, v1, sh1, d, idx) && EntOf(g, v1, sh1, d, idx) == Erased(EntOf(g, v, sh, d, idx))
  {
    hide *;
    DirIsFine(g, v, sh, d);
    var e := EntOf(g, v, sh, d, idx);
    OwnHead(sh, e, d, idx);
    var v1, sh1 := ErasedVol(g, v, sh, d, idx), ErasedShape(sh, e);
    DirOutlives(sh, e, d, d, idx);
    ErasedVolSlots(g, v, sh, d, idx, d);
    SlotNow(g, v, sh, v1, sh1, d, idx, Erased(e));
    ErasedIsVacant(g, v, sh, v1, sh1, d, idx);
  }

  lemma DirIsFine(g: Geo, v: Vol, sh: Shape, d: nat)
    requires WellFormed(g, v, sh) && IsDir(sh, d)
    ensures DirOk(g, v, sh, d) && TableOk(g, v, sh, d)
  {
  }

  /** Writing one slot of two volumes with the same root and the same sector there. */
  lemma SameSlotWritten(g: Geo, v: Vol, w: Vol, dch: seq<nat>, idx: nat, a: Entry)
    requires GeoOk(g) && VolShape(g, v) && VolShape(g, w) && DirChain(g, dch) && InDir(g, dch, idx)
    requires v.root == w.root
    ensures PutEnt(g, v, dch, idx, a).root == PutEnt(g, w, dch, idx, a).root
  {
  }

  /** `w` is `v1` with the chain `ch` written, before the entry is: all that the
      replacement has to show about it. */
  lemma ReplaceOver(g: Geo, v: Vol, v1: Vol, w: Vol, dch: seq<nat>, idx: nat, er: Entry, e2: Entry, ch: seq<nat>)
    requires GeoOk(g) && VolShape(g, v) && VolShape(g, v1) && VolShape(g, w) && DirChain(g, dch) && InDir(g, dch, idx)
    requires v1 == PutEnt(g, v, dch, idx, er).(fat := v1.fat)
    requires FreeClusters(g, v1, ch) && w.fat == Link(v1.fat, ch) && w.root == v.root
    requires DataBut(v.data, w.data, ch) && forall i | 0 <= i < |dch| :: dch[i] !in ch
    ensures var data1 := PutEnt(g, w, dch, idx, er).data;
            && DataShape(g, data1) && DataBut(v1.data, data1, ch) && ChainBytes(data1, ch) == ChainBytes(w.data, ch)
            && PutEnt(g, Staged(g, v1, ch, data1), dch, idx, e2) == PutEnt(g, w, dch, idx, e2)
  {
    var data1 := PutEnt(g, w, dch, idx, er).data;
    ErasedDataBut(g, v, w, dch, idx, er, ch);
    SameSlotWritten(g, v, w, dch, idx, er);
    PutEntTwice(g, w, dch, idx, er, e2);
    assert Staged(g, v1, ch, data1) == PutEnt(g, w, dch, idx, er);
    ChainBytesFrame(data1, w.data, ch);
  }

  /** Replacing a file (freeing its chain, writing `bytes` to a new one and
      rewriting its entry) sets that file and nothing else. */
  lemma ReplaceStep(g: Geo, v: Vol, sh: Shape, d: nat, idx: nat, bytes: seq<byte>, ch: seq<nat>, w: Vol)
    requires WellFormed(g, v, sh) && IsDir(sh, d) && InDir(g, ChOf(sh, d), idx) && !IsDot(d, idx)
    requires DirChain(g, ChOf(sh, d))
    requires Live(EntOf(g, v, sh, d, idx)) && !HasDirAttr(EntOf(g, v, sh, d, idx))
    requires var e := EntOf(g, v, sh, d, idx);
             OwnsItsChain(sh, e, d, idx) && Base(g, ErasedVol(g, v, sh, d, idx), ErasedShape(sh, e))
    requires |bytes| < TWO32 && |ch| == Need(g, |bytes|)
    requires FreeClusters(g, ErasedVol(g, v, sh, d, idx), ch)
    requires VolShape(g, w) && w.root == v.root && w.fat == Link(ErasedVol(g, v, sh, d, idx).fat, ch)
    requires DataBut(v.data, w.data, ch)
    requires Take(ChainBytes(w.data, ch), |bytes|) == bytes
    ensures var e := EntOf(g, v, sh, d, idx);
            var e2 := FileEntry(e, NameOf(e), ch, |bytes|);
            FileSet(g, v, sh, PutEnt(g, w, ChOf(sh, d), idx, e2),
                    CommittedShape(ErasedShape(sh, e), d, idx, e2, ch), d, NameOf(e), Some(bytes))
  {
    hide *;
    var e, dch := EntOf(g, v, sh, d, idx), ChOf(sh, d);
    var name := NameOf(e);
    OwnHead(sh, e, d, idx);
    ErasableFile(g, v, sh, d, idx);
    ErasedVolParts(g, v, sh, d, idx);
    ShortHead(g, ErasedVol(g, v, sh, d, idx), ch);
    var e2 := FileEntry(e, name, ch, |bytes|);
    var v1, sh1 := ErasedVol(g, v, sh, d, idx), ErasedShape(sh, e);
    RemoveStep(g, v, sh, d, idx);
    RemovedIs(g, v, sh, v1, sh1, d, name);
    ErasedSlotVacant(g, v, sh, d, idx);
    DirNotFree(g, v1, sh1, d, ch);
    ReplaceOver(g, v, v1, w, dch, idx, Erased(e), e2, ch);
    EntryAfterErasing(e, name, ch, |bytes|);
    var data1 := PutEnt(g, w, dch, idx, Erased(e)).data;
    CreateStep(g, v1, sh1, d, idx, name, bytes, ch, data1);
    CommittedVolIs(g, v1, sh1, d, idx, e2, ch, data1);
    SetAfterBut(g, v, sh, v1, sh1, PutEnt(g, w, dch, idx, e2), CommittedShape(sh1, d, idx, e2, ch), d, name,
        Some(bytes));
  }

  /** What ReplaceStep needs to know of its parts. */
  lemma ErasableFile(g: Geo, v: Vol, sh: Shape, d: nat, idx: nat)
    requires Base(g, v, sh) && IsDir(sh, d) && InDir(g, ChOf(sh, d), idx) && !IsDot(d, idx)
    requires Live(EntOf(g, v, sh, d, idx)) && !HasDirAttr(EntOf(g, v, sh, d, idx))
    ensures Erasable(g, v, sh, d, idx) && GeoOk(g) && VolShape(g, v)
    ensures LiveName(NameOf(EntOf(g, v, sh, d, idx)))
  {
    hide ChainsOk, VolShape;
  }

  lemma RemovedIs(g: Geo, v: Vol, sh: Shape, v1: Vol, sh1: Shape, d: nat, name: Name)
    requires FileSet(g, v, sh, v1, sh1, d, name, None)
    ensures WellFormed(g, v1, sh1) && IsDir(sh1, d) && FilesBut(g, v, sh, v1, sh1, d, name) && VolShape(g, v1)
  {
    hide WellFormed, FilesBut;
  }

  lemma ErasedVolParts(g: Geo, v: Vol, sh: Shape, d: nat, idx: nat)
    requires Base(g, v, sh) && IsDir(sh, d) && InDir(g, ChOf(sh, d), idx) && DirChain(g, ChOf(sh, d))
    requires var h := HeadOf(EntOf(g, v, sh, d, idx)); h == 0 || h in sh.nodes
    ensures var v1 := ErasedVol(g, v, sh, d, idx);
            v1 == PutEnt(g, v, ChOf(sh, d), idx, Erased(EntOf(g, v, sh, d, idx))).(fat := v1.fat) && VolShape(g, v1)
  {
    ErasedVolBase(g, v, sh, d, idx);
  }

  lemma CommittedVolIs(g: Geo, v: Vol, sh: Shape, d: nat, idx: nat, e: Entry, ch: seq<nat>, data2: seq<seq<Sector>>)
    requires Base(g, v, sh) && IsDir(sh, d) && InDir(g, ChOf(sh, d), idx) && DirChain(g, ChOf(sh, d))
    requires FreeClusters(g, v, ch) && DataShape(g, data2)
    ensures CommittedVol(g, v, sh, d, idx, e, ch, data2) == PutEnt(g, Staged(g, v, ch, data2), ChOf(sh, d), idx, e)
  {
  }

  lemma SetAfterBut(g: Geo, v: Vol, sh: Shape, v1: Vol, sh1: Shape, v2: Vol, sh2: Shape, d: nat, name: Name,
                    f: Option<seq<byte>>)
    requires FilesBut(g, v, sh, v1, sh1, d, name) && FileSet(g, v1, sh1, v2, sh2, d, name, f)
    ensures FileSet(g, v, sh, v2, sh2, d, name, f)
  {
    hide FilesBut, WellFormed, File, Plain;
    FilesButCompose(g, v, sh, v1, sh1, v2, sh2, d, name);
  }

  lemma DirNotFree(g: Geo, v: Vol, sh: Shape, d: nat, ch: seq<nat>)
    requires Base(g, v, sh) && IsDir(sh, d) && FreeClusters(g, v, ch)
    ensures forall i | 0 <= i < |ChOf(sh, d)| :: ChOf(sh, d)[i] !in ch
  {
    forall i | 0 <= i < |ChOf(sh, d)| ensures ChOf(sh, d)[i] !in ch {
      FreeNotOwned(g, v, sh, ch, d, i);
    }
  }

  // ----- growing -----

  /** Every file and directory name as before. */
  ghost predicate FilesSame(g: Geo, v: Vol, sh: Shape, v2: Vol, sh2: Shape) {
    && Base(g, v, sh) && Base(g, v2, sh2)
    && (forall x: nat :: IsDir(sh, x) <==> IsDir(sh2, x))
    && (forall x: nat, n: Name | IsDir(sh, x) :: File(g, v2, sh2, x, n) == File(g, v, sh, x, n))
    && (forall n: Name :: SubDir(g, v2, sh2, n) == SubDir(g, v, sh, n))
  }

  lemma GrowKeepsDirs(g: Geo, v: Vol, sh: Shape, v2: Vol, sh2: Shape, d: nat, nc: nat)
    requires Base(g, v, sh) && Base(g, v2, sh2) && IsDir(sh, d) && Grown(g, v, sh, v2, sh2, d, nc)
    ensures forall x: nat :: IsDir(sh, x) <==> IsDir(sh2, x)
  {
    hide ChainsOk, VolShape;
  }

  lemma GrowKeepsFile(g: Geo, v: Vol, sh: Shape, v2: Vol, sh2: Shape, d: nat, nc: nat, x: nat, n: Name)
    requires WellFormed(g, v, sh) && WellFormed(g, v2, sh2) && IsDir(sh, d)
    requires Grown(g, v, sh, v2, sh2, d, nc) && DataKept(v, sh, v2, sh2) && IsDir(sh, x) && IsDir(sh2, x)
    ensures File(g, v2, sh2, x, n) == File(g, v, sh, x, n)
    ensures MatchesKept(g, v, sh, v2, sh2, x, n)
  {
    DirIsFine(g, v, sh, x);
    DirIsFine(g, v2, sh2, x);
    hide *;
    GrowFiles(g, v, sh, v2, sh2, d, nc, x, n);
  }

  lemma GrowKeepsFiles(g: Geo, v: Vol, sh: Shape, v2: Vol, sh2: Shape, d: nat, nc: nat)
    requires WellFormed(g, v, sh) && WellFormed(g, v2, sh2) && IsDir(sh, d)
    requires Grown(g, v, sh, v2, sh2, d, nc) && DataKept(v, sh, v2, sh2)
    ensures FilesSame(g, v, sh, v2, sh2)
  {
    hide WellFormed, Base, Grown, DataKept, File, SubDir, MatchesKept, TableOk, DirOk;
    GrowKeepsDirs(g, v, sh, v2, sh2, d, nc);
    DirIsFine(g, v, sh, 0);
    forall x: nat, n: Name | IsDir(sh, x) ensures File(g, v2, sh2, x, n) == File(g, v, sh, x, n) {
      GrowKeepsFile(g, v, sh, v2, sh2, d, nc, x, n);
    }
    forall n: Name ensures SubDir(g, v2, sh2, n) == SubDir(g, v, sh, n) {
      GrowKeepsFile(g, v, sh, v2, sh2, d, nc, 0, n);
      SubDirKept(g, v, sh, v2, sh2, n);
    }
  }

  lemma SameThenSet(g: Geo, v: Vol, sh: Shape, v1: Vol, sh1: Shape, v2: Vol, sh2: Shape, d: nat, name: Name,
                    f: Option<seq<byte>>)
    requires FilesSame(g, v, sh, v1, sh1) && FileSet(g, v1, sh1, v2, sh2, d, name, f)
    ensures FileSet(g, v, sh, v2, sh2, d, name, f)
  {
    hide Base, File, SubDir, WellFormed;
    assert FilesBut(g, v, sh, v1, sh1, d, name);
    FilesButCompose(g, v, sh, v1, sh1, v2, sh2, d, name);
  }

  lemma SameRefl(g: Geo, v: Vol, sh: Shape)
    requires Base(g, v, sh)
    ensures FilesSame(g, v, sh, v, sh)
  {
  }

  // ----- storing, as the driver does it -----

  ghost function ChainLen(sh: Shape, e: Entry): nat {
    if HeadOf(e) in sh.nodes then |sh.nodes[HeadOf(e)].chain| else 0
  }

  /** `w` is `v` with `bytes` poured into the free clusters `ch`, linked. */
  ghost predicate Stored(g: Geo, v: Vol, w: Vol, bytes: seq<byte>, ch: seq<nat>) {
    && GeoOk(g) && VolShape(g, v) && VolShape(g, w)
    && |bytes| < TWO32 && |ch| == Need(g, |bytes|)
    && FreeClusters(g, v, ch) && w.root == v.root && w.fat == Link(v.fat, ch) && DataBut(v.data, w.data, ch)
    && (forall i | 0 <= i < |ch| :: ch[i] < |w.data|) && Take(ChainBytes(w.data, ch), |bytes|) == bytes
  }

  lemma StoredCount(g: Geo, v: Vol, w: Vol, bytes: seq<byte>, ch: seq<nat>)
    requires Stored(g, v, w, bytes, ch)
    ensures |Free(w.fat)| == |Free(v.fat)| - |ch|
  {
    FreeCountAfterLinking(v.fat, ch);
  }

  /** A slot whose cluster is not among those stored to reads the same. */
  lemma StoredSlot(g: Geo, v: Vol, w: Vol, ch: seq<nat>, dch: seq<nat>, idx: nat)
    requires GeoOk(g) && VolShape(g, v) && VolShape(g, w) && DirChain(g, dch) && InDir(g, dch, idx)
    requires w.root == v.root && DataBut(v.data, w.data, ch) && forall i | 0 <= i < |dch| :: dch[i] !in ch
    ensures Ent(g, w, dch, idx) == Ent(g, v, dch, idx)
  {
    if dch != [] {
      assert dch[Quot(idx, Per(g))] !in ch;
    }
  }

  /** Storing and then committing a new entry: the driver's way of creating a file. */
  lemma CreateDone(g: Geo, v: Vol, sh: Shape, d: nat, idx: nat, name: Name, bytes: seq<byte>, ch: seq<nat>, w: Vol)
    requires WellFormed(g, v, sh) && IsDir(sh, d) && Vacant(g, v, sh, d, idx) && LiveName(name)
    requires Find(g, v, sh, d, name) == None && DirChain(g, ChOf(sh, d))
    requires Stored(g, v, w, bytes, ch)
    ensures var e := FileEntry(EntOf(g, v, sh, d, idx), name, ch, |bytes|);
            && Ent(g, w, ChOf(sh, d), idx) == EntOf(g, v, sh, d, idx)
            && FileSet(g, v, sh, PutEnt(g, w, ChOf(sh, d), idx, e), CommittedShape(sh, d, idx, e, ch), d, name,
               Some(bytes))
  {
    hide WellFormed, ChainsOk, FileSet, FreeClusters, Find;
    DirNotFree(g, v, sh, d, ch);
    StoredSlot(g, v, w, ch, ChOf(sh, d), idx);
    assert Staged(g, v, ch, w.data) == w;
    CreateStep(g, v, sh, d, idx, name, bytes, ch, w.data);
  }

  lemma FileNotDot(g: Geo, v: Vol, sh: Shape, d: nat, idx: nat)
    requires WellFormed(g, v, sh) && IsDir(sh, d) && InDir(g, ChOf(sh, d), idx)
    requires Live(EntOf(g, v, sh, d, idx)) && !HasDirAttr(EntOf(g, v, sh, d, idx))
    ensures !IsDot(d, idx) && OwnsItsChain(sh, EntOf(g, v, sh, d, idx), d, idx)
    ensures var h := HeadOf(EntOf(g, v, sh, d, idx)); (h == 0 || (h in sh.nodes && 2 <= h < |v.fat|)) && 0 !in sh.nodes
  {
    assert DirOk(g, v, sh, d);
    assert SlotOk(g, v, sh, d, idx);
    var h := HeadOf(EntOf(g, v, sh, d, idx));
    if h != 0 { assert NodeChainOk(v.fat, sh, h); }
  }

  lemma FreedCount(g: Geo, v: Vol, sh: Shape, h: nat)
    requires Base(g, v, sh) && (h == 0 || h in sh.nodes)
    ensures (h == 0 || 2 <= h < |v.fat|) && VolShape(g, v.(fat := FreeFrom(v.fat, h)))
    ensures |Free(FreeFrom(v.fat, h))| == |Free(v.fat)| + if h == 0 then 0 else |sh.nodes[h].chain|
  {
    if h != 0 {
      assert NodeChainOk(v.fat, sh, h);
      FreeCountAfterFreeing(v.fat, sh.nodes[h].chain);
    }
  }

  /** Freeing, storing and rewriting the entry: the driver's way of replacing a file. */
  lemma ReplaceDone(g: Geo, v: Vol, sh: Shape, d: nat, idx: nat, bytes: seq<byte>, ch: seq<nat>, w: Vol)
    requires WellFormed(g, v, sh) && IsDir(sh, d) && InDir(g, ChOf(sh, d), idx) && DirChain(g, ChOf(sh, d))
    requires Live(EntOf(g, v, sh, d, idx)) && !HasDirAttr(EntOf(g, v, sh, d, idx))
    requires var h := HeadOf(EntOf(g, v, sh, d, idx));
             (h == 0 || 2 <= h < |v.fat|) && Stored(g, v.(fat := FreeFrom(v.fat, h)), w, bytes, ch)
    ensures var e := EntOf(g, v, sh, d, idx);
            var e2 := FileEntry(e, NameOf(e), ch, |bytes|);
            && Ent(g, w, ChOf(sh, d), idx) == e
            && FileSet(g, v, sh, PutEnt(g, w, ChOf(sh, d), idx, e2), CommittedShape(ErasedShape(sh, e), d, idx, e2, ch),
               d, NameOf(e), Some(bytes))
  {
    var e := EntOf(g, v, sh, d, idx);
    FileNotDot(g, v, sh, d, idx);
    ErasedVolBase(g, v, sh, d, idx);
    ErasedSlotVacant(g, v, sh, d, idx);
    hide WellFormed, Base, FileSet, Vacant;
    var v1, sh1 := ErasedVol(g, v, sh, d, idx), ErasedShape(sh, e);
    DirNotFree(g, v1, sh1, d, ch);
    StoredSlot(g, v, w, ch, ChOf(sh, d), idx);
    ReplaceStep(g, v, sh, d, idx, bytes, ch, w);
  }
}
