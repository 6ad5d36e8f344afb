/** The main results about the file system: what each operation's outcome means for
    files by path, for free space, and for well-formedness. */
module FatTheorems {
  import opened Arith
  import opened Bytes
  import opened FatTable
  import opened FatDir
  import opened FatState
  import opened FatOps
  import opened FatFiles
  import opened FatSteps
  import opened FatWrites
  import opened FatLost
  import opened FatNames
  import opened FatFacts
  import opened Wrappers

  // ----- paths -----

  /** All paths but one read as before. */
  ghost predicate PathsBut(g: Geo, v: Vol, sh: Shape, v2: Vol, sh2: Shape, dir: CString, name: Name)
    requires WellFormed(g, v, sh) && WellFormed(g, v2, sh2)
  {
    forall p: CString, n: Name | Resolve(g, v, sh, p) != Resolve(g, v, sh, dir) || n != name ::
      Lookup(g, v2, sh2, p, n) == Lookup(g, v, sh, p, n)
  }

  lemma ResolveKept(g: Geo, v: Vol, sh: Shape, v2: Vol, sh2: Shape, p: CString)
    requires Base(g, v, sh) && Base(g, v2, sh2)
    requires forall n: Name :: SubDir(g, v2, sh2, n) == SubDir(g, v, sh, n)
    ensures Resolve(g, v2, sh2, p) == Resolve(g, v, sh, p)
  {
  }

  lemma SetByPath(g: Geo, v: Vol, sh: Shape, v2: Vol, sh2: Shape, dir: CString, d: nat, name: Name,
                  f: Option<seq<byte>>)
    requires WellFormed(g, v, sh) && IsDir(sh, d) && Resolve(g, v, sh, dir) == Some(d)
    requires FileSet(g, v, sh, v2, sh2, d, name, f)
    ensures WellFormed(g, v2, sh2) && Lookup(g, v2, sh2, dir, name) == f && PathsBut(g, v, sh, v2, sh2, dir, name)
  {
    hide WellFormed, Base, File, SubDir, Resolve;
    ResolveKept(g, v, sh, v2, sh2, dir);
    forall p: CString, n: Name | Resolve(g, v, sh, p) != Resolve(g, v, sh, dir) || n != name
      ensures Lookup(g, v2, sh2, p, n) == Lookup(g, v, sh, p, n)
    {
      ResolveKept(g, v, sh, v2, sh2, p);
      if Resolve(g, v, sh, p).Some? {
        ResolvedIsDir(g, v, sh, p);
      }
    }
  }

  lemma SameByPath(g: Geo, v: Vol, sh: Shape, v2: Vol, sh2: Shape)
    requires WellFormed(g, v, sh) && WellFormed(g, v2, sh2) && FilesSame(g, v, sh, v2, sh2)
    ensures forall p: CString, n: Name :: Lookup(g, v2, sh2, p, n) == Lookup(g, v, sh, p, n)
  {
    hide WellFormed, Base, File, SubDir, Resolve;
    forall p: CString, n: Name ensures Lookup(g, v2, sh2, p, n) == Lookup(g, v, sh, p, n) {
      ResolveKept(g, v, sh, v2, sh2, p);
      if Resolve(g, v, sh, p).Some? {
        ResolvedIsDir(g, v, sh, p);
      }
    }
  }

  // ----- writing -----

  lemma FoundName(g: Geo, v: Vol, sh: Shape, d: nat, name: Name, i: nat)
    requires Base(g, v, sh) && IsDir(sh, d) && Find(g, v, sh, d, name) == Some(i)
    ensures InDir(g, ChOf(sh, d), i) && Live(EntOf(g, v, sh, d, i)) && NameOf(EntOf(g, v, sh, d, i)) == name
  {
  }

  /** Read after write, with frame: a write that reports success leaves a well-formed
      volume in which this path reads exactly the bytes written and every other path
      reads as before. */
  lemma WriteThenRead(g: Geo, v: Vol, sh: Shape, v2: Vol, sh2: Shape, dir: CString, name: Name, data: seq<byte>)
    requires WellFormed(g, v, sh) && WriteOutcome(g, v, sh, v2, sh2, dir, name, data, 0) && LiveName(name)
    ensures WellFormed(g, v2, sh2) && Lookup(g, v2, sh2, dir, name) == Some(data)
    ensures PathsBut(g, v, sh, v2, sh2, dir, name)
    ensures var d := Resolve(g, v, sh, dir); d.Some? && IsDir(sh2, d.value) && Plain(g, v2, sh2, d.value, name, |data|)
  {
    hide WellFormed, Base, FileSet, Find, Resolve, PathsBut, Need, Free, EntOf;
    var d := Resolve(g, v, sh, dir).value;
    var i := Find(g, v, sh, d, name);
    if i.Some? { FoundName(g, v, sh, d, name, i.value); }
    SetByPath(g, v, sh, v2, sh2, dir, d, name, Some(data));
    SetIsPlain(g, v, sh, v2, sh2, d, name, data);
  }

  lemma SetIsPlain(g: Geo, v: Vol, sh: Shape, v2: Vol, sh2: Shape, d: nat, name: Name, data: seq<byte>)
    requires FileSet(g, v, sh, v2, sh2, d, name, Some(data))
    ensures Base(g, v2, sh2) && IsDir(sh2, d) && Plain(g, v2, sh2, d, name, |data|)
  {
  }

  /** A file stored under a name starting with the deleted mark is never found again:
      with WriteThenRead, a successful write reads back exactly when the name does
      not start with it. */
  lemma DeletedMarkIsLost(g: Geo, v: Vol, sh: Shape, d: nat, name: Name)
    requires Base(g, v, sh) && IsDir(sh, d) && name[0] == DELETED
    ensures File(g, v, sh, d, name) == None
  {
    var i := Find(g, v, sh, d, name);
    if i.Some? { FoundName(g, v, sh, d, name, i.value); }
  }

  /** A successful write can be read back exactly when the stored name does not start with
      the deleted mark. In that case the name is lost, and nothing else has changed. */
  lemma WriteReadsBackIff(g: Geo, v: Vol, sh: Shape, v2: Vol, sh2: Shape, dir: CString, name: Name, data: seq<byte>)
    requires WellFormed(g, v, sh) && WriteOutcome(g, v, sh, v2, sh2, dir, name, data, 0) && name[0] != 0
    ensures var d := Resolve(g, v, sh, dir);
            && d.Some? && Base(g, v2, sh2) && IsDir(sh2, d.value)
            && (File(g, v2, sh2, d.value, name) == Some(data) <==> LiveName(name))
            && FilesBut(g, v, sh, v2, sh2, d.value, name)
            && (!LiveName(name) ==> FilesSame(g, v, sh, v2, sh2) && File(g, v2, sh2, d.value, name) == None)
  {
    hide WellFormed, Base, File, Resolve, FilesBut, FilesSame, Find, EntOf, Plain, Orphan;
    var d := Resolve(g, v, sh, dir).value;
    var i := Find(g, v, sh, d, name);
    if i.Some? { FoundName(g, v, sh, d, name, i.value); }
    if !LiveName(name) {
      SameIsBut(g, v, sh, v2, sh2, d, name);
      DeletedMarkIsLost(g, v2, sh2, d, name);
    }
  }

  lemma SameIsBut(g: Geo, v: Vol, sh: Shape, v2: Vol, sh2: Shape, d: nat, name: Name)
    requires FilesSame(g, v, sh, v2, sh2)
    ensures Base(g, v2, sh2) && FilesBut(g, v, sh, v2, sh2, d, name)
  {
    hide Base, File, SubDir;
  }

  /** When a write succeeds: the directory exists, the name is not a directory, there
      is a slot or a cluster to grow by, and the data fits in what is free, counting
      the chain it replaces. */
  ghost predicate WriteFits(g: Geo, v: Vol, sh: Shape, dir: CString, name: Name, size: nat)
    requires WellFormed(g, v, sh)
  {
    var d := Resolve(g, v, sh, dir);
    && d.Some?
    && (ResolvedIsDir(g, v, sh, dir); true)
    && var i := Find(g, v, sh, d.value, name);
       if i.None? then CreateFits(g, v, sh, d.value, size)
       else
         var e := EntOf(g, v, sh, d.value, i.value);
         !HasDirAttr(e) && Need(g, size) <= |Free(v.fat)| + ChainLen(sh, e)
  }

  lemma WriteSucceedsIff(g: Geo, v: Vol, sh: Shape, v2: Vol, sh2: Shape, dir: CString, name: Name, data: seq<byte>,
                         r: int)
    requires WellFormed(g, v, sh) && WriteOutcome(g, v, sh, v2, sh2, dir, name, data, r)
    ensures r == 0 <==> WriteFits(g, v, sh, dir, name, |data|)
  {
    hide WellFormed, Base, FileSet, FilesSame, Find, Resolve, Need, Free, EntOf, CreateFits, ChainLen, LostChain;
  }

  /** Clusters of the file this path names, 0 when there is none. */
  ghost function OldLength(g: Geo, v: Vol, sh: Shape, d: nat, name: Name): nat
    requires Base(g, v, sh) && IsDir(sh, d)
  {
    var i := Find(g, v, sh, d, name);
    if i.None? then 0 else ChainLen(sh, EntOf(g, v, sh, d, i.value))
  }

  /** Conservation: a successful write changes the number of free clusters by the old
      chain, less the new one, less one if the directory had to grow. */
  lemma WriteConserves(g: Geo, v: Vol, sh: Shape, v2: Vol, sh2: Shape, dir: CString, name: Name, data: seq<byte>)
    requires WellFormed(g, v, sh) && WriteOutcome(g, v, sh, v2, sh2, dir, name, data, 0)
    ensures var d := Resolve(g, v, sh, dir);
            && d.Some? && IsDir(sh, d.value)
            && var grown := if Find(g, v, sh, d.value, name).None? && !HasRoom(g, v, sh, d.value) then 1 else 0;
               |Free(v2.fat)| == |Free(v.fat)| + OldLength(g, v, sh, d.value, name) - Need(g, |data|) - grown
  {
    hide WellFormed, Base, FileSet, FilesSame, Find, Resolve, Need, Free, EntOf, ChainLen, LostChain, HasRoom;
  }

  /** Whether creating this name makes the directory grow. */
  ghost predicate CreateGrows(g: Geo, v: Vol, sh: Shape, dir: CString, name: Name)
    requires WellFormed(g, v, sh)
  {
    var d := Resolve(g, v, sh, dir);
    && d.Some? && d.value != 0
    && (ResolvedIsDir(g, v, sh, dir); true)
    && Find(g, v, sh, d.value, name) == None && !HasRoom(g, v, sh, d.value) && Free(v.fat) != {}
  }

  /** A write that reports failure without having replaced anything keeps every file;
      all it can have used is the one cluster its directory grew by. */
  lemma FailedCreateKeepsFiles(g: Geo, v: Vol, sh: Shape, v2: Vol, sh2: Shape, dir: CString, name: Name,
                               data: seq<byte>)
    requires WellFormed(g, v, sh) && WriteOutcome(g, v, sh, v2, sh2, dir, name, data, -1)
    requires Lookup(g, v, sh, dir, name) == None
    ensures WellFormed(g, v2, sh2)
    ensures |Free(v2.fat)| == |Free(v.fat)| - if CreateGrows(g, v, sh, dir, name) then 1 else 0
    ensures FilesSame(g, v, sh, v2, sh2)
    ensures forall p: CString, n: Name :: Lookup(g, v2, sh2, p, n) == Lookup(g, v, sh, p, n)
  {
    hide WellFormed, Base, FileSet, FilesSame, Find, Resolve, Need, Free, EntOf, ChainLen, LostChain, HasRoom, File;
    SameRefl(g, v, sh);
    var d := Resolve(g, v, sh, dir);
    if d.Some? {
      var i := Find(g, v, sh, d.value, name);
      if i.Some? { FileOfEntry(g, v, sh, d.value, name, i.value); }
    }
    SameByPath(g, v, sh, v2, sh2);
  }

  lemma FileOfEntry(g: Geo, v: Vol, sh: Shape, d: nat, name: Name, i: nat)
    requires Base(g, v, sh) && IsDir(sh, d) && Find(g, v, sh, d, name) == Some(i)
    ensures var e := EntOf(g, v, sh, d, i);
            File(g, v, sh, d, name) == if HasDirAttr(e) then None else Some(Contents(g, v, sh, e))
  {
  }

  // ----- what the invariant says -----

  /** The live entry at (d, idx), not a dot entry, heads the chain that holds `n`. */
  ghost predicate Heads(g: Geo, v: Vol, sh: Shape, d: nat, idx: nat, n: nat)
    requires Base(g, v, sh)
  {
    && IsDir(sh, d) && InDir(g, ChOf(sh, d), idx) && !IsDot(d, idx)
    && var e := EntOf(g, v, sh, d, idx);
       Live(e) && HeadOf(e) in sh.nodes && n in sh.nodes[HeadOf(e)].chain
  }

  /** Nothing leaks and nothing is shared: a cluster is in use exactly when some live entry's
      chain holds it, and then it is held by one entry only. */
  lemma UsedIffHeld(g: Geo, v: Vol, sh: Shape, n: nat)
    requires WellFormed(g, v, sh) && 2 <= n < |v.fat|
    ensures v.fat[n] != 0 <==> exists d: nat, idx: nat :: Heads(g, v, sh, d, idx, n)
    ensures forall d: nat, idx: nat, d2: nat, idx2: nat |
              Heads(g, v, sh, d, idx, n) && Heads(g, v, sh, d2, idx2, n) :: d == d2 && idx == idx2
  {
    forall d: nat, idx: nat | Heads(g, v, sh, d, idx, n) ensures v.fat[n] != 0 && HeldBy(g, v, sh, d, idx, n) {
      HolderIsOwner(g, v, sh, d, idx, n);
    }
    if v.fat[n] != 0 {
      assert OwnerOk(v.fat, sh, n);
      var h := sh.own[n];
      assert NodeOk(g, v, sh, h);
      assert Heads(g, v, sh, sh.nodes[h].dir, sh.nodes[h].idx, n);
    }
  }

  ghost predicate HeldBy(g: Geo, v: Vol, sh: Shape, d: nat, idx: nat, n: nat)
    requires Base(g, v, sh) && n < |v.fat|
  {
    sh.own[n] in sh.nodes && sh.nodes[sh.own[n]].dir == d && sh.nodes[sh.own[n]].idx == idx
  }

  lemma HolderIsOwner(g: Geo, v: Vol, sh: Shape, d: nat, idx: nat, n: nat)
    requires WellFormed(g, v, sh) && 2 <= n < |v.fat| && Heads(g, v, sh, d, idx, n)
    ensures v.fat[n] != 0 && HeldBy(g, v, sh, d, idx, n)
  {
    var h := HeadOf(EntOf(g, v, sh, d, idx));
    SlotsAreFine(g, v, sh, d, idx);
    assert NodeChainOk(v.fat, sh, h);
    hide WellFormed;
    var i :| 0 <= i < |sh.nodes[h].chain| && sh.nodes[h].chain[i] == n;
    OwnedIsUsed(v.fat, sh, h, i);
  }

  /** A file's chain has just as many clusters as its size takes. */
  lemma ChainHasNeededLength(g: Geo, v: Vol, sh: Shape, d: nat, idx: nat)
    requires WellFormed(g, v, sh) && IsDir(sh, d) && InDir(g, ChOf(sh, d), idx)
    requires Live(EntOf(g, v, sh, d, idx)) && !HasDirAttr(EntOf(g, v, sh, d, idx))
    ensures var e := EntOf(g, v, sh, d, idx);
            && ChainLen(sh, e) == Need(g, SizeOf(e))
            && (HeadOf(e) in sh.nodes ==>
                  IsChain(v.fat, sh.nodes[HeadOf(e)].chain) && Distinct(sh.nodes[HeadOf(e)].chain))
            && forall m: nat :: Need(g, SizeOf(e)) <= m <==> SizeOf(e) <= m * ClusterSize(g)
  {
    var e := EntOf(g, v, sh, d, idx);
    SlotsAreFine(g, v, sh, d, idx);
    FileNotDot(g, v, sh, d, idx);
    NeedZero(g, SizeOf(e));
    if HeadOf(e) in sh.nodes { assert NodeChainOk(v.fat, sh, HeadOf(e)); }
    forall m: nat ensures Need(g, SizeOf(e)) <= m <==> SizeOf(e) <= m * ClusterSize(g) {
      CeilDivIsLeast(SizeOf(e), ClusterSize(g), m);
    }
  }

  // ----- the chains are determined by the disk -----

  lemma DirsFromRoot(g: Geo, v: Vol, sh: Shape, v2: Vol, s: Shape, d: nat)
    requires WellFormed(g, v, sh) && Base(g, v2, s) && DirOk(g, v2, s, 0) && v2.root == v.root && IsDir(sh, d)
    requires d != 0 ==> IsChain(v2.fat, ChOf(sh, d))
    ensures IsDir(s, d) && ChOf(s, d) == ChOf(sh, d)
  {
    if d != 0 {
      assert NodeOk(g, v, sh, d);
      var i := sh.nodes[d].idx;
      RootEntrySame(g, v, sh, v2, s, i);
      assert SlotOk(g, v2, s, 0, i);
      assert NodeChainOk(v2.fat, s, d) && NodeChainOk(v.fat, sh, d);
      ChainUnique(v2.fat, ChOf(s, d), ChOf(sh, d));
    }
  }

  lemma RootEntrySame(g: Geo, v: Vol, sh: Shape, v2: Vol, s: Shape, i: nat)
    requires Base(g, v, sh) && Base(g, v2, s) && v2.root == v.root && InDir(g, [], i)
    ensures EntOf(g, v2, s, 0, i) == EntOf(g, v, sh, 0, i)
  {
  }

  lemma EntrySame(g: Geo, v: Vol, sh: Shape, v2: Vol, s: Shape, d: nat, i: nat)
    requires Base(g, v, sh) && Base(g, v2, s) && v2.root == v.root && v2.data == v.data
    requires IsDir(sh, d) && IsDir(s, d) && ChOf(s, d) == ChOf(sh, d) && InDir(g, ChOf(sh, d), i)
    ensures EntOf(g, v2, s, d, i) == EntOf(g, v, sh, d, i)
  {
  }

  lemma NodeDetermined(g: Geo, v: Vol, a: Shape, b: Shape, h: nat)
    requires WellFormed(g, v, a) && WellFormed(g, v, b) && h in a.nodes
    ensures h in b.nodes && b.nodes[h] == a.nodes[h]
  {
    assert NodeOk(g, v, a, h) && NodeChainOk(v.fat, a, h);
    var nd := a.nodes[h];
    if nd.dir != 0 { assert NodeChainOk(v.fat, a, nd.dir); }
    assert DirOk(g, v, b, 0);
    DirsFromRoot(g, v, a, v, b, nd.dir);
    EntrySame(g, v, a, v, b, nd.dir, nd.idx);
    assert DirOk(g, v, a, nd.dir) && DirOk(g, v, b, nd.dir);
    assert SlotOk(g, v, a, nd.dir, nd.idx) && SlotOk(g, v, b, nd.dir, nd.idx);
    hide WellFormed, DirOk, TableOk, EntOf;
    assert NodeChainOk(v.fat, b, h);
    ChainUnique(v.fat, a.nodes[h].chain, b.nodes[h].chain);
  }

  /** The chains of a well-formed volume can be read off it: there is one way to see it. */
  lemma ShapeDetermined(g: Geo, v: Vol, a: Shape, b: Shape)
    requires WellFormed(g, v, a) && WellFormed(g, v, b)
    ensures a.nodes == b.nodes
  {
    hide WellFormed;
    forall h | h in a.nodes || h in b.nodes ensures h in a.nodes && h in b.nodes && b.nodes[h] == a.nodes[h] {
      if h in a.nodes { NodeDetermined(g, v, a, b, h); } else { NodeDetermined(g, v, b, a, h); }
    }
  }

  // ----- when the invariant is lost -----

  lemma FreedHead(fat: seq<nat>, sh: Shape, h: nat)
    requires InRange(fat) && ChainsOk(fat, sh) && h in sh.nodes
    ensures 2 <= h < |fat| && FreeFrom(fat, h)[h] == 0
  {
    assert NodeChainOk(fat, sh, h);
    FreedStaysFree(fat, h);
  }

  lemma OtherChainSurvives(fat: seq<nat>, sh: Shape, h: nat, k: nat)
    requires InRange(fat) && ChainsOk(fat, sh) && h in sh.nodes && k in sh.nodes && h != k
    ensures 2 <= h < |fat| && IsChain(FreeFrom(fat, h), sh.nodes[k].chain)
  {
    DropChainOk(fat, sh, h);
    assert NodeChainOk(FreeFrom(fat, h), DropChain(sh, h), k);
  }

  /** A chain that belongs to a dead slot cannot be told away: no choice of chains makes
      such a volume well formed. */
  lemma OrphanBreaks(g: Geo, v: Vol, sh: Shape, d: nat, idx: nat, h: nat, s: Shape)
    requires Orphan(g, v, sh, d, idx, h)
    ensures !WellFormed(g, v, s)
  {
    assert NodeChainOk(v.fat, sh, h);
    OwnedIsUsed(v.fat, sh, h, 0);
    hide WellFormed, Orphan, ChainsOk, VolShape, NodeChainOk;
    if WellFormed(g, v, s) {
      UsedIffHeld(g, v, s, h);
      var d2: nat, idx2: nat :| Heads(g, v, s, d2, idx2, h);
      HolderIsDead(g, v, sh, d, idx, h, s, d2, idx2);
    }
  }

  /** What holds the orphan in one view of the volume is a live entry; in the other the
      same entry is dead. */
  lemma HolderIsDead(g: Geo, v: Vol, sh: Shape, d: nat, idx: nat, h: nat, s: Shape, d2: nat, idx2: nat)
    requires Orphan(g, v, sh, d, idx, h) && WellFormed(g, v, s)
    ensures !Heads(g, v, s, d2, idx2, h)
  {
    if Heads(g, v, s, d2, idx2, h) {
      var e := EntOf(g, v, s, d2, idx2);
      if d2 != 0 { assert NodeChainOk(v.fat, s, d2); }
      assert DirOk(g, v, sh, 0);
      DirsFromRoot(g, v, s, v, sh, d2);
      EntrySame(g, v, s, v, sh, d2, idx2);
      assert DirOk(g, v, sh, d2);
      assert SlotOk(g, v, sh, d2, idx2);
      var k := HeadOf(e);
      assert NodeChainOk(v.fat, s, k) && NodeChainOk(v.fat, sh, k) && NodeChainOk(v.fat, sh, h);
      hide WellFormed, DirOk, TableOk, EntOf;
      ChainUnique(v.fat, s.nodes[k].chain, sh.nodes[k].chain);
    }
  }

  /** A successful write keeps the volume well formed exactly when the stored name does not
      start with the deleted mark or there is nothing to store. */
  lemma WriteKeepsIff(g: Geo, v: Vol, sh: Shape, v2: Vol, sh2: Shape, dir: CString, name: Name, data: seq<byte>)
    requires WellFormed(g, v, sh) && WriteOutcome(g, v, sh, v2, sh2, dir, name, data, 0) && name[0] != 0
    ensures (exists s :: WellFormed(g, v2, s)) <==> LiveName(name) || data == []
    ensures LiveName(name) || data == [] ==> WellFormed(g, v2, sh2)
  {
    hide WellFormed, Base, File, Resolve, FilesBut, FilesSame, Find, EntOf, Plain, Orphan;
    var d := Resolve(g, v, sh, dir).value;
    var i := Find(g, v, sh, d, name);
    if i.Some? { FoundName(g, v, sh, d, name, i.value); }
    if !LiveName(name) && data != [] {
      var idx: nat, h: nat :| Orphan(g, v2, sh2, d, idx, h);
      forall s ensures !WellFormed(g, v2, s) {
        OrphanBreaks(g, v2, sh2, d, idx, h, s);
      }
    }
  }

  /** A successful mkdir keeps it exactly when the stored name does not start with that mark. */
  lemma MkdirKeepsIff(g: Geo, v: Vol, sh: Shape, v2: Vol, sh2: Shape, name: Name)
    requires WellFormed(g, v, sh) && MkdirOutcome(g, v, sh, v2, sh2, name, 0) && name[0] != 0
    ensures (exists s :: WellFormed(g, v2, s)) <==> LiveName(name)
    ensures LiveName(name) ==> WellFormed(g, v2, sh2)
  {
    hide WellFormed, Base, FilesSame, Orphan, MadeDir, Find;
    if LiveName(name) {
      var nc :| MadeDir(g, v, sh, v2, sh2, name, nc);
      MadeIsWellFormed(g, v, sh, v2, sh2, name, nc);
    } else {
      var idx: nat, h: nat :| Orphan(g, v2, sh2, 0, idx, h);
      forall s ensures !WellFormed(g, v2, s) {
        OrphanBreaks(g, v2, sh2, 0, idx, h, s);
      }
    }
  }

  lemma MadeIsWellFormed(g: Geo, v: Vol, sh: Shape, v2: Vol, sh2: Shape, name: Name, nc: nat)
    requires MadeDir(g, v, sh, v2, sh2, name, nc)
    ensures WellFormed(g, v2, sh2)
  {
  }

  /** A replacement that ran out of space leaves the entry naming a freed chain: unless
      the old file was empty, no choice of chains makes that volume well formed. */
  lemma FailedReplaceBreaks(g: Geo, v: Vol, sh: Shape, v2: Vol, d: nat, idx: nat, s: Shape)
    requires WellFormed(g, v, sh) && IsDir(sh, d) && InDir(g, ChOf(sh, d), idx)
    requires var e := EntOf(g, v, sh, d, idx);
             Live(e) && !HasDirAttr(e) && SizeOf(e) > 0 && LostChain(v, v2, HeadOf(e))
    ensures !WellFormed(g, v2, s)
  {
    if WellFormed(g, v2, s) {
      var e := EntOf(g, v, sh, d, idx);
      assert DirOk(g, v, sh, d);
      assert SlotOk(g, v, sh, d, idx);
      hide DirOk, TableOk;
      FreedHead(v.fat, sh, HeadOf(e));
      if d != 0 { OtherChainSurvives(v.fat, sh, HeadOf(e), d); }
      DirIsFine(g, v2, s, 0);
      DirsFromRoot(g, v, sh, v2, s, d);
      EntrySame(g, v, sh, v2, s, d, idx);
      LiveFileUsesHead(g, v2, s, d, idx);
    }
  }

  lemma LiveFileUsesHead(g: Geo, v: Vol, s: Shape, d: nat, idx: nat)
    requires WellFormed(g, v, s) && IsDir(s, d) && InDir(g, ChOf(s, d), idx)
    requires var e := EntOf(g, v, s, d, idx);
             Live(e) && (HasDirAttr(e) ==> !IsDot(d, idx)) && (!HasDirAttr(e) ==> SizeOf(e) > 0)
    ensures var h := HeadOf(EntOf(g, v, s, d, idx)); 2 <= h < |v.fat| && v.fat[h] != 0
  {
    assert DirOk(g, v, s, d);
    assert SlotOk(g, v, s, d, idx);
    OwnedIsUsed(v.fat, s, HeadOf(EntOf(g, v, s, d, idx)), 0);
    assert NodeChainOk(v.fat, s, HeadOf(EntOf(g, v, s, d, idx)));
  }

  /** The failed write, by path: the volume stays well formed exactly when the file to
      be replaced held nothing (or there was none). Then no file has changed. */
  lemma FailedWriteIff(g: Geo, v: Vol, sh: Shape, v2: Vol, sh2: Shape, dir: CString, name: Name, data: seq<byte>)
    requires WellFormed(g, v, sh) && WriteOutcome(g, v, sh, v2, sh2, dir, name, data, -1)
    ensures var f := Lookup(g, v, sh, dir, name);
            && ((exists s :: WellFormed(g, v2, s)) <==> f == None || f == Some([]))
            && (f == None || f == Some([]) ==> WellFormed(g, v2, sh2) && FilesSame(g, v, sh, v2, sh2))
  {
    SameRefl(g, v, sh);
    var d := Resolve(g, v, sh, dir);
    if d.Some? {
      var i := Find(g, v, sh, d.value, name);
      if i.Some? {
        FileOfEntry(g, v, sh, d.value, name, i.value);
        FoundName(g, v, sh, d.value, name, i.value);
        var e := EntOf(g, v, sh, d.value, i.value);
        if !HasDirAttr(e) {
          EmptyIff(g, v, sh, d.value, i.value);
          hide WellFormed, Base, FileSet, FilesSame, Find, Resolve, EntOf;
          if SizeOf(e) > 0 {
            forall s ensures !WellFormed(g, v2, s) {
              FailedReplaceBreaks(g, v, sh, v2, d.value, i.value, s);
            }
          }
        }
      }
    }
  }

  lemma EmptyIff(g: Geo, v: Vol, sh: Shape, d: nat, idx: nat)
    requires WellFormed(g, v, sh) && IsDir(sh, d) && InDir(g, ChOf(sh, d), idx)
    requires Live(EntOf(g, v, sh, d, idx)) && !HasDirAttr(EntOf(g, v, sh, d, idx))
    ensures var e := EntOf(g, v, sh, d, idx);
            && (Contents(g, v, sh, e) == [] <==> SizeOf(e) == 0)
            && (SizeOf(e) == 0 ==> HeadOf(e) == 0)
            && (HeadOf(e) == 0 ==> InRange(v.fat) && FreeFrom(v.fat, 0) == v.fat)
  {
    var e := EntOf(g, v, sh, d, idx);
    FileNotDot(g, v, sh, d, idx);
    hide WellFormed, ChainBytes, FreeFrom;
    if SizeOf(e) > 0 { HeldIsNotEmpty(g, v, sh, e); }
    if HeadOf(e) == 0 { NothingToFree(g, v); }
  }

  lemma NothingToFree(g: Geo, v: Vol)
    requires VolShape(g, v)
    ensures InRange(v.fat) && FreeFrom(v.fat, 0) == v.fat
  {
  }

  lemma HeldIsNotEmpty(g: Geo, v: Vol, sh: Shape, e: Entry)
    requires Base(g, v, sh) && SizeOf(e) > 0 && HeadOf(e) in sh.nodes
    ensures Contents(g, v, sh, e) != []
  {
    var ch := sh.nodes[HeadOf(e)].chain;
    assert NodeChainOk(v.fat, sh, HeadOf(e));
    ChainBytesLength(g, v.data, ch);
    ManyIsSome(|ch|, ClusterSize(g));
  }

  lemma ManyIsSome(n: nat, k: nat)
    requires n > 0 && k > 0
    ensures n * k > 0
  {
  }

  // ----- deleting -----

  /** The only names a dot entry is found by are those the formatter gives such entries. */
  lemma DotsAreBlank(g: Geo, v: Vol, sh: Shape, d: nat, name: CString)
    requires WellFormed(g, v, sh) && IsDir(sh, d)
    requires Find(g, v, sh, d, To83Spec(name)).Some?
    ensures var i := Find(g, v, sh, d, To83Spec(name)).value; IsDot(d, i) ==> To83Spec(name) == BlankDotName(i)
  {
    var i := Find(g, v, sh, d, To83Spec(name)).value;
    FoundName(g, v, sh, d, To83Spec(name), i);
    To83Never(name);
    hide WellFormed;
    if IsDot(d, i) {
      DotIs(g, v, sh, d, i);
      assert DotNameOf(i + 1)[0] == DOT;
    }
  }

  /** Deleting a file removes that path, keeps every other, and gives back exactly its chain. */
  lemma DeletedFile(g: Geo, v: Vol, sh: Shape, v2: Vol, sh2: Shape, dir: CString, d: nat, idx: nat)
    requires WellFormed(g, v, sh) && IsDir(sh, d) && Resolve(g, v, sh, dir) == Some(d)
    requires DeletedAt(g, v, sh, v2, sh2, d, idx, 0) && !IsDot(d, idx) && !HasDirAttr(EntOf(g, v, sh, d, idx))
    ensures var e := EntOf(g, v, sh, d, idx);
            && WellFormed(g, v2, sh2) && Lookup(g, v2, sh2, dir, NameOf(e)) == None
            && PathsBut(g, v, sh, v2, sh2, dir, NameOf(e))
            && |Free(v2.fat)| == |Free(v.fat)| + ChainLen(sh, e)
  {
    hide WellFormed, Base, FileSet, Resolve, PathsBut, Erasable, Free, ErasedVol, ErasedShape;
    var e := EntOf(g, v, sh, d, idx);
    RemoveStep(g, v, sh, d, idx);
    SetByPath(g, v, sh, v2, sh2, dir, d, NameOf(e), None);
    ErasedCount(g, v, sh, d, idx);
  }

  lemma ErasedCount(g: Geo, v: Vol, sh: Shape, d: nat, idx: nat)
    requires Base(g, v, sh) && IsDir(sh, d) && InDir(g, ChOf(sh, d), idx)
    requires var h := HeadOf(EntOf(g, v, sh, d, idx)); h == 0 || h in sh.nodes
    ensures |Free(ErasedVol(g, v, sh, d, idx).fat)| == |Free(v.fat)| + ChainLen(sh, EntOf(g, v, sh, d, idx))
  {
    FreedCount(g, v, sh, HeadOf(EntOf(g, v, sh, d, idx)));
  }

  /** `v2` is `v` without the directory `h`, found under `name` in the root. */
  ghost predicate DirGone(g: Geo, v: Vol, sh: Shape, v2: Vol, sh2: Shape, name: Name, h: nat) {
    && Base(g, v, sh) && WellFormed(g, v2, sh2)
    && (forall x: nat :: IsDir(sh2, x) <==> IsDir(sh, x) && x != h)
    && (forall n: Name :: SubDir(g, v2, sh2, n) == if n == name then None else SubDir(g, v, sh, n))
    && (forall x: nat, n: Name | IsDir(sh2, x) :: File(g, v2, sh2, x, n) == File(g, v, sh, x, n))
    && IsDir(sh, h) && (forall n: Name :: File(g, v, sh, h, n) == None)
  }

  /** The step that erases slot `idx` of the root, which names the directory `h`. */
  ghost predicate DirErased(g: Geo, v: Vol, sh: Shape, v2: Vol, sh2: Shape, idx: nat, name: Name, h: nat) {
    && WellFormed(g, v, sh) && WellFormed(g, v2, sh2) && InDir(g, [], idx)
    && var e := EntOf(g, v, sh, 0, idx);
       && Live(e) && HasDirAttr(e) && name == NameOf(e) && h == HeadOf(e) && h != 0 && IsDir(sh, h)
       && OneSlot(g, v, sh, v2, sh2, 0, idx, Erased(e)) && DataKept(v, sh, v2, sh2)
  }

  lemma GoneSubDir(g: Geo, v: Vol, sh: Shape, v2: Vol, sh2: Shape, idx: nat, name: Name, h: nat, n: Name)
    requires DirErased(g, v, sh, v2, sh2, idx, name, h)
    ensures SubDir(g, v2, sh2, n) == if n == name then None else SubDir(g, v, sh, n)
  {
    hide WellFormed, Base, OneSlot, DataKept, SubDir, File, Match, EntOf, SlotsBut, DirOk, TableOk;
    var e := EntOf(g, v, sh, 0, idx);
    SlotFacts(g, v, sh, v2, sh2, 0, idx, Erased(e), 0);
    EraseRemovesFile(g, v, sh, v2, sh2, 0, idx);
    if n == name {
      SlotFacts(g, v, sh, v2, sh2, 0, idx, Erased(e), 0);
      NoSubDirOfFile(g, v2, sh2, n, idx);
    } else {
      OtherMatchesKept(g, v, sh, v2, sh2, 0, idx, Erased(e), 0, n);
      SubDirKept(g, v, sh, v2, sh2, n);
    }
  }

  lemma GoneFile(g: Geo, v: Vol, sh: Shape, v2: Vol, sh2: Shape, idx: nat, name: Name, h: nat, x: nat, n: Name)
    requires DirErased(g, v, sh, v2, sh2, idx, name, h) && IsDir(sh, x) && IsDir(sh2, x)
    ensures File(g, v2, sh2, x, n) == File(g, v, sh, x, n)
  {
    hide WellFormed, Base, OneSlot, DataKept, SubDir, File, Match, EntOf, SlotsBut, DirOk, TableOk;
    RootMatch(g, v, sh, idx);
    var e := EntOf(g, v, sh, 0, idx);
    SlotFacts(g, v, sh, v2, sh2, 0, idx, Erased(e), x);
    if x == 0 && n == name {
      EraseRemovesFile(g, v, sh, v2, sh2, 0, idx);
      NoFileOfDir(g, v, sh, name, idx);
      NoFileOfDir(g, v2, sh2, name, idx);
    } else {
      OtherFilesKept(g, v, sh, v2, sh2, 0, idx, Erased(e), x, n);
    }
  }

  lemma RootMatch(g: Geo, v: Vol, sh: Shape, idx: nat)
    requires Base(g, v, sh) && InDir(g, [], idx) && Live(EntOf(g, v, sh, 0, idx))
    ensures Match(g, v, sh, 0, NameOf(EntOf(g, v, sh, 0, idx)), idx)
  {
  }

  lemma GoneFiles(g: Geo, v: Vol, sh: Shape, v2: Vol, sh2: Shape, idx: nat, name: Name, h: nat)
    requires DirErased(g, v, sh, v2, sh2, idx, name, h)
    requires forall x: nat :: IsDir(sh2, x) <==> IsDir(sh, x) && x != h
    requires forall j | 2 <= j && InDir(g, ChOf(sh, h), j) :: !Live(EntOf(g, v, sh, h, j))
    ensures DirGone(g, v, sh, v2, sh2, name, h)
  {
    hide WellFormed, Base, OneSlot, DataKept, SubDir, File, Match, EntOf, InDir;
    forall n: Name ensures SubDir(g, v2, sh2, n) == if n == name then None else SubDir(g, v, sh, n) {
      GoneSubDir(g, v, sh, v2, sh2, idx, name, h, n);
    }
    forall x: nat, n: Name | IsDir(sh2, x) ensures File(g, v2, sh2, x, n) == File(g, v, sh, x, n) {
      GoneFile(g, v, sh, v2, sh2, idx, name, h, x, n);
    }
    forall n: Name ensures File(g, v, sh, h, n) == None {
      DirIsFine(g, v, sh, h);
      BareHasNoFiles(g, v, sh, h, n);
    }
  }

  lemma BareHasNoFiles(g: Geo, v: Vol, sh: Shape, h: nat, n: Name)
    requires Base(g, v, sh) && IsDir(sh, h) && h != 0 && DirOk(g, v, sh, h)
    requires forall j | 2 <= j && InDir(g, ChOf(sh, h), j) :: !Live(EntOf(g, v, sh, h, j))
    ensures File(g, v, sh, h, n) == None
  {
    hide ChainsOk, VolShape, TableOk;
    var i := Find(g, v, sh, h, n);
    if i.Some? {
      assert Match(g, v, sh, h, n, i.value);
      assert SlotOk(g, v, sh, h, i.value);
    }
  }

  /** Deleting a directory: it was empty, it is gone, its cluster chain is free, and
      every other directory and file is as it was. */
  lemma DeletedDir(g: Geo, v: Vol, sh: Shape, v2: Vol, sh2: Shape, d: nat, idx: nat)
    requires WellFormed(g, v, sh) && IsDir(sh, d)
    requires DeletedAt(g, v, sh, v2, sh2, d, idx, 0) && !IsDot(d, idx) && HasDirAttr(EntOf(g, v, sh, d, idx))
    ensures var e := EntOf(g, v, sh, d, idx);
            && d == 0 && DirGone(g, v, sh, v2, sh2, NameOf(e), HeadOf(e))
            && |Free(v2.fat)| == |Free(v.fat)| + ChainLen(sh, e)
  {
    hide WellFormed, Base, Free, ErasedVol, DirGone;
    var e := EntOf(g, v, sh, d, idx);
    ErasedCount(g, v, sh, d, idx);
    EraseStep(g, v, sh, d, idx);
    GoneFiles(g, v, sh, v2, sh2, idx, NameOf(e), HeadOf(e));
  }

  /** A delete of a dot entry that passes for an empty directory goes through, and loses the
      invariant for good: freeing the directory under its own entry, or leaving a hole where
      a dot entry belongs. */
  lemma DeletedDotBreaks(g: Geo, v: Vol, sh: Shape, v2: Vol, sh2: Shape, d: nat, idx: nat, r: int, s: Shape)
    requires WellFormed(g, v, sh) && IsDir(sh, d) && DeletedAt(g, v, sh, v2, sh2, d, idx, r)
    requires IsDot(d, idx) && DotPasses(g, v, sh, d, idx)
    ensures r == 0 && !WellFormed(g, v2, s)
  {
    hide WellFormed, Base, DotPasses, EntOf, ErasedVol, Erasable, ErasedShape, InDir;
    DotErased(g, v, sh, d, idx);
    if idx == 0 {
      FreedDirBreaks(g, v, sh, v2, d, s);
    } else {
      DotHoleBreaks(g, v, sh, v2, d, s);
    }
  }

  lemma FreedDirBreaks(g: Geo, v: Vol, sh: Shape, v2: Vol, d: nat, s: Shape)
    requires WellFormed(g, v, sh) && IsDir(sh, d) && d != 0 && v2.root == v.root && v2.fat == FreeFrom(v.fat, d)
    ensures !WellFormed(g, v2, s)
  {
    FreedHead(v.fat, sh, d);
    assert NodeOk(g, v, sh, d);
    var i := sh.nodes[d].idx;
    hide WellFormed, EntOf, Base;
    if WellFormed(g, v2, s) {
      RootEntrySame(g, v, sh, v2, s, i);
      LiveFileUsesHead(g, v2, s, 0, i);
    }
  }

  lemma DotHoleBreaks(g: Geo, v: Vol, sh: Shape, v2: Vol, d: nat, s: Shape)
    requires WellFormed(g, v, sh) && IsDir(sh, d) && d != 0 && InDir(g, ChOf(sh, d), 1) && v2.root == v.root
    requires var h := HeadOf(EntOf(g, v, sh, d, 1)); (h == 0 || h in sh.nodes) && v2 == ErasedVol(g, v, sh, d, 1)
    requires v2.fat == v.fat
    ensures !WellFormed(g, v2, s)
  {
    assert NodeChainOk(v.fat, sh, d);
    hide *;
    var second: nat := 1;
    if WellFormed(g, v2, s) {
      DirIsFine(g, v2, s, 0);
      DirsFromRoot(g, v, sh, v2, s, d);
      SlotsAreFine(g, v2, s, d, second);
      HoleBreaks(g, v, sh, v2, s, d);
    }
  }

  lemma SlotsAreFine(g: Geo, v: Vol, sh: Shape, d: nat, idx: nat)
    requires WellFormed(g, v, sh) && IsDir(sh, d) && InDir(g, ChOf(sh, d), idx)
    ensures SlotOk(g, v, sh, d, idx)
  {
    assert DirOk(g, v, sh, d);
  }

  lemma DotErased(g: Geo, v: Vol, sh: Shape, d: nat, idx: nat)
    requires WellFormed(g, v, sh) && IsDir(sh, d) && InDir(g, ChOf(sh, d), idx) && IsDot(d, idx)
    requires var h := HeadOf(EntOf(g, v, sh, d, idx)); h == 0 || h in sh.nodes
    ensures HeadOf(EntOf(g, v, sh, d, idx)) == if idx == 0 then d else 0
    ensures ErasedVol(g, v, sh, d, idx).root == v.root
    ensures ErasedVol(g, v, sh, d, idx).fat == FreeFrom(v.fat, if idx == 0 then d else 0)
  {
    ChOfOk(g, v, sh, d);
    assert DirOk(g, v, sh, d);
    assert SlotOk(g, v, sh, d, idx);
  }

  lemma HoleBreaks(g: Geo, v: Vol, sh: Shape, v2: Vol, s: Shape, d: nat)
    requires Base(g, v, sh) && Base(g, v2, s) && IsDir(sh, d) && IsDir(s, d) && ChOf(s, d) == ChOf(sh, d) && d != 0
    requires InDir(g, ChOf(sh, d), 1)
    requires var h := HeadOf(EntOf(g, v, sh, d, 1)); (h == 0 || h in sh.nodes) && v2 == ErasedVol(g, v, sh, d, 1)
    ensures !SlotOk(g, v2, s, d, 1)
  {
    ChOfOk(g, v, sh, d);
    PutEntHere(g, v, ChOf(sh, d), 1, Erased(EntOf(g, v, sh, d, 1)), 1);
    assert EntOf(g, v2, s, d, 1) == Erased(EntOf(g, v, sh, d, 1));
  }

  // ----- listing -----

  /** Looking up a listed name finds the very slot it was listed from exactly when the stored
      name is tidy. */
  lemma ListedNameFindsSlot(g: Geo, v: Vol, sh: Shape, d: nat, slots: seq<nat>, out: seq<Item>, k: nat)
    requires WellFormed(g, v, sh) && Listing(g, v, sh, d, slots, out) && k < |slots|
    requires 0 !in NameOf(EntOf(g, v, sh, d, slots[k]))
    ensures 0 !in out[k].name
    ensures Find(g, v, sh, d, To83Spec(out[k].name)) == Some(slots[k]) <==> Tidy(NameOf(EntOf(g, v, sh, d, slots[k])))
  {
    hide WellFormed, Base, Listed, DirOk, TableOk, Tidy, To83Spec, PrettySpec;
    var e := EntOf(g, v, sh, d, slots[k]);
    var n := NameOf(e);
    DirIsFine(g, v, sh, d);
    assert Shown(g, v, sh, d, slots[k]);
    PrettyRoundTrip(n);
    assert Match(g, v, sh, d, n, slots[k]);
    FindIs(g, v, sh, d, n, slots[k]);
    if Find(g, v, sh, d, To83Spec(out[k].name)) == Some(slots[k]) {
      FoundName(g, v, sh, d, To83Spec(out[k].name), slots[k]);
    }
  }

  /** No two listed entries have the same stored name. */
  lemma ListedNamesDiffer(g: Geo, v: Vol, sh: Shape, d: nat, slots: seq<nat>, out: seq<Item>, i: nat, j: nat)
    requires WellFormed(g, v, sh) && Listing(g, v, sh, d, slots, out) && i < j < |slots|
    ensures NameOf(EntOf(g, v, sh, d, slots[i])) != NameOf(EntOf(g, v, sh, d, slots[j]))
  {
    DirIsFine(g, v, sh, d);
    hide WellFormed, ChainsOk, VolShape, DirOk;
    assert Shown(g, v, sh, d, slots[i]) && Shown(g, v, sh, d, slots[j]);
  }

  /** By the bytes of the entries: what is listed is neither free nor deleted nor a volume label, and
      everything else is; name, attribute and size are those of the entry. */
  lemma ListingBytes(g: Geo, v: Vol, sh: Shape, d: nat, slots: seq<nat>, out: seq<Item>)
    requires Base(g, v, sh) && Listing(g, v, sh, d, slots, out)
    ensures forall j: nat | InDir(g, ChOf(sh, d), j) ::
              var e := EntOf(g, v, sh, d, j);
              j in slots <==> e[0] != 0 && e[0] != 0xE5 && (e[11] / 8) % 2 == 0
    ensures forall k | 0 <= k < |slots| ::
              && InDir(g, ChOf(sh, d), slots[k])
              && var e := EntOf(g, v, sh, d, slots[k]);
                 && out[k].name == PrettySpec(e[0..11]) && out[k].attr == e[11]
                 && out[k].size == e[28] as int + 0x100 * (e[29] as int) + 0x1_0000 * (e[30] as int)
                                   + 0x100_0000 * (e[31] as int)
  {
    hide ChainsOk, VolShape, PrettySpec, InDir, EntOf, ChOf;
    forall j: nat | InDir(g, ChOf(sh, d), j)
      ensures var e := EntOf(g, v, sh, d, j);
              j in slots <==> e[0] != 0 && e[0] != 0xE5 && (e[11] / 8) % 2 == 0
    {
      if k :| 0 <= k < |slots| && slots[k] == j { assert Shown(g, v, sh, d, slots[k]); }
    }
    assert forall k | 0 <= k < |slots| :: Shown(g, v, sh, d, slots[k]);
  }

  /** What is found under a name is listed once. */
  lemma ListedOnce(g: Geo, v: Vol, sh: Shape, d: nat, slots: seq<nat>, out: seq<Item>, name: Name, i: nat)
    returns (k: nat)
    requires WellFormed(g, v, sh) && Listing(g, v, sh, d, slots, out) && Find(g, v, sh, d, name) == Some(i)
    requires InDir(g, ChOf(sh, d), i) ==> !HasVolAttr(EntOf(g, v, sh, d, i))
    ensures k < |out| == |slots| && slots[k] == i && out[k] == ItemOf(EntOf(g, v, sh, d, i))
    ensures out[k].name == PrettySpec(name)
    ensures forall j | 0 <= j < |slots| && NameOf(EntOf(g, v, sh, d, slots[j])) == name :: j == k
  {
    hide WellFormed, Base, DirOk, TableOk, PrettySpec;
    DirIsFine(g, v, sh, d);
    FoundName(g, v, sh, d, name, i);
    assert Shown(g, v, sh, d, i);
    k :| 0 <= k < |slots| && slots[k] == i;
    forall j: nat | j < |slots| && NameOf(EntOf(g, v, sh, d, slots[j])) == name ensures j == k {
      if j < k { ListedNamesDiffer(g, v, sh, d, slots, out, j, k); }
      if k < j { ListedNamesDiffer(g, v, sh, d, slots, out, k, j); }
    }
  }

  /** A file that a write left is listed once, with its name, no attributes and its size. */
  lemma WrittenIsListed(g: Geo, v: Vol, sh: Shape, d: nat, slots: seq<nat>, out: seq<Item>, name: Name, size: nat)
    returns (k: nat)
    requires WellFormed(g, v, sh) && Listing(g, v, sh, d, slots, out) && Plain(g, v, sh, d, name, size)
    ensures k < |out| == |slots| && out[k] == Item(PrettySpec(name), 0, size)
    ensures forall j | 0 <= j < |slots| && NameOf(EntOf(g, v, sh, d, slots[j])) == name :: j == k
  {
    hide WellFormed, Base, PrettySpec;
    k := ListedOnce(g, v, sh, d, slots, out, name, Find(g, v, sh, d, name).value);
  }

  /** A directory of the root is listed once, with its name and the directory attribute, unless its entry
      is marked as a volume label too. */
  lemma FolderIsListed(g: Geo, v: Vol, sh: Shape, slots: seq<nat>, out: seq<Item>, name: Name) returns (k: nat)
    requires WellFormed(g, v, sh) && Listing(g, v, sh, 0, slots, out) && SubDir(g, v, sh, name).Some?
    requires forall i | Find(g, v, sh, 0, name) == Some(i) && InDir(g, ChOf(sh, 0), i) ::
               !HasVolAttr(EntOf(g, v, sh, 0, i))
    ensures k < |out| == |slots| && out[k].name == PrettySpec(name) && (out[k].attr / 0x10) % 2 == 1
    ensures forall j | 0 <= j < |slots| && NameOf(EntOf(g, v, sh, 0, slots[j])) == name :: j == k
  {
    hide WellFormed, Base, PrettySpec;
    k := ListedOnce(g, v, sh, 0, slots, out, name, Find(g, v, sh, 0, name).value);
  }
}
