/** What becomes of a volume when an entry is committed under a name that reads as
    deleted: the slot stays dead and the clusters taken for it belong to nobody. */
module FatLost {
  import opened FatTable
  import opened FatDir
  import opened FatState
  import opened FatOps
  import opened FatFiles
  import opened FatSteps
  import opened FatWrites

  /** Every directory is in order. */
  ghost predicate DirsOk(g: Geo, v: Vol, sh: Shape) {
    Base(g, v, sh) && forall d | IsDir(sh, d) :: DirOk(g, v, sh, d)
  }

  /** The chain `h` belongs to a dead slot. */
  ghost predicate Orphan(g: Geo, v: Vol, sh: Shape, d: nat, idx: nat, h: nat) {
    && DirsOk(g, v, sh) && IsDir(sh, d) && InDir(g, ChOf(sh, d), idx) && !Live(EntOf(g, v, sh, d, idx))
    && h in sh.nodes && Back(sh, h, d, idx)
  }

  /** The chains, with those clusters booked as a file of the dead slot. */
  ghost function LostShape(sh: Shape, d: nat, idx: nat, ch: seq<nat>): Shape {
    if ch == [] then sh else AddChain(sh, Node(ch, false, d, idx))
  }

  /** From `v` to `v2` no file or directory changed. If clusters were taken, they are
      held by no live entry; otherwise the volume is still well formed. */
  ghost predicate Lost(g: Geo, v: Vol, sh: Shape, v2: Vol, sh2: Shape, d: nat, taken: nat) {
    && FilesSame(g, v, sh, v2, sh2) && IsDir(sh2, d)
    && (if taken == 0 then WellFormed(g, v2, sh2) else exists idx: nat, h: nat :: Orphan(g, v2, sh2, d, idx, h))
  }

  lemma SameNodes(sh: Shape)
    ensures NodesKept(sh, sh)
  {
  }

  lemma LostNodes(sh: Shape, d: nat, idx: nat, ch: seq<nat>)
    requires ch != [] && ch[0] !in sh.nodes && 0 !in sh.nodes
    ensures var s := AddChain(sh, Node(ch, false, d, idx));
            && ch[0] in s.nodes && Back(s, ch[0], d, idx) && NodesKept(sh, s)
            && (0 !in s.nodes <==> ch[0] != 0)
            && (forall x: nat :: IsDir(sh, x) <==> IsDir(s, x))
            && (forall x: nat | IsDir(sh, x) :: ChOf(s, x) == ChOf(sh, x))
  {
  }

  lemma LostBase(g: Geo, v: Vol, sh: Shape, d: nat, idx: nat, e: Entry, ch: seq<nat>, data2: seq<seq<Sector>>)
    requires Base(g, v, sh) && IsDir(sh, d) && InDir(g, ChOf(sh, d), idx)
    requires FreeClusters(g, v, ch) && DataShape(g, data2)
    ensures Base(g, CommittedVol(g, v, sh, d, idx, e, ch, data2), LostShape(sh, d, idx, ch))
    ensures ch != [] ==> ch[0] !in sh.nodes && ch[0] in LostShape(sh, d, idx, ch).nodes
    ensures ch != [] ==> Back(LostShape(sh, d, idx, ch), ch[0], d, idx)
    ensures NodesKept(sh, LostShape(sh, d, idx, ch))
    ensures forall x: nat :: IsDir(sh, x) <==> IsDir(LostShape(sh, d, idx, ch), x)
    ensures forall x: nat | IsDir(sh, x) :: ChOf(LostShape(sh, d, idx, ch), x) == ChOf(sh, x)
  {
    hide ChainsOk, AddChain, IsDir, ChOf, Back, NodesKept;
    if ch != [] {
      AddChainOk(v.fat, sh, Node(ch, false, d, idx));
      LostNodes(sh, d, idx, ch);
    } else {
      SameNodes(sh);
    }
  }

  lemma LostSlots(g: Geo, v: Vol, sh: Shape, d: nat, idx: nat, e: Entry, ch: seq<nat>, data2: seq<seq<Sector>>,
                  v2: Vol, sh2: Shape, x: nat)
    requires Base(g, v, sh) && IsDir(sh, d) && InDir(g, ChOf(sh, d), idx) && IsDir(sh, x)
    requires FreeClusters(g, v, ch) && DataShape(g, data2) && DataBut(v.data, data2, ch)
    requires v2 == CommittedVol(g, v, sh, d, idx, e, ch, data2)
    requires Base(g, v2, sh2) && IsDir(sh2, x) && ChOf(sh2, x) == ChOf(sh, x)
    ensures SlotsBut(g, v, sh, v2, sh2, x, d, idx, e)
  {
    hide ChainsOk, VolShape, FreeClusters, DataShape, DataBut;
    ChOfOk(g, v, sh, d);
    ChOfOk(g, v, sh, x);
    forall j | 0 <= j && InDir(g, ChOf(sh, x), j)
      ensures Ent(g, PutEnt(g, Staged(g, v, ch, data2), ChOf(sh, d), idx, e), ChOf(sh, x), j)
              == if x == d && j == idx then e else Ent(g, v, ChOf(sh, x), j)
    {
      StagedWritten(g, v, sh, ch, data2, d, idx, e, x, j);
    }
  }

  lemma LostData(g: Geo, v: Vol, sh: Shape, d: nat, idx: nat, e: Entry, ch: seq<nat>, data2: seq<seq<Sector>>,
                 v2: Vol, sh2: Shape)
    requires Base(g, v, sh) && IsDir(sh, d) && InDir(g, ChOf(sh, d), idx)
    requires FreeClusters(g, v, ch) && DataShape(g, data2) && DataBut(v.data, data2, ch)
    requires ch != [] ==> ch[0] !in sh.nodes
    requires v2 == CommittedVol(g, v, sh, d, idx, e, ch, data2) && NodesKept(sh, sh2)
    ensures DataKept(v, sh, v2, sh2)
  {
    CommittedVolData(g, v, sh, d, idx, e, ch, data2);
    var c := CommittedShape(sh, d, idx, e, ch);
    hide Base, CommittedVol;
    forall h | h in sh.nodes && h in sh2.nodes && !sh.nodes[h].sub ensures ChainKept(v, sh, v2, sh2, h) {
      assert ChainKept(v, sh, v2, c, h);
    }
  }

  lemma DeadKeepsTable(g: Geo, v: Vol, sh: Shape, v2: Vol, sh2: Shape, d: nat, idx: nat, e: Entry, x: nat)
    requires Base(g, v, sh) && Base(g, v2, sh2) && IsDir(sh, x) && IsDir(sh2, x) && TableOk(g, v, sh, x)
    requires SlotsBut(g, v, sh, v2, sh2, x, d, idx, e) && e[0] == DELETED
    ensures TableOk(g, v2, sh2, x)
  {
    hide ChainsOk, VolShape;
    var ch := ChOf(sh, x);
    forall i, j | 0 <= i < j && InDir(g, ch, i) && InDir(g, ch, j) && Live(EntOf(g, v2, sh2, x, j))
      ensures EntOf(g, v2, sh2, x, i)[0] != 0
      ensures Live(EntOf(g, v2, sh2, x, i)) ==> NameOf(EntOf(g, v2, sh2, x, i)) != NameOf(EntOf(g, v2, sh2, x, j))
    {
      assert EntOf(g, v, sh, x, i)[0] != 0;
    }
  }

  lemma DeadKeepsDir(g: Geo, v: Vol, sh: Shape, v2: Vol, sh2: Shape, d: nat, idx: nat, e: Entry, x: nat)
    requires Base(g, v, sh) && Base(g, v2, sh2) && IsDir(sh, x) && IsDir(sh2, x) && DirOk(g, v, sh, x)
    requires SlotsBut(g, v, sh, v2, sh2, x, d, idx, e) && e[0] == DELETED && !IsDot(d, idx) && NodesKept(sh, sh2)
    ensures DirOk(g, v2, sh2, x)
  {
    DeadKeepsTable(g, v, sh, v2, sh2, d, idx, e, x);
    hide Base, TableOk, EntOf;
    forall j | 0 <= j && InDir(g, ChOf(sh2, x), j) ensures SlotOk(g, v2, sh2, x, j) {
      assert SlotOk(g, v, sh, x, j);
      if x != d || j != idx {
        OtherSlotKept(g, v, sh, v2, sh2, x, j);
      }
    }
  }

  lemma DeadFiles(g: Geo, v: Vol, sh: Shape, v2: Vol, sh2: Shape, d: nat, idx: nat, e: Entry)
    requires DirsOk(g, v, sh) && DirsOk(g, v2, sh2) && IsDir(sh, d) && InDir(g, ChOf(sh, d), idx)
    requires !Live(EntOf(g, v, sh, d, idx)) && !Live(e) && OneSlot(g, v, sh, v2, sh2, d, idx, e)
    requires DataKept(v, sh, v2, sh2)
    requires forall x: nat :: IsDir(sh, x) <==> IsDir(sh2, x)
    ensures FilesSame(g, v, sh, v2, sh2)
  {
    hide Base, DataKept, File, SubDir, SlotsBut, MatchesKept;
    forall x: nat, n: Name | IsDir(sh, x) ensures File(g, v2, sh2, x, n) == File(g, v, sh, x, n) {
      assert SlotsBut(g, v, sh, v2, sh2, x, d, idx, e) && DirOk(g, v, sh, x) && DirOk(g, v2, sh2, x);
      OtherFilesKept(g, v, sh, v2, sh2, d, idx, e, x, n);
    }
    forall n: Name ensures SubDir(g, v2, sh2, n) == SubDir(g, v, sh, n) {
      assert SlotsBut(g, v, sh, v2, sh2, 0, d, idx, e) && DirOk(g, v, sh, 0);
      OtherMatchesKept(g, v, sh, v2, sh2, d, idx, e, 0, n);
      SubDirKept(g, v, sh, v2, sh2, n);
    }
  }

  lemma DeadKeepsNodes(g: Geo, v: Vol, sh: Shape, v2: Vol, d: nat, idx: nat, e: Entry)
    requires WellFormed(g, v, sh) && DirsOk(g, v2, sh) && IsDir(sh, d) && InDir(g, ChOf(sh, d), idx)
    requires !Live(EntOf(g, v, sh, d, idx)) && OneSlot(g, v, sh, v2, sh, d, idx, e)
    ensures WellFormed(g, v2, sh)
  {
    forall h | h in sh.nodes ensures NodeOk(g, v2, sh, h) {
      assert NodeOk(g, v, sh, h);
      assert SlotsBut(g, v, sh, v2, sh, sh.nodes[h].dir, d, idx, e);
      CommitKeepsNode(g, v, sh, v2, sh, d, idx, e, [], h);
    }
  }

  /** Committing a dead entry over a vacant slot, with clusters taken for it. */
  lemma LostStep(g: Geo, v: Vol, sh: Shape, d: nat, idx: nat, e: Entry, ch: seq<nat>, data2: seq<seq<Sector>>)
    requires WellFormed(g, v, sh) && IsDir(sh, d) && Vacant(g, v, sh, d, idx) && e[0] == DELETED
    requires FreeClusters(g, v, ch) && DataShape(g, data2) && DataBut(v.data, data2, ch)
    ensures Lost(g, v, sh, CommittedVol(g, v, sh, d, idx, e, ch, data2), LostShape(sh, d, idx, ch), d, |ch|)
  {
    hide ChainsOk, VolShape, CommittedVol, FreeClusters, DataShape, DataBut, EntOf, SlotsBut, DirOk, NodeOk, NodesKept;
    var v2, sh2 := CommittedVol(g, v, sh, d, idx, e, ch, data2), LostShape(sh, d, idx, ch);
    LostBase(g, v, sh, d, idx, e, ch, data2);
    forall x | IsDir(sh, x) && IsDir(sh2, x)
      ensures SlotsBut(g, v, sh, v2, sh2, x, d, idx, e) && DirOk(g, v, sh, x) && DirOk(g, v2, sh2, x)
    {
      LostSlots(g, v, sh, d, idx, e, ch, data2, v2, sh2, x);
      DeadKeepsDir(g, v, sh, v2, sh2, d, idx, e, x);
    }
    LostData(g, v, sh, d, idx, e, ch, data2, v2, sh2);
    LostAll(g, v, sh, v2, sh2, d, idx, e, if ch == [] then 0 else ch[0], |ch|);
  }

  lemma LostAll(g: Geo, v: Vol, sh: Shape, v2: Vol, sh2: Shape, d: nat, idx: nat, e: Entry, h: nat, taken: nat)
    requires WellFormed(g, v, sh) && DirsOk(g, v2, sh2) && IsDir(sh, d) && Vacant(g, v, sh, d, idx) && !Live(e)
    requires OneSlot(g, v, sh, v2, sh2, d, idx, e) && DataKept(v, sh, v2, sh2)
    requires forall x: nat :: IsDir(sh, x) <==> IsDir(sh2, x)
    requires if taken == 0 then sh2 == sh else h in sh2.nodes && Back(sh2, h, d, idx)
    ensures Lost(g, v, sh, v2, sh2, d, taken)
  {
    assert DirsOk(g, v, sh);
    assert SlotsBut(g, v, sh, v2, sh2, d, d, idx, e);
    SlotNow(g, v, sh, v2, sh2, d, idx, e);
    hide WellFormed, DirsOk, OneSlot, DataKept, FilesSame, EntOf;
    DeadFiles(g, v, sh, v2, sh2, d, idx, e);
    if taken == 0 {
      DeadKeepsNodes(g, v, sh, v2, d, idx, e);
    } else {
      assert Orphan(g, v2, sh2, d, idx, h);
    }
  }

  /** The same as the driver does it: the data is stored first. */
  lemma LostDone(g: Geo, v: Vol, sh: Shape, d: nat, idx: nat, e: Entry, ch: seq<nat>, w: Vol)
    requires WellFormed(g, v, sh) && IsDir(sh, d) && Vacant(g, v, sh, d, idx) && e[0] == DELETED
    requires DirChain(g, ChOf(sh, d)) && VolShape(g, w)
    requires FreeClusters(g, v, ch) && w.root == v.root && w.fat == Link(v.fat, ch) && DataBut(v.data, w.data, ch)
    ensures Lost(g, v, sh, PutEnt(g, w, ChOf(sh, d), idx, e), LostShape(sh, d, idx, ch), d, |ch|)
  {
    assert DataShape(g, w.data) && Staged(g, v, ch, w.data) == w;
    hide WellFormed, ChainsOk, Lost, LostShape, FreeClusters, Vacant;
    CommittedVolIs(g, v, sh, d, idx, e, ch, w.data);
    LostStep(g, v, sh, d, idx, e, ch, w.data);
  }

  lemma FilesSameCompose(g: Geo, v: Vol, sh: Shape, v1: Vol, sh1: Shape, v2: Vol, sh2: Shape)
    requires FilesSame(g, v, sh, v1, sh1) && FilesSame(g, v1, sh1, v2, sh2)
    ensures FilesSame(g, v, sh, v2, sh2)
  {
    hide Base, File, SubDir;
    forall x: nat, n: Name | IsDir(sh, x) ensures File(g, v2, sh2, x, n) == File(g, v, sh, x, n) {
      assert IsDir(sh1, x);
    }
    forall n: Name ensures SubDir(g, v2, sh2, n) == SubDir(g, v, sh, n) {
      assert SubDir(g, v1, sh1, n) == SubDir(g, v, sh, n);
    }
  }

  lemma SameThenLost(g: Geo, v: Vol, sh: Shape, v1: Vol, sh1: Shape, v2: Vol, sh2: Shape, d: nat, taken: nat)
    requires FilesSame(g, v, sh, v1, sh1) && Lost(g, v1, sh1, v2, sh2, d, taken)
    ensures Lost(g, v, sh, v2, sh2, d, taken)
  {
    hide FilesSame, Orphan, WellFormed;
    FilesSameCompose(g, v, sh, v1, sh1, v2, sh2);
  }
}
