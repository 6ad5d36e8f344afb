/** The four changes the driver makes to a well-formed volume (erase an entry,
    commit a file, commit a directory, grow a directory) keep it well formed. */
module FatOps {
  import opened Arith
  import opened FatTable
  import opened FatDir
  import opened FatState

  /** From `v` to `v2` the slot (d, idx) became `e`, and every other slot of every
      directory present in both stayed. */
  ghost predicate SlotsBut(g: Geo, v: Vol, sh: Shape, v2: Vol, sh2: Shape, x: nat, d: nat, idx: nat, e: Entry)
    requires Base(g, v, sh) && Base(g, v2, sh2) && IsDir(sh, x) && IsDir(sh2, x)
  {
    && ChOf(sh, x) == ChOf(sh2, x)
    && forall j | 0 <= j && InDir(g, ChOf(sh, x), j) ::
         EntOf(g, v2, sh2, x, j) == if x == d && j == idx then e else EntOf(g, v, sh, x, j)
  }

  ghost predicate OneSlot(g: Geo, v: Vol, sh: Shape, v2: Vol, sh2: Shape, d: nat, idx: nat, e: Entry)
    requires Base(g, v, sh) && Base(g, v2, sh2)
  {
    forall x | IsDir(sh, x) && IsDir(sh2, x) :: SlotsBut(g, v, sh, v2, sh2, x, d, idx, e)
  }

  /** A slot that may be written: dead, past the dots, and nothing never-used before it. */
  ghost predicate Vacant(g: Geo, v: Vol, sh: Shape, d: nat, idx: nat)
    requires Base(g, v, sh) && IsDir(sh, d)
  {
    && InDir(g, ChOf(sh, d), idx) && !IsDot(d, idx)
    && !Live(EntOf(g, v, sh, d, idx))
    && forall j | 0 <= j < idx && InDir(g, ChOf(sh, d), j) :: EntOf(g, v, sh, d, j)[0] != 0
  }

  /** Every slot before `idx` is live. */
  ghost predicate AllLive(g: Geo, v: Vol, sh: Shape, d: nat, idx: nat)
    requires Base(g, v, sh) && IsDir(sh, d)
  {
    forall j | 0 <= j < idx :: InDir(g, ChOf(sh, d), j) && Live(EntOf(g, v, sh, d, j))
  }

  /** Some slot of the directory is dead. */
  ghost predicate HasRoom(g: Geo, v: Vol, sh: Shape, d: nat)
    requires Base(g, v, sh) && IsDir(sh, d)
  {
    exists j: nat :: InDir(g, ChOf(sh, d), j) && !Live(EntOf(g, v, sh, d, j))
  }

  lemma FirstDeadIsVacant(g: Geo, v: Vol, sh: Shape, d: nat, idx: nat)
    requires Base(g, v, sh) && IsDir(sh, d) && DirOk(g, v, sh, d) && AllLive(g, v, sh, d, idx)
    requires InDir(g, ChOf(sh, d), idx) && !Live(EntOf(g, v, sh, d, idx))
    ensures Vacant(g, v, sh, d, idx) && HasRoom(g, v, sh, d)
  {
    assert SlotOk(g, v, sh, d, idx);
  }

  lemma NoRoom(g: Geo, v: Vol, sh: Shape, d: nat, idx: nat)
    requires Base(g, v, sh) && IsDir(sh, d) && AllLive(g, v, sh, d, idx)
    requires forall j | j >= idx :: !InDir(g, ChOf(sh, d), j)
    ensures !HasRoom(g, v, sh, d)
  {
  }

  /** The first slot number past the end lies in the cluster appended next. */
  lemma FirstSlotPastEnd(g: Geo, ch: seq<nat>, nc: nat, idx: nat)
    requires GeoOk(g) && ch != [] && !InDir(g, ch, idx) && forall j | 0 <= j < idx :: InDir(g, ch, j)
    ensures InDir(g, ch + [nc], idx)
  {
    if idx > 0 {
      assert InDir(g, ch, idx - 1);
      QuotStep(idx - 1, Per(g));
    }
  }

  /** A subdirectory with as many slots as the scan limit has taken every cluster. */
  lemma FullDirMeansFullDisk(g: Geo, v: Vol, sh: Shape, d: nat)
    requires Base(g, v, sh) && IsDir(sh, d) && d != 0
    requires forall j | 0 <= j < SlotLimit(g, ChOf(sh, d)) :: InDir(g, ChOf(sh, d), j)
    ensures Free(v.fat) == {}
  {
    var ch := ChOf(sh, d);
    assert NodeChainOk(v.fat, sh, d);
    ScanLimitReached(g, ch);
    var all, els := Interval(2, g.clusters + 2), Elems(ch);
    ElemsCount(ch);
    EqualCount(els, all);
    hide NodeChainOk, ChainsOk, VolShape, InDir;
    forall n | n in Free(v.fat) ensures false {
      assert n in els;
      var i :| 0 <= i < |ch| && ch[i] == n;
      OwnedIsUsed(v.fat, sh, d, i);
    }
  }

  lemma ScanLimitReached(g: Geo, ch: seq<nat>)
    requires GeoOk(g) && ch != [] && g.clusters > 0
    requires forall j | 0 <= j < SlotLimit(g, ch) :: InDir(g, ch, j)
    ensures |ch| >= g.clusters
  {
    var m := g.clusters * g.spc * 16;
    assert m == g.clusters * Per(g) == (g.clusters - 1) * Per(g) + Per(g);
    MulOrder(0, g.clusters - 1, Per(g));
    assert InDir(g, ch, m - 1);
    QuotRem(m - 1, Per(g));
    DivBelow(m - 1, Per(g), |ch|);
    if |ch| < g.clusters {
      MulOrder(|ch|, g.clusters - 1, Per(g));
    }
  }

  lemma EqualCount(a: set<nat>, b: set<nat>)
    requires a <= b && |b| <= |a|
    ensures a == b
  {
    assert b == a + (b - a) && |b| == |a| + |b - a|;
  }

  // ----- erasing -----

  /** An entry that can be deleted: live, not a dot entry, and if a directory then empty. */
  ghost predicate Erasable(g: Geo, v: Vol, sh: Shape, d: nat, idx: nat)
    requires Base(g, v, sh) && IsDir(sh, d)
  {
    && InDir(g, ChOf(sh, d), idx) && !IsDot(d, idx)
    && Live(EntOf(g, v, sh, d, idx))
    && var e := EntOf(g, v, sh, d, idx);
       HasDirAttr(e) && IsDir(sh, HeadOf(e)) ==>
         forall j | 2 <= j && InDir(g, ChOf(sh, HeadOf(e)), j) :: !Live(EntOf(g, v, sh, HeadOf(e), j))
  }

  ghost function ErasedShape(sh: Shape, e: Entry): Shape {
    if HeadOf(e) == 0 then sh else DropChain(sh, HeadOf(e))
  }

  /** The entry's chain and the slot name each other. */
  ghost predicate OwnsItsChain(sh: Shape, e: Entry, d: nat, idx: nat) {
    && (HeadOf(e) != 0 ==> HeadOf(e) in sh.nodes && Back(sh, HeadOf(e), d, idx))
    && (HasDirAttr(e) ==> d == 0 && IsDir(sh, HeadOf(e)) && HeadOf(e) != 0)
    && (!HasDirAttr(e) && HeadOf(e) != 0 ==> !sh.nodes[HeadOf(e)].sub)
  }

  lemma LiveOwnsItsChain(g: Geo, v: Vol, sh: Shape, d: nat, idx: nat)
    requires WellFormed(g, v, sh) && IsDir(sh, d) && InDir(g, ChOf(sh, d), idx) && !IsDot(d, idx)
    requires Live(EntOf(g, v, sh, d, idx))
    ensures OwnsItsChain(sh, EntOf(g, v, sh, d, idx), d, idx)
  {
    assert DirOk(g, v, sh, d);
    assert SlotOk(g, v, sh, d, idx);
  }

  lemma EraseKeepsSlot(g: Geo, v: Vol, sh: Shape, v2: Vol, sh2: Shape, d: nat, idx: nat, x: nat, j: nat)
    requires Base(g, v, sh) && IsDir(sh, d) && Erasable(g, v, sh, d, idx) && Base(g, v2, sh2)
    requires var e := EntOf(g, v, sh, d, idx);
             OwnsItsChain(sh, e, d, idx) && sh2 == ErasedShape(sh, e)
             && IsDir(sh, x) && IsDir(sh2, x) && SlotsBut(g, v, sh, v2, sh2, x, d, idx, Erased(e))
    requires InDir(g, ChOf(sh2, x), j) && SlotOk(g, v, sh, x, j)
    ensures SlotOk(g, v2, sh2, x, j)
  {
    hide ChainsOk, VolShape, GeoOk, InDir, EntOf, TableOk;
  }

  lemma EraseKeepsNode(g: Geo, v: Vol, sh: Shape, v2: Vol, sh2: Shape, d: nat, idx: nat, h: nat)
    requires Base(g, v, sh) && IsDir(sh, d) && Erasable(g, v, sh, d, idx) && Base(g, v2, sh2)
    requires var e := EntOf(g, v, sh, d, idx);
             OwnsItsChain(sh, e, d, idx) && sh2 == ErasedShape(sh, e) && OneSlot(g, v, sh, v2, sh2, d, idx, Erased(e))
    requires h in sh2.nodes && NodeOk(g, v, sh, h)
    ensures NodeOk(g, v2, sh2, h)
  {
    hide Base, EntOf, InDir, HeadOf, HasDirAttr, SizeOf, ErasedShape;
    var e := EntOf(g, v, sh, d, idx);
    NoZeroNode(g, v, sh);
    ErasedNodes(sh, e);
    var nd := sh.nodes[h];
    assert sh2.nodes[h] == nd && h != HeadOf(e);
    assert HasDirAttr(e) ==> nd.dir != HeadOf(e);
    assert nd.dir != 0 ==> nd.dir != HeadOf(e);
    assert IsDir(sh2, nd.dir);
    assert SlotsBut(g, v, sh, v2, sh2, nd.dir, d, idx, Erased(e));
  }

  lemma NoZeroNode(g: Geo, v: Vol, sh: Shape)
    requires Base(g, v, sh)
    ensures 0 !in sh.nodes
  {
  }

  lemma ErasedNodes(sh: Shape, e: Entry)
    ensures ErasedShape(sh, e).nodes == if HeadOf(e) == 0 then sh.nodes else sh.nodes - {HeadOf(e)}
  {
  }

  lemma EraseKeepsTable(g: Geo, v: Vol, sh: Shape, v2: Vol, sh2: Shape, d: nat, idx: nat, e: Entry, x: nat)
    requires Base(g, v, sh) && Base(g, v2, sh2) && IsDir(sh, x) && IsDir(sh2, x) && TableOk(g, v, sh, x)
    requires SlotsBut(g, v, sh, v2, sh2, x, d, idx, Erased(e))
    ensures TableOk(g, v2, sh2, x)
  {
  }

  /** Deleting an entry and freeing its chain keeps the volume well formed. */
  lemma EraseKeepsWellFormed(g: Geo, v: Vol, sh: Shape, v2: Vol, sh2: Shape, d: nat, idx: nat)
    requires WellFormed(g, v, sh) && IsDir(sh, d) && Erasable(g, v, sh, d, idx) && Base(g, v2, sh2)
    requires var e := EntOf(g, v, sh, d, idx);
             sh2 == ErasedShape(sh, e) && OneSlot(g, v, sh, v2, sh2, d, idx, Erased(e))
    ensures WellFormed(g, v2, sh2)
  {
    var e := EntOf(g, v, sh, d, idx);
    LiveOwnsItsChain(g, v, sh, d, idx);
    forall x | IsDir(sh2, x) ensures DirOk(g, v2, sh2, x) {
      assert IsDir(sh, x);
      assert SlotsBut(g, v, sh, v2, sh2, x, d, idx, Erased(e));
      assert DirOk(g, v, sh, x);
      EraseKeepsTable(g, v, sh, v2, sh2, d, idx, e, x);
      forall j | 0 <= j && InDir(g, ChOf(sh2, x), j) ensures SlotOk(g, v2, sh2, x, j) {
        assert SlotOk(g, v, sh, x, j);
        EraseKeepsSlot(g, v, sh, v2, sh2, d, idx, x, j);
      }
    }
    forall h | h in sh2.nodes ensures NodeOk(g, v2, sh2, h) {
      assert NodeOk(g, v, sh, h);
      EraseKeepsNode(g, v, sh, v2, sh2, d, idx, h);
    }
  }

  // ----- committing -----

  /** `e` may be written at (d, idx): it is live, its name is not in use, and it
      describes nothing, a new chain `ch` of the right length, or a new directory. */
  ghost predicate Committable(g: Geo, v: Vol, sh: Shape, d: nat, idx: nat, e: Entry, ch: seq<nat>)
    requires Base(g, v, sh) && IsDir(sh, d)
  {
    && Vacant(g, v, sh, d, idx) && Live(e)
    && (forall i: nat :: !Match(g, v, sh, d, NameOf(e), i))
    && (if HasDirAttr(e) then d == 0 && |ch| == 1 && HeadOf(e) == ch[0]
        else if ch == [] then SizeOf(e) == 0 && HeadOf(e) == 0
        else SizeOf(e) > 0 && HeadOf(e) == ch[0] && |ch| == Need(g, SizeOf(e)))
  }

  ghost function CommittedShape(sh: Shape, d: nat, idx: nat, e: Entry, ch: seq<nat>): Shape {
    if ch == [] then sh else AddChain(sh, Node(ch, HasDirAttr(e), d, idx))
  }

  /** A fresh directory holds its dot entries and nothing else. */
  ghost predicate FreshDir(g: Geo, v: Vol, sh: Shape, x: nat)
    requires Base(g, v, sh) && IsDir(sh, x)
  {
    && x != 0
    && (forall j | 0 <= j < 2 && InDir(g, ChOf(sh, x), j) ::
          var e := EntOf(g, v, sh, x, j);
          Live(e) && HasDirAttr(e) && DotName(NameOf(e), j) && HeadOf(e) == (if j == 0 then x else 0))
    && (forall i, j | 0 <= i < j < 2 && InDir(g, ChOf(sh, x), i) && InDir(g, ChOf(sh, x), j) ::
          NameOf(EntOf(g, v, sh, x, i)) != NameOf(EntOf(g, v, sh, x, j)))
    && (forall j | 2 <= j && InDir(g, ChOf(sh, x), j) :: EntOf(g, v, sh, x, j)[0] == 0)
  }

  /** Nothing becomes a directory but what is committed as one. */
  lemma NewDirIs(sh: Shape, d: nat, idx: nat, e: Entry, ch: seq<nat>)
    requires ch != [] ==> ch[0] !in sh.nodes
    ensures var s := CommittedShape(sh, d, idx, e, ch);
            && NodesKept(sh, s) && (forall x: nat | IsDir(sh, x) :: IsDir(s, x))
            && forall x: nat | IsDir(s, x) && !IsDir(sh, x) :: HasDirAttr(e) && ch != [] && x == ch[0]
  {
    hide HasDirAttr;
  }

  lemma FreshDirOk(g: Geo, v: Vol, sh: Shape, x: nat)
    requires Base(g, v, sh) && IsDir(sh, x) && FreshDir(g, v, sh, x)
    ensures DirOk(g, v, sh, x)
  {
  }

  lemma CommitKeepsTable(g: Geo, v: Vol, sh: Shape, v2: Vol, sh2: Shape, d: nat, idx: nat, e: Entry, x: nat)
    requires Base(g, v, sh) && Base(g, v2, sh2) && IsDir(sh, x) && IsDir(sh2, x) && TableOk(g, v, sh, x) && IsDir(sh, d)
    requires Vacant(g, v, sh, d, idx) && Live(e)
    requires forall j: nat | InDir(g, ChOf(sh, d), j) && Live(EntOf(g, v, sh, d, j)) ::
             NameOf(EntOf(g, v, sh, d, j)) != NameOf(e)
    requires SlotsBut(g, v, sh, v2, sh2, x, d, idx, e)
    ensures TableOk(g, v2, sh2, x)
  {
    var ch := ChOf(sh, x);
    forall i, j | 0 <= i < j && InDir(g, ch, i) && InDir(g, ch, j) && Live(EntOf(g, v2, sh2, x, j))
      ensures EntOf(g, v2, sh2, x, i)[0] != 0
      ensures Live(EntOf(g, v2, sh2, x, i)) ==> NameOf(EntOf(g, v2, sh2, x, i)) != NameOf(EntOf(g, v2, sh2, x, j))
    {
      if x == d && (i == idx || j == idx) {
      } else {
        assert EntOf(g, v, sh, x, i)[0] != 0;
      }
    }
  }

  /** Old chains are still there, unchanged. */
  ghost predicate NodesKept(sh: Shape, sh2: Shape) {
    forall h | h in sh.nodes :: h in sh2.nodes && sh2.nodes[h] == sh.nodes[h]
  }

  lemma OtherSlotKept(g: Geo, v: Vol, sh: Shape, v2: Vol, sh2: Shape, x: nat, j: nat)
    requires Base(g, v, sh) && Base(g, v2, sh2) && IsDir(sh, x) && IsDir(sh2, x) && ChOf(sh2, x) == ChOf(sh, x)
    requires NodesKept(sh, sh2)
    requires InDir(g, ChOf(sh, x), j) && SlotOk(g, v, sh, x, j) && EntOf(g, v2, sh2, x, j) == EntOf(g, v, sh, x, j)
    ensures SlotOk(g, v2, sh2, x, j)
  {
  }

  lemma CommittedSlotOk(g: Geo, v2: Vol, sh: Shape, sh2: Shape, d: nat, idx: nat, e: Entry, ch: seq<nat>)
    requires Base(g, v2, sh2) && IsDir(sh2, d) && InDir(g, ChOf(sh2, d), idx) && !IsDot(d, idx)
    requires EntOf(g, v2, sh2, d, idx) == e && sh2 == CommittedShape(sh, d, idx, e, ch)
    requires if HasDirAttr(e) then d == 0 && |ch| == 1 && HeadOf(e) == ch[0]
             else if ch == [] then SizeOf(e) == 0 && HeadOf(e) == 0
             else SizeOf(e) > 0 && HeadOf(e) == ch[0] && |ch| == Need(g, SizeOf(e))
    ensures SlotOk(g, v2, sh2, d, idx)
  {
  }

  lemma CommitKeepsDir(g: Geo, v: Vol, sh: Shape, v2: Vol, sh2: Shape, d: nat, idx: nat, e: Entry, ch: seq<nat>, x: nat)
    requires Base(g, v, sh) && IsDir(sh, d) && Base(g, v2, sh2)
    requires Committable(g, v, sh, d, idx, e, ch) && sh2 == CommittedShape(sh, d, idx, e, ch)
    requires NodesKept(sh, sh2)
    requires IsDir(sh, x) && IsDir(sh2, x) && SlotsBut(g, v, sh, v2, sh2, x, d, idx, e) && DirOk(g, v, sh, x)
    ensures DirOk(g, v2, sh2, x)
  {
    forall j: nat | InDir(g, ChOf(sh, d), j) && Live(EntOf(g, v, sh, d, j))
      ensures NameOf(EntOf(g, v, sh, d, j)) != NameOf(e)
    {
      assert !Match(g, v, sh, d, NameOf(e), j);
    }
    CommitKeepsTable(g, v, sh, v2, sh2, d, idx, e, x);
    forall j | 0 <= j && InDir(g, ChOf(sh2, x), j) ensures SlotOk(g, v2, sh2, x, j) {
      if x == d && j == idx {
        CommittedSlotOk(g, v2, sh, sh2, d, idx, e, ch);
      } else {
        assert SlotOk(g, v, sh, x, j);
        OtherSlotKept(g, v, sh, v2, sh2, x, j);
      }
    }
  }

  lemma CommitKeepsNode(g: Geo, v: Vol, sh: Shape, v2: Vol, sh2: Shape, d: nat, idx: nat, e: Entry, ch: seq<nat>,
                        h: nat)
    requires Base(g, v, sh) && IsDir(sh, d) && Base(g, v2, sh2)
    requires InDir(g, ChOf(sh, d), idx) && !Live(EntOf(g, v, sh, d, idx))
    requires sh2 == CommittedShape(sh, d, idx, e, ch)
    requires h in sh.nodes && h in sh2.nodes && sh2.nodes[h] == sh.nodes[h] && NodeOk(g, v, sh, h)
    requires var x := sh.nodes[h].dir; IsDir(sh2, x) && SlotsBut(g, v, sh, v2, sh2, x, d, idx, e)
    ensures NodeOk(g, v2, sh2, h)
  {
  }

  lemma CommitMakesNode(g: Geo, v: Vol, sh: Shape, v2: Vol, sh2: Shape, d: nat, idx: nat, e: Entry, ch: seq<nat>)
    requires Base(g, v, sh) && IsDir(sh, d) && Base(g, v2, sh2)
    requires InDir(g, ChOf(sh, d), idx) && !IsDot(d, idx)
    requires ch != [] && Live(e) && HeadOf(e) == ch[0] && (HasDirAttr(e) ==> d == 0)
    requires sh2 == CommittedShape(sh, d, idx, e, ch)
    requires IsDir(sh2, d) && SlotsBut(g, v, sh, v2, sh2, d, d, idx, e)
    ensures NodeOk(g, v2, sh2, ch[0])
  {
  }

  /** Writing a new entry over a dead slot keeps the volume well formed. */
  lemma CommitKeepsWellFormed(g: Geo, v: Vol, sh: Shape, v2: Vol, sh2: Shape, d: nat, idx: nat, e: Entry, ch: seq<nat>)
    requires WellFormed(g, v, sh) && IsDir(sh, d) && Base(g, v2, sh2)
    requires Committable(g, v, sh, d, idx, e, ch) && sh2 == CommittedShape(sh, d, idx, e, ch)
    requires ch != [] ==> ch[0] !in sh.nodes
    requires OneSlot(g, v, sh, v2, sh2, d, idx, e)
    requires HasDirAttr(e) ==> IsDir(sh2, ch[0]) && FreshDir(g, v2, sh2, ch[0])
    ensures WellFormed(g, v2, sh2)
  {
    hide Base, SlotsBut, DirOk, NodeOk, FreshDir, IsDir, EntOf, CommittedShape, NodesKept, Committable, HasDirAttr;
    NewDirIs(sh, d, idx, e, ch);
    forall x | IsDir(sh2, x) ensures DirOk(g, v2, sh2, x) {
      if IsDir(sh, x) {
        assert SlotsBut(g, v, sh, v2, sh2, x, d, idx, e);
        CommitKeepsDir(g, v, sh, v2, sh2, d, idx, e, ch, x);
      } else {
        FreshDirOk(g, v2, sh2, x);
      }
    }
    CommitKeepsNodes(g, v, sh, v2, sh2, d, idx, e, ch);
  }

  lemma CommitKeepsNodes(g: Geo, v: Vol, sh: Shape, v2: Vol, sh2: Shape, d: nat, idx: nat, e: Entry, ch: seq<nat>)
    requires Base(g, v, sh) && IsDir(sh, d) && Base(g, v2, sh2)
    requires Committable(g, v, sh, d, idx, e, ch) && sh2 == CommittedShape(sh, d, idx, e, ch) && NodesKept(sh, sh2)
    requires OneSlot(g, v, sh, v2, sh2, d, idx, e)
    requires forall h | h in sh.nodes :: NodeOk(g, v, sh, h)
    ensures forall h | h in sh2.nodes :: NodeOk(g, v2, sh2, h)
  {
    forall h | h in sh2.nodes ensures NodeOk(g, v2, sh2, h) {
      var x := if h in sh.nodes then sh.nodes[h].dir else d;
      assert h in sh.nodes ==> NodeOk(g, v, sh, h);
      assert IsDir(sh, x) && IsDir(sh2, x);
      assert SlotsBut(g, v, sh, v2, sh2, x, d, idx, e);
      if h in sh.nodes {
        CommitKeepsNode(g, v, sh, v2, sh2, d, idx, e, ch, h);
      } else {
        CommitMakesNode(g, v, sh, v2, sh2, d, idx, e, ch);
      }
    }
  }

  // ----- growing -----

  /** From `v` to `v2` directory `d` got a cluster of never-used slots. */
  ghost predicate Grown(g: Geo, v: Vol, sh: Shape, v2: Vol, sh2: Shape, d: nat, nc: nat)
    requires Base(g, v, sh) && Base(g, v2, sh2) && IsDir(sh, d)
  {
    && d != 0 && nc < |sh.own| && sh2 == GrowChain(sh, d, nc)
    && (forall x, j | IsDir(sh, x) && 0 <= j && InDir(g, ChOf(sh, x), j) ::
          InDir(g, ChOf(sh2, x), j) && EntOf(g, v2, sh2, x, j) == EntOf(g, v, sh, x, j))
    && (forall j | 0 <= j && InDir(g, ChOf(sh2, d), j) && !InDir(g, ChOf(sh, d), j) ::
          EntOf(g, v2, sh2, d, j)[0] == 0)
  }

  lemma GrowKeepsTable(g: Geo, v: Vol, sh: Shape, v2: Vol, sh2: Shape, d: nat, nc: nat, x: nat)
    requires Base(g, v, sh) && Base(g, v2, sh2) && IsDir(sh, d) && Grown(g, v, sh, v2, sh2, d, nc)
    requires IsDir(sh, x) && IsDir(sh2, x) && TableOk(g, v, sh, x)
    ensures TableOk(g, v2, sh2, x)
  {
    forall i, j | 0 <= i < j && InDir(g, ChOf(sh2, x), i) && InDir(g, ChOf(sh2, x), j) && Live(EntOf(g, v2, sh2, x, j))
      ensures EntOf(g, v2, sh2, x, i)[0] != 0
      ensures Live(EntOf(g, v2, sh2, x, i)) ==> NameOf(EntOf(g, v2, sh2, x, i)) != NameOf(EntOf(g, v2, sh2, x, j))
    {
      assert InDir(g, ChOf(sh, x), j);
      InDirBelow(g, ChOf(sh, x), i, j);
    }
  }

  lemma GrowKeepsSlot(g: Geo, v: Vol, sh: Shape, v2: Vol, sh2: Shape, d: nat, nc: nat, x: nat, j: nat)
    requires Base(g, v, sh) && Base(g, v2, sh2) && IsDir(sh, d) && Grown(g, v, sh, v2, sh2, d, nc)
    requires IsDir(sh, x) && IsDir(sh2, x) && InDir(g, ChOf(sh2, x), j)
    requires InDir(g, ChOf(sh, x), j) ==> SlotOk(g, v, sh, x, j)
    ensures SlotOk(g, v2, sh2, x, j)
  {
    hide ChainsOk, VolShape, EntOf, InRange;
    ChOfOk(g, v, sh, x);
    if x != 0 && j < 2 {
      FirstSlots(g, ChOf(sh, x), j);
    }
  }

  lemma GrowKeepsNode(g: Geo, v: Vol, sh: Shape, v2: Vol, sh2: Shape, d: nat, nc: nat, h: nat)
    requires Base(g, v, sh) && Base(g, v2, sh2) && IsDir(sh, d) && Grown(g, v, sh, v2, sh2, d, nc)
    requires h in sh.nodes && NodeOk(g, v, sh, h)
    ensures h in sh2.nodes && NodeOk(g, v2, sh2, h)
  {
    assert IsDir(sh2, sh.nodes[h].dir);
  }

  lemma GrowKeepsWellFormed(g: Geo, v: Vol, sh: Shape, v2: Vol, sh2: Shape, d: nat, nc: nat)
    requires WellFormed(g, v, sh) && Base(g, v2, sh2) && IsDir(sh, d) && Grown(g, v, sh, v2, sh2, d, nc)
    ensures WellFormed(g, v2, sh2)
  {
    forall x | IsDir(sh2, x) ensures DirOk(g, v2, sh2, x) {
      assert IsDir(sh, x);
      assert DirOk(g, v, sh, x);
      GrowKeepsTable(g, v, sh, v2, sh2, d, nc, x);
      forall j | 0 <= j && InDir(g, ChOf(sh2, x), j) ensures SlotOk(g, v2, sh2, x, j) {
        assert InDir(g, ChOf(sh, x), j) ==> SlotOk(g, v, sh, x, j);
        GrowKeepsSlot(g, v, sh, v2, sh2, d, nc, x, j);
      }
    }
    forall h | h in sh2.nodes ensures NodeOk(g, v2, sh2, h) {
      assert NodeOk(g, v, sh, h);
      GrowKeepsNode(g, v, sh, v2, sh2, d, nc, h);
    }
  }
}
