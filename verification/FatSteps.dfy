/** The driver's changes computed on the volume itself: which table, sectors and
    slots they touch, and that the result is well formed. */
module FatSteps {
  import opened Arith
  import opened FatTable
  import opened FatDir
  import opened FatState
  import opened FatOps
  import opened FatFiles

  /** Chains of different owners do not meet. */
  lemma ChainsApart(fat: seq<nat>, sh: Shape, a: nat, b: nat, i: nat, j: nat)
    requires |sh.own| == |fat| && a in sh.nodes && b in sh.nodes && a != b
    requires NodeChainOk(fat, sh, a) && NodeChainOk(fat, sh, b)
    requires i < |sh.nodes[a].chain| && j < |sh.nodes[b].chain|
    ensures sh.nodes[a].chain[i] != sh.nodes[b].chain[j]
  {
    assert sh.own[sh.nodes[a].chain[i]] == a;
    assert sh.own[sh.nodes[b].chain[j]] == b;
  }

  lemma DirsApart(g: Geo, v: Vol, sh: Shape, a: nat, b: nat)
    requires Base(g, v, sh) && IsDir(sh, a) && IsDir(sh, b) && a != b
    ensures Apart(ChOf(sh, a), ChOf(sh, b))
  {
    ChOfOk(g, v, sh, a);
    ChOfOk(g, v, sh, b);
    if a != 0 && b != 0 {
      forall i, j | 0 <= i < |ChOf(sh, a)| && 0 <= j < |ChOf(sh, b)| ensures ChOf(sh, a)[i] != ChOf(sh, b)[j] {
        ChainsApart(v.fat, sh, a, b, i, j);
      }
    }
  }

  // ----- erasing -----

  ghost function ErasedVol(g: Geo, v: Vol, sh: Shape, d: nat, idx: nat): Vol
    requires Base(g, v, sh) && IsDir(sh, d) && InDir(g, ChOf(sh, d), idx)
    requires var h := HeadOf(EntOf(g, v, sh, d, idx)); h == 0 || h in sh.nodes
  {
    var e := EntOf(g, v, sh, d, idx);
    ChOfOk(g, v, sh, d);
    assert HeadOf(e) in sh.nodes ==> NodeChainOk(v.fat, sh, HeadOf(e));
    PutEnt(g, v, ChOf(sh, d), idx, Erased(e)).(fat := FreeFrom(v.fat, HeadOf(e)))
  }

  lemma ErasedVolBase(g: Geo, v: Vol, sh: Shape, d: nat, idx: nat)
    requires Base(g, v, sh) && IsDir(sh, d) && InDir(g, ChOf(sh, d), idx)
    requires var h := HeadOf(EntOf(g, v, sh, d, idx)); h == 0 || h in sh.nodes
    ensures Base(g, ErasedVol(g, v, sh, d, idx), ErasedShape(sh, EntOf(g, v, sh, d, idx)))
  {
    var e := EntOf(g, v, sh, d, idx);
    if HeadOf(e) != 0 {
      DropChainOk(v.fat, sh, HeadOf(e));
    }
  }

  lemma ErasedVolSlots(g: Geo, v: Vol, sh: Shape, d: nat, idx: nat, x: nat)
    requires Base(g, v, sh) && IsDir(sh, d) && InDir(g, ChOf(sh, d), idx)
    requires var h := HeadOf(EntOf(g, v, sh, d, idx)); h == 0 || h in sh.nodes
    requires var e := EntOf(g, v, sh, d, idx);
             Base(g, ErasedVol(g, v, sh, d, idx), ErasedShape(sh, e)) && IsDir(sh, x) && IsDir(ErasedShape(sh, e), x)
    ensures var e := EntOf(g, v, sh, d, idx);
            SlotsBut(g, v, sh, ErasedVol(g, v, sh, d, idx), ErasedShape(sh, e), x, d, idx, Erased(e))
  {
    var e := EntOf(g, v, sh, d, idx);
    ChOfOk(g, v, sh, d);
    ChOfOk(g, v, sh, x);
    forall j | 0 <= j && InDir(g, ChOf(sh, x), j)
      ensures Ent(g, PutEnt(g, v, ChOf(sh, d), idx, Erased(e)), ChOf(sh, x), j)
              == if x == d && j == idx then Erased(e) else Ent(g, v, ChOf(sh, x), j)
    {
      SlotWritten(g, v, sh, d, idx, Erased(e), x, j);
    }
  }

  lemma SlotWritten(g: Geo, v: Vol, sh: Shape, d: nat, idx: nat, e: Entry, x: nat, j: nat)
    requires Base(g, v, sh) && IsDir(sh, d) && IsDir(sh, x) && InDir(g, ChOf(sh, d), idx) && InDir(g, ChOf(sh, x), j)
    requires DirChain(g, ChOf(sh, d)) && DirChain(g, ChOf(sh, x))
    ensures Ent(g, PutEnt(g, v, ChOf(sh, d), idx, e), ChOf(sh, x), j)
            == if x == d && j == idx then e else Ent(g, v, ChOf(sh, x), j)
  {
    if x == d {
      PutEntHere(g, v, ChOf(sh, d), idx, e, j);
    } else {
      DirsApart(g, v, sh, d, x);
      PutEntElsewhere(g, v, ChOf(sh, d), idx, e, ChOf(sh, x), j);
    }
  }

  lemma NotInDir(g: Geo, v: Vol, sh: Shape, d: nat, h: nat, i: nat)
    requires Base(g, v, sh) && IsDir(sh, d) && h in sh.nodes && !sh.nodes[h].sub && i < |sh.nodes[h].chain|
    ensures sh.nodes[h].chain[i] !in ChOf(sh, d)
  {
    if d != 0 {
      assert NodeChainOk(v.fat, sh, h) && NodeChainOk(v.fat, sh, d);
      forall j | 0 <= j < |ChOf(sh, d)| ensures ChOf(sh, d)[j] != sh.nodes[h].chain[i] {
        ChainsApart(v.fat, sh, d, h, j, i);
      }
    }
  }

  /** Writing a slot touches no file cluster. */
  lemma SlotWriteKeepsData(g: Geo, v: Vol, sh: Shape, d: nat, idx: nat, e: Entry, h: nat, i: nat)
    requires Base(g, v, sh) && IsDir(sh, d) && InDir(g, ChOf(sh, d), idx) && DirChain(g, ChOf(sh, d))
    requires h in sh.nodes && !sh.nodes[h].sub && i < |sh.nodes[h].chain|
    ensures 2 <= sh.nodes[h].chain[i] < |v.data|
    ensures PutEnt(g, v, ChOf(sh, d), idx, e).data[sh.nodes[h].chain[i]] == v.data[sh.nodes[h].chain[i]]
  {
    assert NodeChainOk(v.fat, sh, h);
    NotInDir(g, v, sh, d, h, i);
    PutEntData(g, v, ChOf(sh, d), idx, e, sh.nodes[h].chain[i]);
  }

  lemma ErasedVolData(g: Geo, v: Vol, sh: Shape, d: nat, idx: nat)
    requires Base(g, v, sh) && IsDir(sh, d) && InDir(g, ChOf(sh, d), idx)
    requires var h := HeadOf(EntOf(g, v, sh, d, idx)); h == 0 || h in sh.nodes
    ensures DataKept(v, sh, ErasedVol(g, v, sh, d, idx), ErasedShape(sh, EntOf(g, v, sh, d, idx)))
  {
    var e := EntOf(g, v, sh, d, idx);
    ChOfOk(g, v, sh, d);
    var v2, sh2 := ErasedVol(g, v, sh, d, idx), ErasedShape(sh, e);
    forall h | h in sh.nodes && h in sh2.nodes && !sh.nodes[h].sub ensures ChainKept(v, sh, v2, sh2, h) {
      forall i | 0 <= i < |sh.nodes[h].chain| && sh.nodes[h].chain[i] < |v.data|
        ensures v2.data[sh.nodes[h].chain[i]] == v.data[sh.nodes[h].chain[i]]
      {
        SlotWriteKeepsData(g, v, sh, d, idx, Erased(e), h, i);
      }
    }
  }

  /** Erasing an entry and its chain, all told. */
  lemma EraseStep(g: Geo, v: Vol, sh: Shape, d: nat, idx: nat)
    requires WellFormed(g, v, sh) && IsDir(sh, d) && Erasable(g, v, sh, d, idx)
    ensures var e := EntOf(g, v, sh, d, idx);
            && OwnsItsChain(sh, e, d, idx)
            && Base(g, ErasedVol(g, v, sh, d, idx), ErasedShape(sh, e))
            && WellFormed(g, ErasedVol(g, v, sh, d, idx), ErasedShape(sh, e))
            && OneSlot(g, v, sh, ErasedVol(g, v, sh, d, idx), ErasedShape(sh, e), d, idx, Erased(e))
            && DataKept(v, sh, ErasedVol(g, v, sh, d, idx), ErasedShape(sh, e))
  {
    LiveOwnsItsChain(g, v, sh, d, idx);
    var e := EntOf(g, v, sh, d, idx);
    var v2, sh2 := ErasedVol(g, v, sh, d, idx), ErasedShape(sh, e);
    ErasedVolBase(g, v, sh, d, idx);
    forall x | IsDir(sh, x) && IsDir(sh2, x) ensures SlotsBut(g, v, sh, v2, sh2, x, d, idx, Erased(e)) {
      ErasedVolSlots(g, v, sh, d, idx, x);
    }
    ErasedVolData(g, v, sh, d, idx);
    EraseKeepsWellFormed(g, v, sh, v2, sh2, d, idx);
  }

  // ----- committing -----

  /** Clusters outside `ch` hold what they held. */
  ghost predicate DataBut(a: seq<seq<Sector>>, b: seq<seq<Sector>>, ch: seq<nat>) {
    |a| == |b| && forall n | 0 <= n < |a| && n !in ch :: b[n] == a[n]
  }

  ghost predicate FreeClusters(g: Geo, v: Vol, ch: seq<nat>)
    requires VolShape(g, v)
  {
    && Clusters(v.fat, ch) && Distinct(ch)
    && forall i | 0 <= i < |ch| :: v.fat[ch[i]] == 0
  }

  ghost predicate DataShape(g: Geo, data: seq<seq<Sector>>) {
    |data| == g.clusters + 2 && forall n | 2 <= n < |data| :: |data[n]| == g.spc
  }

  /** The volume with the free clusters `ch` linked and holding `data2`. */
  ghost function Staged(g: Geo, v: Vol, ch: seq<nat>, data2: seq<seq<Sector>>): (r: Vol)
    requires VolShape(g, v) && FreeClusters(g, v, ch) && DataShape(g, data2)
    ensures VolShape(g, r)
  {
    assert ch != [] ==> InRange(Link(v.fat, ch)) by {
      if ch != [] { LinkMakesChain(v.fat, ch); }
    }
    Vol(Link(v.fat, ch), v.root, data2)
  }

  ghost function CommittedVol(g: Geo, v: Vol, sh: Shape, d: nat, idx: nat, e: Entry, ch: seq<nat>,
                              data2: seq<seq<Sector>>): Vol
    requires Base(g, v, sh) && IsDir(sh, d) && InDir(g, ChOf(sh, d), idx)
    requires FreeClusters(g, v, ch) && DataShape(g, data2)
  {
    ChOfOk(g, v, sh, d);
    PutEnt(g, Staged(g, v, ch, data2), ChOf(sh, d), idx, e)
  }

  lemma CommittedVolBase(g: Geo, v: Vol, sh: Shape, d: nat, idx: nat, e: Entry, ch: seq<nat>, data2: seq<seq<Sector>>)
    requires Base(g, v, sh) && IsDir(sh, d) && InDir(g, ChOf(sh, d), idx)
    requires FreeClusters(g, v, ch) && DataShape(g, data2)
    ensures Base(g, CommittedVol(g, v, sh, d, idx, e, ch, data2), CommittedShape(sh, d, idx, e, ch))
    ensures ch != [] ==> ch[0] !in sh.nodes
    ensures forall x | IsDir(sh, x) ::
              IsDir(CommittedShape(sh, d, idx, e, ch), x) && ChOf(CommittedShape(sh, d, idx, e, ch), x) == ChOf(sh, x)
  {
    if ch != [] {
      AddChainOk(v.fat, sh, Node(ch, HasDirAttr(e), d, idx));
    }
  }

  /** No chain in use meets clusters that are free. */
  lemma FreeNotOwned(g: Geo, v: Vol, sh: Shape, ch: seq<nat>, h: nat, i: nat)
    requires Base(g, v, sh) && FreeClusters(g, v, ch) && h in sh.nodes && i < |sh.nodes[h].chain|
    ensures 2 <= sh.nodes[h].chain[i] < |v.data| && sh.nodes[h].chain[i] !in ch
  {
    OwnedIsUsed(v.fat, sh, h, i);
  }

  lemma StagedSlot(g: Geo, v: Vol, sh: Shape, ch: seq<nat>, data2: seq<seq<Sector>>, x: nat, j: nat)
    requires Base(g, v, sh) && IsDir(sh, x) && InDir(g, ChOf(sh, x), j) && DirChain(g, ChOf(sh, x))
    requires FreeClusters(g, v, ch) && DataShape(g, data2) && DataBut(v.data, data2, ch)
    ensures Ent(g, Staged(g, v, ch, data2), ChOf(sh, x), j) == Ent(g, v, ChOf(sh, x), j)
  {
    if x != 0 {
      FreeNotOwned(g, v, sh, ch, x, Quot(j, Per(g)));
    }
  }

  lemma StagedWritten(g: Geo, v: Vol, sh: Shape, ch: seq<nat>, data2: seq<seq<Sector>>, d: nat, idx: nat, e: Entry,
                      x: nat, j: nat)
    requires Base(g, v, sh) && IsDir(sh, d) && IsDir(sh, x) && InDir(g, ChOf(sh, d), idx) && InDir(g, ChOf(sh, x), j)
    requires DirChain(g, ChOf(sh, d)) && DirChain(g, ChOf(sh, x))
    requires FreeClusters(g, v, ch) && DataShape(g, data2) && DataBut(v.data, data2, ch)
    ensures Ent(g, PutEnt(g, Staged(g, v, ch, data2), ChOf(sh, d), idx, e), ChOf(sh, x), j)
            == if x == d && j == idx then e else Ent(g, v, ChOf(sh, x), j)
  {
    StagedSlot(g, v, sh, ch, data2, x, j);
    if x == d {
      PutEntHere(g, Staged(g, v, ch, data2), ChOf(sh, d), idx, e, j);
    } else {
      DirsApart(g, v, sh, d, x);
      PutEntElsewhere(g, Staged(g, v, ch, data2), ChOf(sh, d), idx, e, ChOf(sh, x), j);
    }
  }

  lemma CommittedVolSlots(g: Geo, v: Vol, sh: Shape, d: nat, idx: nat, e: Entry, ch: seq<nat>, data2: seq<seq<Sector>>,
                          x: nat)
    requires Base(g, v, sh) && IsDir(sh, d) && InDir(g, ChOf(sh, d), idx) && IsDir(sh, x)
    requires FreeClusters(g, v, ch) && DataShape(g, data2) && DataBut(v.data, data2, ch)
    requires var v2, sh2 := CommittedVol(g, v, sh, d, idx, e, ch, data2), CommittedShape(sh, d, idx, e, ch);
             Base(g, v2, sh2) && IsDir(sh2, x) && ChOf(sh2, x) == ChOf(sh, x)
    ensures var v2, sh2 := CommittedVol(g, v, sh, d, idx, e, ch, data2), CommittedShape(sh, d, idx, e, ch);
            SlotsBut(g, v, sh, v2, sh2, x, d, idx, e)
  {
    ChOfOk(g, v, sh, d);
    ChOfOk(g, v, sh, x);
    forall j | 0 <= j && InDir(g, ChOf(sh, x), j)
      ensures Ent(g, PutEnt(g, Staged(g, v, ch, data2), ChOf(sh, d), idx, e), ChOf(sh, x), j)
              == if x == d && j == idx then e else Ent(g, v, ChOf(sh, x), j)
    {
      StagedWritten(g, v, sh, ch, data2, d, idx, e, x, j);
    }
  }

  lemma CommittedVolData(g: Geo, v: Vol, sh: Shape, d: nat, idx: nat, e: Entry, ch: seq<nat>, data2: seq<seq<Sector>>)
    requires Base(g, v, sh) && IsDir(sh, d) && InDir(g, ChOf(sh, d), idx)
    requires FreeClusters(g, v, ch) && DataShape(g, data2) && DataBut(v.data, data2, ch)
    requires ch != [] ==> ch[0] !in sh.nodes
    ensures var v2, sh2 := CommittedVol(g, v, sh, d, idx, e, ch, data2), CommittedShape(sh, d, idx, e, ch);
            DataKept(v, sh, v2, sh2)
    ensures forall n | n in ch && n < |data2| :: CommittedVol(g, v, sh, d, idx, e, ch, data2).data[n] == data2[n]
  {
    ChOfOk(g, v, sh, d);
    var st := Staged(g, v, ch, data2);
    var v2, sh2 := CommittedVol(g, v, sh, d, idx, e, ch, data2), CommittedShape(sh, d, idx, e, ch);
    forall h | h in sh.nodes && h in sh2.nodes && !sh.nodes[h].sub ensures ChainKept(v, sh, v2, sh2, h) {
      forall i | 0 <= i < |sh.nodes[h].chain| && sh.nodes[h].chain[i] < |v.data|
        ensures v2.data[sh.nodes[h].chain[i]] == v.data[sh.nodes[h].chain[i]]
      {
        var n := sh.nodes[h].chain[i];
        FreeNotOwned(g, v, sh, ch, h, i);
        NotInDir(g, v, sh, d, h, i);
        PutEntData(g, st, ChOf(sh, d), idx, e, n);
      }
    }
    forall n | n in ch && n < |data2| ensures v2.data[n] == data2[n] {
      forall j | 0 <= j < |ChOf(sh, d)| ensures ChOf(sh, d)[j] !in ch {
        FreeNotOwned(g, v, sh, ch, d, j);
      }
      PutEntData(g, st, ChOf(sh, d), idx, e, n);
    }
  }

  /** Writing data into free clusters, linking them and committing the entry, all told. */
  lemma CommitStep(g: Geo, v: Vol, sh: Shape, d: nat, idx: nat, e: Entry, ch: seq<nat>, data2: seq<seq<Sector>>)
    requires WellFormed(g, v, sh) && IsDir(sh, d)
    requires Committable(g, v, sh, d, idx, e, ch)
    requires FreeClusters(g, v, ch) && DataShape(g, data2) && DataBut(v.data, data2, ch)
    requires HasDirAttr(e) ==>
               var v2, sh2 := CommittedVol(g, v, sh, d, idx, e, ch, data2), CommittedShape(sh, d, idx, e, ch);
               Base(g, v2, sh2) ==> IsDir(sh2, ch[0]) && FreshDir(g, v2, sh2, ch[0])
    ensures var v2, sh2 := CommittedVol(g, v, sh, d, idx, e, ch, data2), CommittedShape(sh, d, idx, e, ch);
            && Base(g, v2, sh2)
            && WellFormed(g, v2, sh2)
            && OneSlot(g, v, sh, v2, sh2, d, idx, e)
            && DataKept(v, sh, v2, sh2)
  {
    var v2, sh2 := CommittedVol(g, v, sh, d, idx, e, ch, data2), CommittedShape(sh, d, idx, e, ch);
    CommittedVolBase(g, v, sh, d, idx, e, ch, data2);
    forall x | IsDir(sh, x) && IsDir(sh2, x) ensures SlotsBut(g, v, sh, v2, sh2, x, d, idx, e) {
      CommittedVolSlots(g, v, sh, d, idx, e, ch, data2, x);
    }
    CommittedVolData(g, v, sh, d, idx, e, ch, data2);
    CommitKeepsWellFormed(g, v, sh, v2, sh2, d, idx, e, ch);
  }

  // ----- growing -----

  ghost predicate Zeroed(g: Geo, cluster: seq<Sector>) {
    |cluster| == g.spc && forall s | 0 <= s < |cluster| :: cluster[s] == ZeroSector()
  }

  /** The volume after `nc` was appended to directory `d` and cleared. */
  ghost function GrownVol(g: Geo, v: Vol, sh: Shape, d: nat, nc: nat, data2: seq<seq<Sector>>): Vol
    requires Base(g, v, sh) && IsDir(sh, d) && d != 0 && nc < |v.fat|
  {
    assert NodeChainOk(v.fat, sh, d);
    Vol(Append(v.fat, ChOf(sh, d)[|ChOf(sh, d)| - 1], nc), v.root, data2)
  }

  /** A slot within a prefix of a chain whose cluster is unchanged reads the same. */
  lemma PrefixSlot(g: Geo, v: Vol, v2: Vol, a: seq<nat>, b: seq<nat>, j: nat)
    requires GeoOk(g) && VolShape(g, v) && VolShape(g, v2) && v2.root == v.root
    requires DirChain(g, a) && DirChain(g, b) && a <= b && (a == [] ==> b == []) && InDir(g, a, j)
    requires a != [] ==> v2.data[a[Quot(j, Per(g))]] == v.data[a[Quot(j, Per(g))]]
    ensures InDir(g, b, j) && Ent(g, v2, b, j) == Ent(g, v, a, j)
  {
    if a != [] {
      assert b[Quot(j, Per(g))] == a[Quot(j, Per(g))];
    }
  }

  lemma GrowStepSlot(g: Geo, v: Vol, sh: Shape, d: nat, nc: nat, data2: seq<seq<Sector>>, v2: Vol, x: nat, j: nat)
    requires Base(g, v, sh) && IsDir(sh, d) && d != 0 && 2 <= nc < |v.fat| && v.fat[nc] == 0
    requires DataShape(g, data2) && DataBut(v.data, data2, [nc])
    requires v2 == GrownVol(g, v, sh, d, nc, data2) && Base(g, v2, GrowChain(sh, d, nc))
    requires IsDir(sh, x) && InDir(g, ChOf(sh, x), j)
    ensures IsDir(GrowChain(sh, d, nc), x) && InDir(g, ChOf(GrowChain(sh, d, nc), x), j)
    ensures EntOf(g, v2, GrowChain(sh, d, nc), x, j) == EntOf(g, v, sh, x, j)
  {
    hide InRange, IsChain, NodeChainOk, OwnerOk, Ent;
    var sh2 := GrowChain(sh, d, nc);
    ChOfOk(g, v, sh, x);
    ChOfOk(g, v2, sh2, x);
    if x != 0 {
      OwnedIsUsed(v.fat, sh, x, Quot(j, Per(g)));
    }
    PrefixSlot(g, v, v2, ChOf(sh, x), ChOf(sh2, x), j);
  }

  lemma GrowStepNew(g: Geo, v: Vol, sh: Shape, d: nat, nc: nat, data2: seq<seq<Sector>>, v2: Vol, j: nat)
    requires Base(g, v, sh) && IsDir(sh, d) && d != 0 && 2 <= nc < |v.fat| && v.fat[nc] == 0
    requires DataShape(g, data2) && DataBut(v.data, data2, [nc]) && Zeroed(g, data2[nc])
    requires v2 == GrownVol(g, v, sh, d, nc, data2) && Base(g, v2, GrowChain(sh, d, nc))
    requires InDir(g, ChOf(GrowChain(sh, d, nc), d), j) && !InDir(g, ChOf(sh, d), j)
    ensures EntOf(g, v2, GrowChain(sh, d, nc), d, j)[0] == 0
  {
    var sh2 := GrowChain(sh, d, nc);
    ChOfOk(g, v, sh, d);
    ChOfOk(g, v2, sh2, d);
    LastClusterSlot(g, v2, ChOf(sh2, d), j);
  }

  lemma LastClusterSlot(g: Geo, v: Vol, ch: seq<nat>, j: nat)
    requires GeoOk(g) && VolShape(g, v) && DirChain(g, ch) && ch != [] && InDir(g, ch, j)
    requires Quot(j, Per(g)) == |ch| - 1 && Zeroed(g, v.data[ch[|ch| - 1]])
    ensures Ent(g, v, ch, j)[0] == 0
  {
  }

  lemma GrownBase(g: Geo, v: Vol, sh: Shape, d: nat, nc: nat, data2: seq<seq<Sector>>)
    requires Base(g, v, sh) && IsDir(sh, d) && d != 0 && 2 <= nc < |v.fat| && v.fat[nc] == 0 && DataShape(g, data2)
    ensures d in sh.nodes && nc < |sh.own| && nc < |v.fat|
    ensures Base(g, GrownVol(g, v, sh, d, nc, data2), GrowChain(sh, d, nc))
  {
    hide NodeChainOk, OwnerOk, IsChain, Distinct;
    GrowChainOk(v.fat, sh, d, nc);
  }

  lemma GrowStepGrown(g: Geo, v: Vol, sh: Shape, d: nat, nc: nat, data2: seq<seq<Sector>>, v2: Vol)
    requires Base(g, v, sh) && IsDir(sh, d) && d != 0 && 2 <= nc < |v.fat| && v.fat[nc] == 0
    requires DataShape(g, data2) && DataBut(v.data, data2, [nc]) && Zeroed(g, data2[nc])
    requires v2 == GrownVol(g, v, sh, d, nc, data2) && Base(g, v2, GrowChain(sh, d, nc))
    ensures Grown(g, v, sh, v2, GrowChain(sh, d, nc), d, nc)
  {
    hide GrownVol, ChainsOk, InRange, DataBut, Zeroed, Ent, InDir;
    GrownBase(g, v, sh, d, nc, data2);
    var sh2 := GrowChain(sh, d, nc);
    forall x, j | IsDir(sh, x) && 0 <= j && InDir(g, ChOf(sh, x), j)
      ensures InDir(g, ChOf(sh2, x), j) && EntOf(g, v2, sh2, x, j) == EntOf(g, v, sh, x, j)
    {
      GrowStepSlot(g, v, sh, d, nc, data2, v2, x, j);
    }
    forall j | 0 <= j && InDir(g, ChOf(sh2, d), j) && !InDir(g, ChOf(sh, d), j)
      ensures EntOf(g, v2, sh2, d, j)[0] == 0
    {
      GrowStepNew(g, v, sh, d, nc, data2, v2, j);
    }
  }

  /** Appending a cleared cluster to a directory, all told. */
  lemma GrowStep(g: Geo, v: Vol, sh: Shape, d: nat, nc: nat, data2: seq<seq<Sector>>)
    requires WellFormed(g, v, sh) && IsDir(sh, d) && d != 0 && 2 <= nc < |v.fat| && v.fat[nc] == 0
    requires DataShape(g, data2) && DataBut(v.data, data2, [nc]) && Zeroed(g, data2[nc])
    ensures var v2, sh2 := GrownVol(g, v, sh, d, nc, data2), GrowChain(sh, d, nc);
            && Base(g, v2, sh2) && WellFormed(g, v2, sh2) && Grown(g, v, sh, v2, sh2, d, nc)
            && DataKept(v, sh, v2, sh2)
  {
    hide Base, WellFormed, GrownVol, GrowChain, Grown, DataKept, DataShape, DataBut, Zeroed;
    GrownBase(g, v, sh, d, nc, data2);
    var v2, sh2 := GrownVol(g, v, sh, d, nc, data2), GrowChain(sh, d, nc);
    GrowStepGrown(g, v, sh, d, nc, data2, v2);
    GrowKeepsWellFormed(g, v, sh, v2, sh2, d, nc);
    GrowStepData(g, v, sh, d, nc, data2);
  }

  lemma GrowStepData(g: Geo, v: Vol, sh: Shape, d: nat, nc: nat, data2: seq<seq<Sector>>)
    requires Base(g, v, sh) && IsDir(sh, d) && d != 0 && 2 <= nc < |v.fat| && v.fat[nc] == 0
    requires DataBut(v.data, data2, [nc])
    ensures DataKept(v, sh, GrownVol(g, v, sh, d, nc, data2), GrowChain(sh, d, nc))
  {
    hide InRange, IsChain, NodeChainOk, OwnerOk;
    var v2, sh2 := GrownVol(g, v, sh, d, nc, data2), GrowChain(sh, d, nc);
    forall h | h in sh.nodes && h in sh2.nodes && !sh.nodes[h].sub ensures ChainKept(v, sh, v2, sh2, h) {
      forall i | 0 <= i < |sh.nodes[h].chain| && sh.nodes[h].chain[i] < |v.data|
        ensures v2.data[sh.nodes[h].chain[i]] == v.data[sh.nodes[h].chain[i]]
      {
        OwnedIsUsed(v.fat, sh, h, i);
      }
    }
  }
}
