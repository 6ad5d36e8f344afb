/** What each change does to the files: the volume as a map from directory and
    name to contents changes at one key or at none. */
module FatFiles {
  import opened FatDir
  import opened FatState
  import opened FatOps
  import opened Wrappers

  /** The file chain `h` holds the same bytes in both volumes. */
  ghost predicate ChainKept(v: Vol, sh: Shape, v2: Vol, sh2: Shape, h: nat) {
    && h in sh.nodes && h in sh2.nodes && sh2.nodes[h].chain == sh.nodes[h].chain
    && |v.data| == |v2.data|
    && forall i | 0 <= i < |sh.nodes[h].chain| && sh.nodes[h].chain[i] < |v.data| ::
         v2.data[sh.nodes[h].chain[i]] == v.data[sh.nodes[h].chain[i]]
  }

  /** No data cluster of a file present in both volumes was touched. */
  ghost predicate DataKept(v: Vol, sh: Shape, v2: Vol, sh2: Shape) {
    forall h | h in sh.nodes && h in sh2.nodes && !sh.nodes[h].sub :: ChainKept(v, sh, v2, sh2, h)
  }

  lemma ContentsKept(g: Geo, v: Vol, sh: Shape, v2: Vol, sh2: Shape, e: Entry)
    requires Base(g, v, sh) && Base(g, v2, sh2)
    requires SizeOf(e) == 0 || ChainKept(v, sh, v2, sh2, HeadOf(e))
    ensures Contents(g, v2, sh2, e) == Contents(g, v, sh, e)
  {
    if SizeOf(e) > 0 {
      assert NodeChainOk(v.fat, sh, HeadOf(e));
      ChainBytesFrame(v.data, v2.data, sh.nodes[HeadOf(e)].chain);
    }
  }

  /** Slots with this name are the same in both volumes. */
  ghost predicate MatchesKept(g: Geo, v: Vol, sh: Shape, v2: Vol, sh2: Shape, x: nat, name: Name)
    requires Base(g, v, sh) && Base(g, v2, sh2) && IsDir(sh, x) && IsDir(sh2, x)
  {
    forall i: nat ::
      && (Match(g, v, sh, x, name, i) <==> Match(g, v2, sh2, x, name, i))
      && (Match(g, v, sh, x, name, i) ==> EntOf(g, v2, sh2, x, i) == EntOf(g, v, sh, x, i))
  }

  lemma FindKept(g: Geo, v: Vol, sh: Shape, v2: Vol, sh2: Shape, x: nat, name: Name)
    requires Base(g, v, sh) && Base(g, v2, sh2) && IsDir(sh, x) && IsDir(sh2, x)
    requires TableOk(g, v, sh, x) && MatchesKept(g, v, sh, v2, sh2, x, name)
    ensures Find(g, v2, sh2, x, name) == Find(g, v, sh, x, name)
  {
    var r := Find(g, v2, sh2, x, name);
    if r.Some? {
      assert Match(g, v, sh, x, name, r.value);
      FindIs(g, v, sh, x, name, r.value);
    } else {
      forall i: nat ensures !Match(g, v, sh, x, name, i) {
        assert !Match(g, v2, sh2, x, name, i);
      }
    }
  }

  lemma FileKept(g: Geo, v: Vol, sh: Shape, v2: Vol, sh2: Shape, x: nat, name: Name)
    requires Base(g, v, sh) && Base(g, v2, sh2) && IsDir(sh, x) && IsDir(sh2, x)
    requires DirOk(g, v, sh, x) && DirOk(g, v2, sh2, x)
    requires MatchesKept(g, v, sh, v2, sh2, x, name)
    requires DataKept(v, sh, v2, sh2)
    ensures File(g, v2, sh2, x, name) == File(g, v, sh, x, name)
  {
    FindKept(g, v, sh, v2, sh2, x, name);
    var i := Find(g, v, sh, x, name);
    if i.Some? {
      EntryContentsKept(g, v, sh, v2, sh2, x, i.value);
      assert Match(g, v, sh, x, name, i.value);
    }
  }

  lemma EntryContentsKept(g: Geo, v: Vol, sh: Shape, v2: Vol, sh2: Shape, x: nat, i: nat)
    requires Base(g, v, sh) && Base(g, v2, sh2) && IsDir(sh, x) && IsDir(sh2, x)
    requires InDir(g, ChOf(sh, x), i) && InDir(g, ChOf(sh2, x), i) && SlotOk(g, v, sh, x, i) && SlotOk(g, v2, sh2, x, i)
    requires EntOf(g, v2, sh2, x, i) == EntOf(g, v, sh, x, i) && Live(EntOf(g, v, sh, x, i))
    requires DataKept(v, sh, v2, sh2)
    ensures var e := EntOf(g, v, sh, x, i); !HasDirAttr(e) ==> Contents(g, v2, sh2, e) == Contents(g, v, sh, e)
  {
    var e := EntOf(g, v, sh, x, i);
    if !HasDirAttr(e) {
      if SizeOf(e) > 0 { assert ChainKept(v, sh, v2, sh2, HeadOf(e)); }
      ContentsKept(g, v, sh, v2, sh2, e);
    }
  }

  lemma SubDirKept(g: Geo, v: Vol, sh: Shape, v2: Vol, sh2: Shape, name: Name)
    requires Base(g, v, sh) && Base(g, v2, sh2) && TableOk(g, v, sh, 0)
    requires MatchesKept(g, v, sh, v2, sh2, 0, name)
    ensures SubDir(g, v2, sh2, name) == SubDir(g, v, sh, name)
  {
    FindKept(g, v, sh, v2, sh2, 0, name);
  }

  /** A directory found by name is a directory. */
  lemma SubDirIsDir(g: Geo, v: Vol, sh: Shape, name: Name)
    requires WellFormed(g, v, sh) && SubDir(g, v, sh, name).Some?
    ensures IsDir(sh, SubDir(g, v, sh, name).value) && SubDir(g, v, sh, name).value != 0
  {
    assert DirOk(g, v, sh, 0);
    assert SlotOk(g, v, sh, 0, Find(g, v, sh, 0, name).value);
  }

  // ----- one slot changed -----

  lemma OtherMatchesKept(g: Geo, v: Vol, sh: Shape, v2: Vol, sh2: Shape, d: nat, idx: nat, e: Entry, x: nat, name: Name)
    requires Base(g, v, sh) && Base(g, v2, sh2) && IsDir(sh, x) && IsDir(sh2, x) && IsDir(sh, d)
    requires SlotsBut(g, v, sh, v2, sh2, x, d, idx, e)
    requires x == d ==>
               && InDir(g, ChOf(sh, d), idx)
               && (Live(EntOf(g, v, sh, d, idx)) ==> NameOf(EntOf(g, v, sh, d, idx)) != name)
               && (Live(e) ==> NameOf(e) != name)
    ensures MatchesKept(g, v, sh, v2, sh2, x, name)
  {
  }

  /** Erasing an entry removes its key. */
  lemma EraseRemovesFile(g: Geo, v: Vol, sh: Shape, v2: Vol, sh2: Shape, d: nat, idx: nat)
    requires Base(g, v, sh) && Base(g, v2, sh2) && IsDir(sh, d) && IsDir(sh2, d) && TableOk(g, v, sh, d)
    requires InDir(g, ChOf(sh, d), idx) && Live(EntOf(g, v, sh, d, idx))
    requires SlotsBut(g, v, sh, v2, sh2, d, d, idx, Erased(EntOf(g, v, sh, d, idx)))
    ensures forall i: nat :: !Match(g, v2, sh2, d, NameOf(EntOf(g, v, sh, d, idx)), i)
  {
    forall i: nat | InDir(g, ChOf(sh, d), i) && i != idx && Live(EntOf(g, v, sh, d, i))
      ensures NameOf(EntOf(g, v, sh, d, i)) != NameOf(EntOf(g, v, sh, d, idx))
    {
    }
  }

  /** Committing a file sets its key. */
  lemma CommitSetsFile(g: Geo, v2: Vol, sh2: Shape, d: nat, idx: nat, e: Entry, ch: seq<nat>)
    requires Base(g, v2, sh2) && IsDir(sh2, d) && TableOk(g, v2, sh2, d)
    requires InDir(g, ChOf(sh2, d), idx) && EntOf(g, v2, sh2, d, idx) == e && Live(e) && !HasDirAttr(e)
    requires if ch == [] then SizeOf(e) == 0
             else SizeOf(e) > 0 && HeadOf(e) == ch[0] && HeadOf(e) in sh2.nodes && sh2.nodes[HeadOf(e)].chain == ch
                  && forall i | 0 <= i < |ch| :: ch[i] < |v2.data|
    ensures File(g, v2, sh2, d, NameOf(e)) == Some(if ch == [] then [] else Take(ChainBytes(v2.data, ch), SizeOf(e)))
    ensures Find(g, v2, sh2, d, NameOf(e)) == Some(idx)
  {
    assert Match(g, v2, sh2, d, NameOf(e), idx);
    FindIs(g, v2, sh2, d, NameOf(e), idx);
  }

  /** A change of one slot leaves every key but the slot's own as it was. */
  lemma OtherFilesKept(g: Geo, v: Vol, sh: Shape, v2: Vol, sh2: Shape, d: nat, idx: nat, e: Entry, x: nat, name: Name)
    requires Base(g, v, sh) && Base(g, v2, sh2) && IsDir(sh, d) && InDir(g, ChOf(sh, d), idx)
    requires IsDir(sh, x) && IsDir(sh2, x) && DirOk(g, v, sh, x) && DirOk(g, v2, sh2, x)
    requires SlotsBut(g, v, sh, v2, sh2, x, d, idx, e) && DataKept(v, sh, v2, sh2)
    requires x == d ==>
               && (Live(EntOf(g, v, sh, d, idx)) ==> NameOf(EntOf(g, v, sh, d, idx)) != name)
               && (Live(e) ==> NameOf(e) != name)
    ensures File(g, v2, sh2, x, name) == File(g, v, sh, x, name)
  {
    OtherMatchesKept(g, v, sh, v2, sh2, d, idx, e, x, name);
    FileKept(g, v, sh, v2, sh2, x, name);
  }

  /** Growing a directory changes no file. */
  lemma GrowFiles(g: Geo, v: Vol, sh: Shape, v2: Vol, sh2: Shape, d: nat, nc: nat, x: nat, name: Name)
    requires Base(g, v, sh) && Base(g, v2, sh2) && IsDir(sh, d) && Grown(g, v, sh, v2, sh2, d, nc)
    requires IsDir(sh, x) && IsDir(sh2, x) && DirOk(g, v, sh, x) && DirOk(g, v2, sh2, x)
    requires DataKept(v, sh, v2, sh2)
    ensures IsDir(sh2, x) && File(g, v2, sh2, x, name) == File(g, v, sh, x, name)
    ensures MatchesKept(g, v, sh, v2, sh2, x, name)
  {
    GrowMatches(g, v, sh, v2, sh2, d, nc, x, name);
    FileKept(g, v, sh, v2, sh2, x, name);
  }

  lemma GrowMatches(g: Geo, v: Vol, sh: Shape, v2: Vol, sh2: Shape, d: nat, nc: nat, x: nat, name: Name)
    requires Base(g, v, sh) && IsDir(sh, d) && Base(g, v2, sh2) && Grown(g, v, sh, v2, sh2, d, nc)
    requires IsDir(sh, x)
    ensures IsDir(sh2, x) && MatchesKept(g, v, sh, v2, sh2, x, name)
  {
  }
}
