/** Where runs start: a freshly formatted volume. */
module FatStart {
  import opened Bytes
  import opened FatDir
  import opened FatDisk
  import opened FatState
  import opened FatFiles
  import opened FatOps
  import opened FatNames
  import opened FatWrites
  import opened FatFacts
  import opened FatRuns
  import opened Mkfs
  import opened Wrappers

  /** A formatted volume as a map: the three system directories and no file. Its names are
      tidy, so the results about runs and listings apply to every run that starts on it. */
  lemma FormattedFs(mb: nat, disk: seq<Sector>)
    requires Formatted(mb, FS_LBA, disk)
    ensures var g := MkLayout(mb).g;
            var v, sh := MkVol(mb, disk), MkShape(g.clusters);
            && WellFormed(g, v, sh)
            && FsOf(g, v, sh) == Fs(iset k | 0 <= k < 3 :: To83Spec(SysName(k)), imap[])
            && TidyFs(FsOf(g, v, sh))
  {
    var g, v := MkLayout(mb).g, MkVol(mb, disk);
    var sh := MkShape(g.clusters);
    FormattedIsMade(mb, disk);
    hide Formatted, MkVol, MkLayout, MkShape, JustMade, SysName, To83Spec;
    MadeWellFormed(g, v, sh);
    MadeFs(g, v, sh);
    SysNamesTidy();
  }

  lemma SysNamesTidy()
    ensures forall k | 0 <= k < 3 :: Tidy(To83Spec(SysName(k))) && 0 !in To83Spec(SysName(k))
  {
    forall k | 0 <= k < 3 ensures Tidy(To83Spec(SysName(k))) && 0 !in To83Spec(SysName(k)) {
      BlankFreeIsTidy(SysName(k));
      StoredNoZero(SysName(k));
    }
  }

  lemma MadeFs(g: Geo, v: Vol, sh: Shape)
    requires JustMade(g, v, sh) && WellFormed(g, v, sh)
    ensures FsOf(g, v, sh) == Fs(iset k | 0 <= k < 3 :: To83Spec(SysName(k)), imap[])
  {
    hide WellFormed, JustMade, To83Spec, SysName, File, SubDir, FileAt;
    forall n: Name ensures SubDir(g, v, sh, n).Some? <==> exists k :: 0 <= k < 3 && To83Spec(SysName(k)) == n {
      MadeSubDir(g, v, sh, n);
    }
    forall k: FileKey ensures FileAt(g, v, sh, k) == None {
      NoFileMade(g, v, sh, k);
    }
    assert FsOf(g, v, sh).dirs == iset k | 0 <= k < 3 :: To83Spec(SysName(k));
    assert FsOf(g, v, sh).files == imap[];
  }

  lemma MadeSubDir(g: Geo, v: Vol, sh: Shape, n: Name)
    requires JustMade(g, v, sh) && WellFormed(g, v, sh)
    ensures SubDir(g, v, sh, n).Some? <==> exists k :: 0 <= k < 3 && To83Spec(SysName(k)) == n
  {
    MadeRootOk(g, v, sh);
    RootTable(g, v, sh);
    if k :| 0 <= k < 3 && To83Spec(SysName(k)) == n {
      MadeContents(g, v, sh, k, 0, n);
    } else if SubDir(g, v, sh, n).Some? {
      hide WellFormed, TableOk, To83Spec, SysName, Base, EntOf;
      var i := Find(g, v, sh, 0, n).value;
      assert FreshSlot(EntOf(g, v, sh, 0, i), i);
    }
  }

  /** On a formatted volume exactly the names that are "bin", "sys" and "home" but for case lead to a
      directory, on cluster 2, 3 and 4. */
  lemma FormattedResolve(mb: nat, disk: seq<Sector>, dir: CString, base: seq<byte>, ext: seq<byte>)
    requires Formatted(mb, FS_LBA, disk) && dir != [] && Splits(dir, base, ext)
    ensures var g := MkLayout(mb).g;
            var v, sh := MkVol(mb, disk), MkShape(g.clusters);
            && Base(g, v, sh)
            && (forall k: nat | k < 3 ::
                  Resolve(g, v, sh, dir) == Some(k + 2) <==> Alike(base, SysName(k)) && Alike(ext, []))
            && (Resolve(g, v, sh, dir) == None <==>
                forall k | 0 <= k < 3 :: !(Alike(base, SysName(k)) && Alike(ext, [])))
  {
    hide Formatted, MkVol, MkLayout, MkShape, JustMade, WellFormed, SysName, To83Spec, Alike, Splits, Base, SubDir;
    FormattedGeo(mb, disk);
    var g, v := MkLayout(mb).g, MkVol(mb, disk);
    var sh := MkShape(g.clusters);
    FormattedIsMade(mb, disk);
    MadeWellFormed(g, v, sh);
    MadeBase(g, v, sh);
    MadeSubDir(g, v, sh, To83Spec(dir));
    forall k: nat | k < 3
      ensures SubDir(g, v, sh, To83Spec(SysName(k))) == Some(k + 2)
      ensures To83Spec(SysName(k)) == To83Spec(dir) <==> Alike(base, SysName(k)) && Alike(ext, [])
    {
      SysResolves(g, v, sh, k);
      SysSplits(k);
      StoredAlikeIff(dir, base, ext, SysName(k), SysName(k), []);
    }
    if k: nat :| k < 3 && To83Spec(SysName(k)) == To83Spec(dir) {
      assert SubDir(g, v, sh, To83Spec(dir)) == Some(k + 2);
    }
  }

  lemma SysResolves(g: Geo, v: Vol, sh: Shape, k: nat)
    requires JustMade(g, v, sh) && WellFormed(g, v, sh) && k < 3
    ensures SubDir(g, v, sh, To83Spec(SysName(k))) == Some(k + 2)
  {
    hide WellFormed, JustMade, To83Spec, SubDir, TableOk;
    MadeRootOk(g, v, sh);
    RootTable(g, v, sh);
    MadeContents(g, v, sh, k, 0, To83Spec(SysName(k)));
    SysNotEmpty(k);
  }

  lemma SysNotEmpty(k: nat)
    ensures SysName(k) != []
  {
  }

  lemma SysSplits(k: nat)
    requires k < 3
    ensures Splits(SysName(k), SysName(k), [])
  {
    var n := SysName(k);
    assert n[|n|..] == [];
  }

  lemma NoFileMade(g: Geo, v: Vol, sh: Shape, k: FileKey)
    requires JustMade(g, v, sh) && WellFormed(g, v, sh)
    ensures FileAt(g, v, sh, k) == None
  {
    MadeRootOk(g, v, sh);
    RootTable(g, v, sh);
    hide WellFormed, JustMade, File, SubDir, TableOk;
    if k.0 == None {
      MadeContents(g, v, sh, 0, 0, k.1);
    } else if SubDir(g, v, sh, k.0.value).Some? {
      SubDirIsDir(g, v, sh, k.0.value);
      MadeContents(g, v, sh, 0, SubDir(g, v, sh, k.0.value).value, k.1);
    }
  }

  /** In the bare directory BIN the name "." finds its own entry, which passes for empty. */
  lemma DotIsHit(g: Geo, v: Vol, sh: Shape)
    requires JustMade(g, v, sh) && WellFormed(g, v, sh) && InDir(g, [2], 0) && EntOf(g, v, sh, 2, 0) == SubEntry(2, 0)
    ensures HitsDot(g, v, sh, BIN, To83Spec([DOT]))
  {
    hide WellFormed, TableOk, To83Spec, SubEntry, DirOk, Base, MkShape, Pad83, JustMade, FreshDir, SysName, SubDir,
         BareDir, HitsDot, ChOf, InDir;
    var two: nat, zero: nat := 2, 0;
    SysResolves(g, v, sh, 0);
    BinIsFresh(g, v, sh);
    DotStored();
    SelfFound(g, v, sh, two, zero, To83Spec([DOT]));
    FreshIsBare(g, v, sh, two);
    HitsIn(g, v, sh, BIN, To83Spec([DOT]), two, zero);
  }

  lemma BinIsFresh(g: Geo, v: Vol, sh: Shape)
    requires JustMade(g, v, sh)
    ensures Base(g, v, sh) && IsDir(sh, 2) && ChOf(sh, 2) == [2] && FreshDir(g, v, sh, 2)
    ensures SysName(0) == BIN && BIN != []
  {
    hide Base, FreshDir, FreshRoot;
  }

  lemma HitsIn(g: Geo, v: Vol, sh: Shape, dir: CString, name: Name, d: nat, i: nat)
    requires WellFormed(g, v, sh) && Resolve(g, v, sh, dir) == Some(d) && IsDir(sh, d) && IsDot(d, i)
    requires Find(g, v, sh, d, name) == Some(i) && DotPasses(g, v, sh, d, i)
    ensures HitsDot(g, v, sh, dir, name)
  {
    hide WellFormed, Base, Resolve, Find, DotPasses;
  }

  lemma DotStored()
    ensures NameOf(SubEntry(2, 0)) == To83Spec([DOT]) && LiveName(To83Spec([DOT])) && Live(SubEntry(2, 0))
  {
    DotNames();
    PadAgreesIff([DOT]);
    assert Before([DOT], DOT) == 0;
    hide To83Spec, Pad83;
  }

  lemma SelfFound(g: Geo, v: Vol, sh: Shape, d: nat, i: nat, n: Name)
    requires WellFormed(g, v, sh) && IsDir(sh, d) && InDir(g, ChOf(sh, d), i)
    requires Live(EntOf(g, v, sh, d, i)) && NameOf(EntOf(g, v, sh, d, i)) == n
    ensures Find(g, v, sh, d, n) == Some(i)
  {
    hide WellFormed, TableOk, DirOk, Base;
    DirIsFine(g, v, sh, d);
    assert Match(g, v, sh, d, n, i);
    FindIs(g, v, sh, d, n, i);
  }

  lemma FreshIsBare(g: Geo, v: Vol, sh: Shape, d: nat)
    requires Base(g, v, sh) && IsDir(sh, d) && FreshDir(g, v, sh, d)
    ensures BareDir(g, v, ChOf(sh, d))
  {
    ChOfOk(g, v, sh, d);
    hide ChainsOk, VolShape;
    forall j | 2 <= j && InDir(g, ChOf(sh, d), j) ensures !Live(Ent(g, v, ChOf(sh, d), j)) {
      assert EntOf(g, v, sh, d, j)[0] == 0;
    }
  }

  /** The delete of a dot entry that goes through: on a formatted volume, deleting "." in BIN
      reports success and leaves a volume that no choice of chains makes well formed. */
  lemma FormattedDotDelete(mb: nat, disk: seq<Sector>, v2: Vol, sh2: Shape, r: int)
    requires Formatted(mb, FS_LBA, disk)
    requires var g := MkLayout(mb).g;
             && Base(g, MkVol(mb, disk), MkShape(g.clusters))
             && Outcome(g, MkVol(mb, disk), MkShape(g.clusters), v2, sh2, OpDelete(BIN, [DOT]), r)
    ensures r == 0 && !Sound(MkLayout(mb).g, v2)
  {
    hide MkVol, MkLayout, MkShape, JustMade, SysName, Sound, SubEntry, DeleteOutcome, HitsDot, Base, To83Spec, EntOf,
         Image, BootOk;
    var g, v := MkLayout(mb).g, MkVol(mb, disk);
    var sh := MkShape(g.clusters);
    DotIsHitThere(mb, disk, g, v, sh);
    DotDeleteBreaks(g, v, sh, v2, sh2, BIN, To83Spec([DOT]), r);
  }

  lemma DotIsHitThere(mb: nat, disk: seq<Sector>, g: Geo, v: Vol, sh: Shape)
    requires Formatted(mb, FS_LBA, disk) && g == MkLayout(mb).g && v == MkVol(mb, disk) && sh == MkShape(g.clusters)
    ensures WellFormed(g, v, sh) && HitsDot(g, v, sh, BIN, To83Spec([DOT]))
  {
    hide *;
    FormattedIsMade(mb, disk);
    MadeWellFormed(g, v, sh);
    MadeBase(g, v, sh);
    BinsOwn(mb, disk, g, v, sh);
    DotIsHit(g, v, sh);
  }

  lemma MadeBase(g: Geo, v: Vol, sh: Shape)
    requires JustMade(g, v, sh)
    ensures Base(g, v, sh)
  {
  }

  lemma BinsOwn(mb: nat, disk: seq<Sector>, g: Geo, v: Vol, sh: Shape)
    requires Formatted(mb, FS_LBA, disk) && g == MkLayout(mb).g && v == MkVol(mb, disk) && sh == MkShape(g.clusters)
    requires Base(g, v, sh)
    ensures IsDir(sh, 2) && ChOf(sh, 2) == [2] && InDir(g, [2], 0) && EntOf(g, v, sh, 2, 0) == SubEntry(2, 0)
  {
    hide Formatted, MkVol, Base, SubEntry, EntOf;
    FormattedSlot(mb, disk, g, v, sh, 2, 0);
  }
}
