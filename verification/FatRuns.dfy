/** Runs of operations: which of them keep the volume well formed, and what the files
    are at the end of one. */
module FatRuns {
  import opened Bytes
  import opened FatTable
  import opened FatDir
  import opened FatState
  import opened FatOps
  import opened FatFiles
  import opened FatSteps
  import opened FatWrites
  import opened FatLost
  import opened FatNames
  import opened FatFacts
  import opened FatTheorems
  import opened Wrappers

  datatype Op =
    | OpWrite(dir: CString, name: CString, data: seq<byte>)
    | OpDelete(dir: CString, name: CString)
    | OpMkdir(name: CString)

  ghost predicate Outcome(g: Geo, v: Vol, sh: Shape, v2: Vol, sh2: Shape, op: Op, r: int)
    requires Base(g, v, sh)
  {
    && (r == 0 || r == -1)
    && match op
       case OpWrite(dir, name, data) => WriteOutcome(g, v, sh, v2, sh2, dir, To83Spec(name), data, r)
       case OpDelete(dir, name) => DeleteOutcome(g, v, sh, v2, sh2, dir, To83Spec(name), r)
       case OpMkdir(name) => MkdirOutcome(g, v, sh, v2, sh2, To83Spec(name), r)
  }

  // ----- what keeps a volume well formed -----

  /** Some choice of chains makes the volume well formed. */
  ghost predicate Sound(g: Geo, v: Vol) {
    exists s :: WellFormed(g, v, s)
  }

  /** The name is found as a dot entry that passes for an empty directory. */
  ghost predicate HitsDot(g: Geo, v: Vol, sh: Shape, dir: CString, name: Name)
    requires WellFormed(g, v, sh)
  {
    var d := Resolve(g, v, sh, dir);
    && d.Some?
    && (ResolvedIsDir(g, v, sh, dir); true)
    && var i := Find(g, v, sh, d.value, name);
       i.Some? && IsDot(d.value, i.value) && DotPasses(g, v, sh, d.value, i.value)
  }

  ghost predicate MkdirFits(g: Geo, v: Vol, sh: Shape, name: Name)
    requires Base(g, v, sh)
  {
    Find(g, v, sh, 0, name) == None && HasRoom(g, v, sh, 0) && Free(v.fat) != {}
  }

  /** The condition on the volume before a call under which the call keeps it well formed:
      a write that fits must not store bytes under a name that reads as deleted, one that does
      not fit must not replace a file with contents; a delete must not pass on a dot entry; a
      mkdir that fits must not use a name that reads as deleted. */
  ghost predicate Keeps(g: Geo, v: Vol, sh: Shape, op: Op)
    requires WellFormed(g, v, sh)
  {
    match op
    case OpWrite(dir, name, data) =>
      var n := To83Spec(name);
      if WriteFits(g, v, sh, dir, n, |data|) then LiveName(n) || data == []
      else Lookup(g, v, sh, dir, n) == None || Lookup(g, v, sh, dir, n) == Some([])
    case OpDelete(dir, name) => !HitsDot(g, v, sh, dir, To83Spec(name))
    case OpMkdir(name) => MkdirFits(g, v, sh, To83Spec(name)) ==> LiveName(To83Spec(name))
  }

  lemma DeleteKeepsIff(g: Geo, v: Vol, sh: Shape, v2: Vol, sh2: Shape, dir: CString, name: Name, r: int)
    requires WellFormed(g, v, sh) && DeleteOutcome(g, v, sh, v2, sh2, dir, name, r) && (r == 0 || r == -1)
    ensures Sound(g, v2) <==> !HitsDot(g, v, sh, dir, name)
    ensures !HitsDot(g, v, sh, dir, name) ==> WellFormed(g, v2, sh2)
  {
    hide WellFormed, Base, Resolve, Find, DotPasses, EntOf, DeletedAt;
    var d := Resolve(g, v, sh, dir);
    if d.Some? && Find(g, v, sh, d.value, name).Some? {
      ErasedKeepsIff(g, v, sh, v2, sh2, d.value, Find(g, v, sh, d.value, name).value, r);
    }
  }

  lemma ErasedKeepsIff(g: Geo, v: Vol, sh: Shape, v2: Vol, sh2: Shape, d: nat, idx: nat, r: int)
    requires WellFormed(g, v, sh) && IsDir(sh, d) && DeletedAt(g, v, sh, v2, sh2, d, idx, r)
    ensures Sound(g, v2) <==> !(IsDot(d, idx) && DotPasses(g, v, sh, d, idx))
    ensures !(IsDot(d, idx) && DotPasses(g, v, sh, d, idx)) ==> WellFormed(g, v2, sh2)
  {
    hide WellFormed, Base, DotPasses, EntOf, ErasedVol, ErasedShape, Erasable;
    if r == 0 && IsDot(d, idx) {
      forall s ensures !WellFormed(g, v2, s) {
        DeletedDotBreaks(g, v, sh, v2, sh2, d, idx, r, s);
      }
    } else if r == 0 {
      EraseStep(g, v, sh, d, idx);
    }
  }

  /** Such a delete reports success and breaks the volume. */
  lemma DotDeleteBreaks(g: Geo, v: Vol, sh: Shape, v2: Vol, sh2: Shape, dir: CString, name: Name, r: int)
    requires WellFormed(g, v, sh) && DeleteOutcome(g, v, sh, v2, sh2, dir, name, r) && HitsDot(g, v, sh, dir, name)
    ensures r == 0 && !Sound(g, v2)
  {
    hide WellFormed, Base, Resolve, Find, DotPasses, EntOf, DeletedAt;
    var d := Resolve(g, v, sh, dir).value;
    var i := Find(g, v, sh, d, name).value;
    DeletedDotBreaks(g, v, sh, v2, sh2, d, i, r, sh);
    forall s ensures !WellFormed(g, v2, s) {
      DeletedDotBreaks(g, v, sh, v2, sh2, d, i, r, s);
    }
  }

  /** Every call, by its outcome: the volume is well formed after it exactly when the
      condition held before it. */
  lemma StepKeepsIff(g: Geo, v: Vol, sh: Shape, v2: Vol, sh2: Shape, op: Op, r: int)
    requires WellFormed(g, v, sh) && Outcome(g, v, sh, v2, sh2, op, r)
    ensures Sound(g, v2) <==> Keeps(g, v, sh, op)
    ensures Keeps(g, v, sh, op) ==> WellFormed(g, v2, sh2)
  {
    hide WellFormed, Base, Find, Resolve, EntOf, WriteOutcome, DeleteOutcome, MadeDir, Lookup, Free, HasRoom, FilesSame,
         WriteFits, HitsDot, Lost, To83Spec;
    match op
    case OpWrite(dir, name, data) =>
      To83Never(name);
      WriteSucceedsIff(g, v, sh, v2, sh2, dir, To83Spec(name), data, r);
      if r == 0 {
        WriteKeepsIff(g, v, sh, v2, sh2, dir, To83Spec(name), data);
      } else {
        FailedWriteIff(g, v, sh, v2, sh2, dir, To83Spec(name), data);
      }
    case OpDelete(dir, name) =>
      DeleteKeepsIff(g, v, sh, v2, sh2, dir, To83Spec(name), r);
    case OpMkdir(name) =>
      To83Never(name);
      if r == 0 {
        MkdirKeepsIff(g, v, sh, v2, sh2, To83Spec(name));
      }
  }

  /** The volumes a run goes through: each call has one of the outcomes the driver's methods
      promise, and they promise nothing once the volume is broken. */
  ghost predicate IsRun(g: Geo, vs: seq<Vol>, shs: seq<Shape>, ops: seq<Op>, rs: seq<int>) {
    && |vs| == |shs| == |ops| + 1 && |rs| == |ops| && WellFormed(g, vs[0], shs[0])
    && forall i | 0 <= i < |ops| && WellFormed(g, vs[i], shs[i]) ::
         Outcome(g, vs[i], shs[i], vs[i + 1], shs[i + 1], ops[i], rs[i])
  }

  ghost predicate Kept(g: Geo, v: Vol, sh: Shape, op: Op) {
    WellFormed(g, v, sh) && Keeps(g, v, sh, op)
  }

  /** A run goes through well-formed volumes only, exactly when each call meets the condition. */
  lemma {:induction false} RunsKeepIff(g: Geo, vs: seq<Vol>, shs: seq<Shape>, ops: seq<Op>, rs: seq<int>)
    requires IsRun(g, vs, shs, ops, rs)
    ensures (forall i | 0 <= i < |vs| :: Sound(g, vs[i])) <==>
            (forall i | 0 <= i < |ops| :: Kept(g, vs[i], shs[i], ops[i]))
    ensures (forall i | 0 <= i < |vs| :: Sound(g, vs[i])) ==> (forall i | 0 <= i < |vs| :: WellFormed(g, vs[i], shs[i]))
  {
    hide WellFormed, Outcome, Keeps;
    var k := 0;
    while k < |ops| && Kept(g, vs[k], shs[k], ops[k])
      invariant k <= |ops| && forall i | 0 <= i < k :: Kept(g, vs[i], shs[i], ops[i])
      invariant forall i | 0 <= i <= k :: WellFormed(g, vs[i], shs[i])
    {
      StepKeepsIff(g, vs[k], shs[k], vs[k + 1], shs[k + 1], ops[k], rs[k]);
      k := k + 1;
    }
    if k < |ops| {
      StepKeepsIff(g, vs[k], shs[k], vs[k + 1], shs[k + 1], ops[k], rs[k]);
    }
  }

  // ----- the file system as a map -----

  /** A directory by its name in the root; the root itself is `None`. */
  type FileKey = (Option<Name>, Name)

  /** The names of the directories, and the contents of every file. */
  datatype Fs = Fs(dirs: iset<Name>, files: imap<FileKey, seq<byte>>)

  function KeyOf(dir: CString, name: Name): FileKey {
    (if dir == [] then None else Some(To83Spec(dir)), name)
  }

  ghost function FileAt(g: Geo, v: Vol, sh: Shape, k: FileKey): Option<seq<byte>>
    requires WellFormed(g, v, sh)
  {
    if k.0 == None then File(g, v, sh, 0, k.1)
    else
      var d := SubDir(g, v, sh, k.0.value);
      if d.None? then None
      else
        SubDirIsDir(g, v, sh, k.0.value);
        File(g, v, sh, d.value, k.1)
  }

  ghost function FsOf(g: Geo, v: Vol, sh: Shape): Fs
    requires WellFormed(g, v, sh)
  {
    Fs(iset n: Name | SubDir(g, v, sh, n).Some?,
       imap k: FileKey | FileAt(g, v, sh, k).Some? :: FileAt(g, v, sh, k).value)
  }

  ghost function Look(fs: Fs, dir: CString, name: Name): Option<seq<byte>> {
    if KeyOf(dir, name) in fs.files then Some(fs.files[KeyOf(dir, name)]) else None
  }

  lemma LookupIsLook(g: Geo, v: Vol, sh: Shape, dir: CString, name: Name)
    requires WellFormed(g, v, sh)
    ensures Lookup(g, v, sh, dir, name) == Look(FsOf(g, v, sh), dir, name)
  {
    hide WellFormed, File, SubDir;
    assert Lookup(g, v, sh, dir, name) == FileAt(g, v, sh, KeyOf(dir, name));
  }

  ghost predicate IsFolder(fs: Fs, dir: CString) {
    dir == [] || To83Spec(dir) in fs.dirs
  }

  /** The root entry `n` names an empty directory. */
  ghost predicate EmptyFolder(fs: Fs, n: Name) {
    n in fs.dirs && forall m: Name :: (Some(n), m) !in fs.files
  }

  /** What has to be there for a call to succeed; for a delete, that is enough. */
  ghost predicate Possible(fs: Fs, op: Op) {
    match op
    case OpWrite(dir, name, _) => IsFolder(fs, dir) && (dir == [] ==> To83Spec(name) !in fs.dirs)
    case OpDelete(dir, name) =>
      KeyOf(dir, To83Spec(name)) in fs.files || (dir == [] && EmptyFolder(fs, To83Spec(name)))
    case OpMkdir(name) => To83Spec(name) !in fs.dirs && (None, To83Spec(name)) !in fs.files
  }

  /** What a call does to the map. */
  ghost function Apply(fs: Fs, op: Op, r: int): Fs {
    if r != 0 then fs
    else
      match op
      case OpWrite(dir, name, data) =>
        if LiveName(To83Spec(name)) then fs.(files := fs.files[KeyOf(dir, To83Spec(name)) := data]) else fs
      case OpDelete(dir, name) =>
        var k := KeyOf(dir, To83Spec(name));
        if k in fs.files then fs.(files := fs.files - {k})
        else fs.(dirs := fs.dirs - iset{To83Spec(name)})
      case OpMkdir(name) => fs.(dirs := fs.dirs + iset{To83Spec(name)})
  }

  ghost function Fold(fs: Fs, ops: seq<Op>, rs: seq<int>, n: nat): Fs
    requires n <= |ops| && |rs| == |ops|
  {
    if n == 0 then fs else Apply(Fold(fs, ops, rs, n - 1), ops[n - 1], rs[n - 1])
  }

  /** No two names lead to one directory. */
  lemma SubDirsDiffer(g: Geo, v: Vol, sh: Shape, a: Name, b: Name)
    requires WellFormed(g, v, sh) && SubDir(g, v, sh, a).Some? && SubDir(g, v, sh, a) == SubDir(g, v, sh, b)
    ensures a == b
  {
    var i, j := Find(g, v, sh, 0, a).value, Find(g, v, sh, 0, b).value;
    SlotsAreFine(g, v, sh, 0, i);
    SlotsAreFine(g, v, sh, 0, j);
  }

  lemma SameIsSame(g: Geo, v: Vol, sh: Shape, v2: Vol, sh2: Shape)
    requires WellFormed(g, v, sh) && WellFormed(g, v2, sh2) && FilesSame(g, v, sh, v2, sh2)
    ensures FsOf(g, v2, sh2) == FsOf(g, v, sh)
  {
    forall k: FileKey ensures FileAt(g, v2, sh2, k) == FileAt(g, v, sh, k) {
      SameAt(g, v, sh, v2, sh2, k);
    }
    hide WellFormed, Base, File, SubDir, FileAt;
    assert FsOf(g, v2, sh2).dirs == FsOf(g, v, sh).dirs;
    assert FsOf(g, v2, sh2).files == FsOf(g, v, sh).files;
  }

  lemma SameAt(g: Geo, v: Vol, sh: Shape, v2: Vol, sh2: Shape, k: FileKey)
    requires WellFormed(g, v, sh) && WellFormed(g, v2, sh2) && FilesSame(g, v, sh, v2, sh2)
    ensures FileAt(g, v2, sh2, k) == FileAt(g, v, sh, k)
  {
    hide WellFormed, Base, File, SubDir;
    assert k.0.Some? ==> SubDir(g, v2, sh2, k.0.value) == SubDir(g, v, sh, k.0.value);
    if k.0.Some? && SubDir(g, v, sh, k.0.value).Some? {
      SubDirIsDir(g, v, sh, k.0.value);
    }
  }

  // ----- one call as an update of the map -----

  /** One key set or removed. */
  ghost function Updated(fs: Fs, k: FileKey, f: Option<seq<byte>>): Fs {
    if f.None? then fs.(files := fs.files - {k}) else fs.(files := fs.files[k := f.value])
  }

  lemma SetAt(g: Geo, v: Vol, sh: Shape, v2: Vol, sh2: Shape, dir: CString, d: nat, name: Name, f: Option<seq<byte>>,
              k: FileKey)
    requires WellFormed(g, v, sh) && IsDir(sh, d) && Resolve(g, v, sh, dir) == Some(d)
    requires FileSet(g, v, sh, v2, sh2, d, name, f)
    ensures WellFormed(g, v2, sh2) && FileAt(g, v2, sh2, k) == if k == KeyOf(dir, name) then f else FileAt(g, v, sh, k)
  {
    hide WellFormed, Base, File, SubDir, To83Spec, Plain;
    assert k.0.Some? ==> SubDir(g, v2, sh2, k.0.value) == SubDir(g, v, sh, k.0.value);
    if dir != [] { SubDirIsDir(g, v, sh, To83Spec(dir)); }
    if k.0.Some? && SubDir(g, v, sh, k.0.value).Some? {
      SubDirIsDir(g, v, sh, k.0.value);
      if SubDir(g, v, sh, k.0.value).value == d && dir != [] {
        SubDirsDiffer(g, v, sh, k.0.value, To83Spec(dir));
      }
    }
  }

  lemma SetIsUpdate(g: Geo, v: Vol, sh: Shape, v2: Vol, sh2: Shape, dir: CString, d: nat, name: Name,
                    f: Option<seq<byte>>)
    requires WellFormed(g, v, sh) && IsDir(sh, d) && Resolve(g, v, sh, dir) == Some(d)
    requires FileSet(g, v, sh, v2, sh2, d, name, f)
    ensures WellFormed(g, v2, sh2) && FsOf(g, v2, sh2) == Updated(FsOf(g, v, sh), KeyOf(dir, name), f)
  {
    hide WellFormed, Base, File, SubDir, FileAt, KeyOf, Plain, Resolve;
    forall k: FileKey ensures FileAt(g, v2, sh2, k) == if k == KeyOf(dir, name) then f else FileAt(g, v, sh, k) {
      SetAt(g, v, sh, v2, sh2, dir, d, name, f, k);
    }
    assert FsOf(g, v2, sh2).dirs == FsOf(g, v, sh).dirs;
    assert FsOf(g, v2, sh2).files == Updated(FsOf(g, v, sh), KeyOf(dir, name), f).files;
  }

  lemma MadeAt(g: Geo, v: Vol, sh: Shape, v2: Vol, sh2: Shape, name: Name, nc: nat, k: FileKey)
    requires WellFormed(g, v, sh) && MadeDir(g, v, sh, v2, sh2, name, nc) && SubDir(g, v, sh, name) == None
    ensures WellFormed(g, v2, sh2) && FileAt(g, v2, sh2, k) == FileAt(g, v, sh, k)
  {
    hide WellFormed, Base, File, SubDir;
    if k.0.Some? && SubDir(g, v, sh, k.0.value).Some? {
      SubDirIsDir(g, v, sh, k.0.value);
      assert SubDir(g, v2, sh2, k.0.value) == SubDir(g, v, sh, k.0.value);
    }
    assert k.0.Some? ==>
        SubDir(g, v2, sh2, k.0.value) == if k.0.value == name then Some(nc) else SubDir(g, v, sh, k.0.value);
  }

  lemma MadeIsUpdate(g: Geo, v: Vol, sh: Shape, v2: Vol, sh2: Shape, name: Name, nc: nat)
    requires WellFormed(g, v, sh) && MadeDir(g, v, sh, v2, sh2, name, nc) && SubDir(g, v, sh, name) == None
    ensures WellFormed(g, v2, sh2)
    ensures var fs := FsOf(g, v, sh); FsOf(g, v2, sh2) == fs.(dirs := fs.dirs + iset{name})
  {
    hide WellFormed, Base, File, SubDir, FileAt;
    forall k: FileKey ensures FileAt(g, v2, sh2, k) == FileAt(g, v, sh, k) {
      MadeAt(g, v, sh, v2, sh2, name, nc, k);
    }
    assert FsOf(g, v2, sh2).dirs == FsOf(g, v, sh).dirs + iset{name};
    assert FsOf(g, v2, sh2).files == FsOf(g, v, sh).files;
  }

  lemma GoneAt(g: Geo, v: Vol, sh: Shape, v2: Vol, sh2: Shape, name: Name, h: nat, k: FileKey)
    requires WellFormed(g, v, sh) && DirGone(g, v, sh, v2, sh2, name, h) && SubDir(g, v, sh, name) == Some(h)
    ensures WellFormed(g, v2, sh2) && FileAt(g, v2, sh2, k) == FileAt(g, v, sh, k)
  {
    hide WellFormed, Base, File, SubDir;
    assert k.0.Some? ==>
        SubDir(g, v2, sh2, k.0.value) == if k.0.value == name then None else SubDir(g, v, sh, k.0.value);
    if k.0.Some? && SubDir(g, v2, sh2, k.0.value).Some? {
      SubDirIsDir(g, v2, sh2, k.0.value);
    }
    assert IsDir(sh2, 0) by {
      SubDirIsDir(g, v, sh, name);
    }
  }

  lemma GoneIsUpdate(g: Geo, v: Vol, sh: Shape, v2: Vol, sh2: Shape, name: Name, h: nat)
    requires WellFormed(g, v, sh) && DirGone(g, v, sh, v2, sh2, name, h) && SubDir(g, v, sh, name) == Some(h)
    ensures WellFormed(g, v2, sh2) && EmptyFolder(FsOf(g, v, sh), name)
    ensures var fs := FsOf(g, v, sh); FsOf(g, v2, sh2) == fs.(dirs := fs.dirs - iset{name})
  {
    hide WellFormed, Base, File, SubDir, FileAt;
    forall k: FileKey ensures FileAt(g, v2, sh2, k) == FileAt(g, v, sh, k) {
      GoneAt(g, v, sh, v2, sh2, name, h, k);
    }
    forall m: Name ensures FileAt(g, v, sh, (Some(name), m)) == None {
      GoneWasEmpty(g, v, sh, v2, sh2, name, h, m);
    }
    assert FsOf(g, v2, sh2).dirs == FsOf(g, v, sh).dirs - iset{name};
    assert FsOf(g, v2, sh2).files == FsOf(g, v, sh).files;
  }

  lemma GoneWasEmpty(g: Geo, v: Vol, sh: Shape, v2: Vol, sh2: Shape, name: Name, h: nat, m: Name)
    requires WellFormed(g, v, sh) && DirGone(g, v, sh, v2, sh2, name, h) && SubDir(g, v, sh, name) == Some(h)
    ensures FileAt(g, v, sh, (Some(name), m)) == None
  {
    hide WellFormed, Base, File, SubDir;
  }

  lemma WriteSets(g: Geo, v: Vol, sh: Shape, v2: Vol, sh2: Shape, dir: CString, name: Name, data: seq<byte>)
    requires WellFormed(g, v, sh) && WriteOutcome(g, v, sh, v2, sh2, dir, name, data, 0) && LiveName(name)
    ensures var d := Resolve(g, v, sh, dir);
            d.Some? && IsDir(sh, d.value) && FileSet(g, v, sh, v2, sh2, d.value, name, Some(data))
    ensures dir == [] ==> SubDir(g, v, sh, name) == None
  {
    hide WellFormed, Base, FileSet, EntOf, Need, Free, Lost;
    var d := Resolve(g, v, sh, dir).value;
    var i := Find(g, v, sh, d, name);
    if i.Some? { FoundName(g, v, sh, d, name, i.value); }
  }

  lemma WriteIsApply(g: Geo, v: Vol, sh: Shape, v2: Vol, sh2: Shape, dir: CString, name: CString, data: seq<byte>,
                     r: int)
    requires WellFormed(g, v, sh) && Keeps(g, v, sh, OpWrite(dir, name, data))
    requires Outcome(g, v, sh, v2, sh2, OpWrite(dir, name, data), r)
    ensures WellFormed(g, v2, sh2) && FsOf(g, v2, sh2) == Apply(FsOf(g, v, sh), OpWrite(dir, name, data), r)
    ensures r == 0 ==> IsFolder(FsOf(g, v, sh), dir) && (dir == [] ==> To83Spec(name) !in FsOf(g, v, sh).dirs)
  {
    hide WellFormed, Base, FileSet, FilesSame, WriteOutcome, WriteFits, Find, SubDir, To83Spec, Lookup, FileAt;
    StepKeepsIff(g, v, sh, v2, sh2, OpWrite(dir, name, data), r);
    WriteSucceedsIff(g, v, sh, v2, sh2, dir, To83Spec(name), data, r);
    To83Never(name);
    if r == 0 {
      WrittenIsApply(g, v, sh, v2, sh2, dir, To83Spec(name), data);
    } else {
      FailedWriteIff(g, v, sh, v2, sh2, dir, To83Spec(name), data);
      SameIsSame(g, v, sh, v2, sh2);
    }
  }

  lemma WrittenIsApply(g: Geo, v: Vol, sh: Shape, v2: Vol, sh2: Shape, dir: CString, name: Name, data: seq<byte>)
    requires WellFormed(g, v, sh) && WellFormed(g, v2, sh2) && WriteOutcome(g, v, sh, v2, sh2, dir, name, data, 0)
    requires name[0] != 0
    ensures FsOf(g, v2, sh2) ==
            if LiveName(name) then Updated(FsOf(g, v, sh), KeyOf(dir, name), Some(data)) else FsOf(g, v, sh)
    ensures IsFolder(FsOf(g, v, sh), dir) && (dir == [] ==> name !in FsOf(g, v, sh).dirs)
  {
    WriteReadsBackIff(g, v, sh, v2, sh2, dir, name, data);
    WriteNotDir(g, v, sh, v2, sh2, dir, name, data);
    hide WellFormed, Base, FileSet, FilesSame, WriteOutcome, WriteFits, Find, SubDir, To83Spec, Lookup, FileAt,
         FilesBut, File;
    if LiveName(name) {
      WriteSets(g, v, sh, v2, sh2, dir, name, data);
      SetIsUpdate(g, v, sh, v2, sh2, dir, Resolve(g, v, sh, dir).value, name, Some(data));
    } else {
      SameIsSame(g, v, sh, v2, sh2);
    }
  }

  lemma WriteNotDir(g: Geo, v: Vol, sh: Shape, v2: Vol, sh2: Shape, dir: CString, name: Name, data: seq<byte>)
    requires WellFormed(g, v, sh) && WriteOutcome(g, v, sh, v2, sh2, dir, name, data, 0)
    ensures dir == [] ==> SubDir(g, v, sh, name) == None
  {
    hide WellFormed, Base, FileSet, EntOf, Need, Free, Lost;
  }

  lemma MkdirIsApply(g: Geo, v: Vol, sh: Shape, v2: Vol, sh2: Shape, name: CString, r: int)
    requires WellFormed(g, v, sh) && Keeps(g, v, sh, OpMkdir(name)) && Outcome(g, v, sh, v2, sh2, OpMkdir(name), r)
    ensures WellFormed(g, v2, sh2) && FsOf(g, v2, sh2) == Apply(FsOf(g, v, sh), OpMkdir(name), r)
    ensures r == 0 ==> Possible(FsOf(g, v, sh), OpMkdir(name))
  {
    hide WellFormed, Base, MadeDir, Find, To83Spec, HasRoom, Free, Lost, FsOf, Possible;
    StepKeepsIff(g, v, sh, v2, sh2, OpMkdir(name), r);
    if r == 0 {
      NothingFound(g, v, sh, name);
      var nc :| MadeDir(g, v, sh, v2, sh2, To83Spec(name), nc);
      MadeIsUpdate(g, v, sh, v2, sh2, To83Spec(name), nc);
    }
  }

  lemma NothingFound(g: Geo, v: Vol, sh: Shape, name: CString)
    requires WellFormed(g, v, sh) && Find(g, v, sh, 0, To83Spec(name)) == None
    ensures SubDir(g, v, sh, To83Spec(name)) == None && Possible(FsOf(g, v, sh), OpMkdir(name))
  {
    hide WellFormed, Base, Find, To83Spec, EntOf;
  }

  // ----- deleting -----

  /** Whether the key is there, by what the directory says. */
  lemma KeyIsFile(g: Geo, v: Vol, sh: Shape, dir: CString, n: Name)
    requires WellFormed(g, v, sh)
    ensures var d := Resolve(g, v, sh, dir);
            && (d.Some? ==>
                  IsDir(sh, d.value) && (KeyOf(dir, n) in FsOf(g, v, sh).files <==> File(g, v, sh, d.value, n).Some?))
            && (d.None? ==> KeyOf(dir, n) !in FsOf(g, v, sh).files && dir != [])
  {
    LookupIsLook(g, v, sh, dir, n);
    hide WellFormed, Base, File, SubDir, To83Spec, FsOf, KeyOf, IsDir;
    if Resolve(g, v, sh, dir).Some? { ResolvedIsDir(g, v, sh, dir); }
  }

  lemma NotThere(g: Geo, v: Vol, sh: Shape, dir: CString, name: CString)
    requires WellFormed(g, v, sh)
    requires var d := Resolve(g, v, sh, dir);
             d.None? || (IsDir(sh, d.value) && Find(g, v, sh, d.value, To83Spec(name)) == None)
    ensures !Possible(FsOf(g, v, sh), OpDelete(dir, name))
  {
    KeyIsFile(g, v, sh, dir, To83Spec(name));
    hide WellFormed, Base, Find, To83Spec, FileAt, KeyOf, EntOf;
  }

  /** A directory none of whose names is a file can be erased. */
  lemma EmptyIsErasable(g: Geo, v: Vol, sh: Shape, idx: nat, h: nat)
    requires WellFormed(g, v, sh) && InDir(g, [], idx)
    requires var e := EntOf(g, v, sh, 0, idx); Live(e) && HasDirAttr(e) && h == HeadOf(e) && IsDir(sh, h) && h != 0
    requires forall m: Name :: File(g, v, sh, h, m) == None
    ensures Erasable(g, v, sh, 0, idx)
  {
    forall j | 2 <= j && InDir(g, ChOf(sh, h), j) ensures !Live(EntOf(g, v, sh, h, j)) {
      if Live(EntOf(g, v, sh, h, j)) {
        LiveIsFile(g, v, sh, h, j);
      }
    }
  }

  /** Every live entry of a subdirectory but the dots is a file. */
  lemma LiveIsFile(g: Geo, v: Vol, sh: Shape, d: nat, j: nat)
    requires WellFormed(g, v, sh) && IsDir(sh, d) && InDir(g, ChOf(sh, d), j) && !IsDot(d, j)
    requires Live(EntOf(g, v, sh, d, j)) && (d != 0 || !HasDirAttr(EntOf(g, v, sh, d, j)))
    ensures File(g, v, sh, d, NameOf(EntOf(g, v, sh, d, j))).Some?
  {
    hide WellFormed, TableOk, Base;
    var n := NameOf(EntOf(g, v, sh, d, j));
    SlotsAreFine(g, v, sh, d, j);
    DirIsFine(g, v, sh, d);
    assert Match(g, v, sh, d, n, j);
    FindIs(g, v, sh, d, n, j);
  }

  lemma FileGone(g: Geo, v: Vol, sh: Shape, v2: Vol, sh2: Shape, dir: CString, n: Name, d: nat, i: nat, r: int)
    requires WellFormed(g, v, sh) && IsDir(sh, d) && Resolve(g, v, sh, dir) == Some(d)
    requires Find(g, v, sh, d, n) == Some(i)
    requires !IsDot(d, i) && !HasDirAttr(EntOf(g, v, sh, d, i)) && DeletedAt(g, v, sh, v2, sh2, d, i, r)
    ensures r == 0 && WellFormed(g, v2, sh2) && KeyOf(dir, n) in FsOf(g, v, sh).files
    ensures FsOf(g, v2, sh2) == Updated(FsOf(g, v, sh), KeyOf(dir, n), None)
  {
    FoundName(g, v, sh, d, n, i);
    assert Erasable(g, v, sh, d, i);
    FileOfEntry(g, v, sh, d, n, i);
    KeyIsFile(g, v, sh, dir, n);
    hide WellFormed, Base, Find, KeyOf, FsOf, EntOf, Resolve, FileSet, Erasable, File, ErasedVol, ErasedShape,
         HasDirAttr;
    RemoveStep(g, v, sh, d, i);
    SetIsUpdate(g, v, sh, v2, sh2, dir, d, n, None);
  }

  lemma FolderGone(g: Geo, v: Vol, sh: Shape, v2: Vol, sh2: Shape, dir: CString, n: Name, d: nat, i: nat, r: int)
    requires WellFormed(g, v, sh) && IsDir(sh, d) && Resolve(g, v, sh, dir) == Some(d)
    requires Find(g, v, sh, d, n) == Some(i)
    requires !IsDot(d, i) && HasDirAttr(EntOf(g, v, sh, d, i)) && DeletedAt(g, v, sh, v2, sh2, d, i, r)
    ensures KeyOf(dir, n) !in FsOf(g, v, sh).files && dir == []
    ensures r == 0 <==> EmptyFolder(FsOf(g, v, sh), n)
    ensures r == 0 ==>
              WellFormed(g, v2, sh2) && var fs := FsOf(g, v, sh); FsOf(g, v2, sh2) == fs.(dirs := fs.dirs - iset{n})
  {
    hide WellFormed, Base, Find, KeyOf, FsOf, EntOf, Resolve, FileSet, Erasable, File, ErasedVol, ErasedShape,
         HasDirAttr, DirGone, SubDir, Free;
    FolderFound(g, v, sh, dir, n, d, i);
    KeyIsFile(g, v, sh, dir, n);
    var h := HeadOf(EntOf(g, v, sh, d, i));
    if r == 0 {
      DeletedDir(g, v, sh, v2, sh2, d, i);
      GoneIsUpdate(g, v, sh, v2, sh2, n, h);
    } else if EmptyFolder(FsOf(g, v, sh), n) {
      NoFilesThere(g, v, sh, n, h);
      EmptyIsErasable(g, v, sh, i, h);
    }
  }

  lemma FolderFound(g: Geo, v: Vol, sh: Shape, dir: CString, n: Name, d: nat, i: nat)
    requires WellFormed(g, v, sh) && IsDir(sh, d) && Resolve(g, v, sh, dir) == Some(d)
    requires Find(g, v, sh, d, n) == Some(i)
    requires !IsDot(d, i) && HasDirAttr(EntOf(g, v, sh, d, i))
    ensures d == 0 && dir == [] && InDir(g, [], i) && Live(EntOf(g, v, sh, 0, i)) && NameOf(EntOf(g, v, sh, 0, i)) == n
    ensures var h := HeadOf(EntOf(g, v, sh, 0, i)); IsDir(sh, h) && h != 0 && SubDir(g, v, sh, n) == Some(h)
    ensures File(g, v, sh, 0, n) == None
  {
    SlotsAreFine(g, v, sh, d, i);
    if dir != [] { SubDirIsDir(g, v, sh, To83Spec(dir)); }
  }

  lemma NoFilesThere(g: Geo, v: Vol, sh: Shape, n: Name, h: nat)
    requires WellFormed(g, v, sh) && SubDir(g, v, sh, n) == Some(h) && EmptyFolder(FsOf(g, v, sh), n)
    ensures IsDir(sh, h) && forall m: Name :: File(g, v, sh, h, m) == None
  {
    hide WellFormed, Base, File, SubDir;
    SubDirIsDir(g, v, sh, n);
    forall m: Name ensures File(g, v, sh, h, m) == None {
      NoFileThere(g, v, sh, n, h, m);
    }
  }

  lemma NoFileThere(g: Geo, v: Vol, sh: Shape, n: Name, h: nat, m: Name)
    requires WellFormed(g, v, sh) && SubDir(g, v, sh, n) == Some(h) && IsDir(sh, h) && EmptyFolder(FsOf(g, v, sh), n)
    ensures File(g, v, sh, h, m) == None
  {
    hide WellFormed, Base, File, SubDir;
    assert FileAt(g, v, sh, (Some(n), m)) == File(g, v, sh, h, m);
  }

  lemma DotStays(g: Geo, v: Vol, sh: Shape, dir: CString, n: Name, d: nat, i: nat)
    requires WellFormed(g, v, sh) && IsDir(sh, d) && Resolve(g, v, sh, dir) == Some(d)
    requires Find(g, v, sh, d, n) == Some(i)
    requires IsDot(d, i)
    ensures KeyOf(dir, n) !in FsOf(g, v, sh).files && dir != []
  {
    FoundName(g, v, sh, d, n, i);
    FileOfEntry(g, v, sh, d, n, i);
    KeyIsFile(g, v, sh, dir, n);
    hide WellFormed, Base, Find, KeyOf, FsOf, EntOf, File;
    DotIs(g, v, sh, d, i);
  }

  lemma DeletedIsApply(g: Geo, v: Vol, sh: Shape, v2: Vol, sh2: Shape, dir: CString, name: CString, d: nat, i: nat,
                       r: int)
    requires WellFormed(g, v, sh) && IsDir(sh, d) && Resolve(g, v, sh, dir) == Some(d)
    requires Find(g, v, sh, d, To83Spec(name)) == Some(i) && DeletedAt(g, v, sh, v2, sh2, d, i, r)
    requires !(IsDot(d, i) && DotPasses(g, v, sh, d, i))
    ensures WellFormed(g, v2, sh2) && FsOf(g, v2, sh2) == Apply(FsOf(g, v, sh), OpDelete(dir, name), r)
    ensures r == 0 <==> Possible(FsOf(g, v, sh), OpDelete(dir, name))
  {
    var n := To83Spec(name);
    hide WellFormed, Base, Find, To83Spec, FsOf, KeyOf, EntOf, Resolve, EmptyFolder, Erasable, ErasedVol, ErasedShape,
         DotPasses;
    if IsDot(d, i) {
      DotStays(g, v, sh, dir, n, d, i);
    } else if HasDirAttr(EntOf(g, v, sh, d, i)) {
      FolderGone(g, v, sh, v2, sh2, dir, n, d, i, r);
    } else {
      FileGone(g, v, sh, v2, sh2, dir, n, d, i, r);
    }
  }

  lemma DeleteIsApply(g: Geo, v: Vol, sh: Shape, v2: Vol, sh2: Shape, dir: CString, name: CString, r: int)
    requires WellFormed(g, v, sh) && Keeps(g, v, sh, OpDelete(dir, name))
    requires Outcome(g, v, sh, v2, sh2, OpDelete(dir, name), r)
    ensures WellFormed(g, v2, sh2) && FsOf(g, v2, sh2) == Apply(FsOf(g, v, sh), OpDelete(dir, name), r)
    ensures r == 0 <==> Possible(FsOf(g, v, sh), OpDelete(dir, name))
  {
    var n := To83Spec(name);
    StepKeepsIff(g, v, sh, v2, sh2, OpDelete(dir, name), r);
    hide WellFormed, Base, Find, File, SubDir, To83Spec, Lookup, Possible, Apply, DeletedAt, FsOf;
    var d := Resolve(g, v, sh, dir);
    if d.Some? {
      ResolvedIsDir(g, v, sh, dir);
      var i := Find(g, v, sh, d.value, n);
      if i.Some? {
        DeletedIsApply(g, v, sh, v2, sh2, dir, name, d.value, i.value, r);
      } else {
        NotThere(g, v, sh, dir, name);
      }
    } else {
      NotThere(g, v, sh, dir, name);
    }
  }

  // ----- runs as updates of the map -----

  /** Each call refines its update of the map, and succeeds only where that is possible;
      a delete succeeds just where it is. */
  lemma StepIsApply(g: Geo, v: Vol, sh: Shape, v2: Vol, sh2: Shape, op: Op, r: int)
    requires WellFormed(g, v, sh) && Keeps(g, v, sh, op) && Outcome(g, v, sh, v2, sh2, op, r)
    ensures WellFormed(g, v2, sh2) && FsOf(g, v2, sh2) == Apply(FsOf(g, v, sh), op, r)
    ensures r == 0 ==> Possible(FsOf(g, v, sh), op)
    ensures op.OpDelete? && Possible(FsOf(g, v, sh), op) ==> r == 0
  {
    hide *;
    match op
    case OpWrite(dir, name, data) =>
      WriteIsApply(g, v, sh, v2, sh2, dir, name, data, r);
      WriteWasPossible(FsOf(g, v, sh), dir, name, data);
    case OpDelete(dir, name) => DeleteIsApply(g, v, sh, v2, sh2, dir, name, r);
    case OpMkdir(name) => MkdirIsApply(g, v, sh, v2, sh2, name, r);
  }

  lemma WriteWasPossible(fs: Fs, dir: CString, name: CString, data: seq<byte>)
    ensures IsFolder(fs, dir) && (dir == [] ==> To83Spec(name) !in fs.dirs) ==> Possible(fs, OpWrite(dir, name, data))
  {
  }

  /** Read-back over whole runs: after any number of calls that keep the volume well formed,
      the files are those of the updates applied in order to what was there at first, and
      every path reads as that map says. */
  lemma {:induction false} RunIsFold(g: Geo, vs: seq<Vol>, shs: seq<Shape>, ops: seq<Op>, rs: seq<int>, k: nat)
    requires IsRun(g, vs, shs, ops, rs) && k <= |ops|
    requires forall i | 0 <= i < k :: Kept(g, vs[i], shs[i], ops[i])
    ensures WellFormed(g, vs[k], shs[k]) && FsOf(g, vs[k], shs[k]) == Fold(FsOf(g, vs[0], shs[0]), ops, rs, k)
    ensures forall dir: CString, name: Name ::
              Lookup(g, vs[k], shs[k], dir, name) == Look(Fold(FsOf(g, vs[0], shs[0]), ops, rs, k), dir, name)
  {
    hide WellFormed, Outcome, Keeps, FsOf, Apply, Lookup, Look;
    if k > 0 {
      RunIsFold(g, vs, shs, ops, rs, k - 1);
      StepIsApply(g, vs[k - 1], shs[k - 1], vs[k], shs[k], ops[k - 1], rs[k - 1]);
    }
    forall dir: CString, name: Name
      ensures Lookup(g, vs[k], shs[k], dir, name) == Look(FsOf(g, vs[k], shs[k]), dir, name)
    {
      LookupIsLook(g, vs[k], shs[k], dir, name);
    }
  }

  // ----- names -----

  ghost predicate TidyFs(fs: Fs) {
    && (forall n | n in fs.dirs :: Tidy(n) && 0 !in n)
    && (forall k | k in fs.files :: Tidy(k.1) && 0 !in k.1)
  }

  /** The names a call stores have no blanks. */
  predicate BlankFree(op: Op) {
    match op
    case OpWrite(_, name, _) => SPACE !in name
    case OpDelete(_, _) => true
    case OpMkdir(name) => SPACE !in name
  }

  lemma ApplyKeepsTidy(fs: Fs, op: Op, r: int)
    requires TidyFs(fs) && BlankFree(op)
    ensures TidyFs(Apply(fs, op, r))
  {
    hide Tidy, To83Spec;
    match op
    case OpWrite(_, name, _) =>
      BlankFreeIsTidy(name);
      StoredNoZero(name);
    case OpDelete(_, _) =>
    case OpMkdir(name) =>
      BlankFreeIsTidy(name);
      StoredNoZero(name);
  }

  lemma {:induction false} FoldKeepsTidy(fs: Fs, ops: seq<Op>, rs: seq<int>, n: nat)
    requires n <= |ops| && |rs| == |ops| && TidyFs(fs) && forall i | 0 <= i < n :: BlankFree(ops[i])
    ensures TidyFs(Fold(fs, ops, rs, n))
  {
    hide TidyFs, Apply;
    if n > 0 {
      FoldKeepsTidy(fs, ops, rs, n - 1);
      ApplyKeepsTidy(Fold(fs, ops, rs, n - 1), ops[n - 1], rs[n - 1]);
    }
  }

  /** The name of a live entry, not a dot entry, is a key of the map. */
  lemma LiveIsTidy(g: Geo, v: Vol, sh: Shape, dir: CString, d: nat, j: nat)
    requires WellFormed(g, v, sh) && TidyFs(FsOf(g, v, sh)) && Resolve(g, v, sh, dir) == Some(d)
    requires IsDir(sh, d) && InDir(g, ChOf(sh, d), j) && !IsDot(d, j) && Live(EntOf(g, v, sh, d, j))
    ensures var n := NameOf(EntOf(g, v, sh, d, j)); Tidy(n) && 0 !in n
  {
    var n := NameOf(EntOf(g, v, sh, d, j));
    KeyIsFile(g, v, sh, dir, n);
    hide Base, FsOf, TableOk, Tidy, KeyOf;
    if d == 0 && HasDirAttr(EntOf(g, v, sh, d, j)) {
      LiveIsFolder(g, v, sh, j);
    } else {
      LiveIsFile(g, v, sh, d, j);
      assert KeyOf(dir, n).1 == n;
    }
  }

  lemma LiveIsFolder(g: Geo, v: Vol, sh: Shape, j: nat)
    requires WellFormed(g, v, sh) && InDir(g, [], j)
    requires Live(EntOf(g, v, sh, 0, j)) && HasDirAttr(EntOf(g, v, sh, 0, j))
    ensures NameOf(EntOf(g, v, sh, 0, j)) in FsOf(g, v, sh).dirs
  {
    var n := NameOf(EntOf(g, v, sh, 0, j));
    DirIsFine(g, v, sh, 0);
    hide WellFormed, TableOk, Base, FileAt;
    assert Match(g, v, sh, 0, n, j);
    FindIs(g, v, sh, 0, n, j);
  }

  /** Over every run that starts with tidy names and stores names without blanks: what a
      directory lists, but for its dot entries, can be looked up by the name it is listed under. */
  lemma ListedNamesWork(g: Geo, vs: seq<Vol>, shs: seq<Shape>, ops: seq<Op>, rs: seq<int>, k: nat,
                        dir: CString, d: nat, slots: seq<nat>, out: seq<Item>, i: nat)
    requires IsRun(g, vs, shs, ops, rs) && k <= |ops|
    requires forall m | 0 <= m < k :: Kept(g, vs[m], shs[m], ops[m]) && BlankFree(ops[m])
    requires TidyFs(FsOf(g, vs[0], shs[0]))
    requires WellFormed(g, vs[k], shs[k]) && Resolve(g, vs[k], shs[k], dir) == Some(d)
    requires Listing(g, vs[k], shs[k], d, slots, out) && i < |slots| && !IsDot(d, slots[i])
    ensures 0 !in out[i].name && Find(g, vs[k], shs[k], d, To83Spec(out[i].name)) == Some(slots[i])
  {
    hide WellFormed, Outcome, Keeps, FsOf, TidyFs, EntOf, Tidy, Resolve, Find, Look, Lookup;
    assert Shown(g, vs[k], shs[k], d, slots[i]);
    RunIsFold(g, vs, shs, ops, rs, k);
    FoldKeepsTidy(FsOf(g, vs[0], shs[0]), ops, rs, k);
    LiveIsTidy(g, vs[k], shs[k], dir, d, slots[i]);
    ListedNameFindsSlot(g, vs[k], shs[k], d, slots, out, i);
  }
}
