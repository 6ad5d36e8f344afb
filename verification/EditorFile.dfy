/** The editor and the file system together: what a clean editor says about its file. */
module EditorFile {
  import opened Arith
  import opened Bytes
  import opened EditText
  import opened FatDir
  import opened FatState
  import opened FatNames
  import opened FatFacts
  import opened FatTheorems
  import opened FatWrites
  import opened FatRuns
  import opened Wrappers

  const SLASH: byte := 0x2F
  /** Characters of a path the editor keeps. */
  const PATH_MAX := 31

  // ----- the path -----

  /** Directory and file: up to twelve characters each, the directory in upper case. */
  datatype Place = Place(dir: CString, file: CString)

  function SplitPath(p: CString): Place {
    var n := Min(12, Before(p, SLASH));
    var q := if n < |p| && p[n] == SLASH then n + 1 else n;
    UpperHasNoZero(p[..n]);
    Place(UpperAll(p[..n]), p[q..][..Min(12, |p| - q)])
  }

  lemma UpperHasNoZero(s: seq<byte>)
    requires 0 !in s
    ensures 0 !in UpperAll(s)
  {
    var u := UpperAll(s);
    assert forall i | 0 <= i < |u| :: u[i] == Upper(s[i]) && s[i] in s;
  }

  predicate Named(at: Place) { at.dir != [] && at.file != [] }

  /** Where edit_file loads from: a leading slash is optional. */
  function LoadPlace(path: CString): Place {
    SplitPath(if path != [] && path[0] == SLASH then path[1..] else path)
  }

  /** Where ed_save writes to, from the path as the editor kept it; nowhere without a leading slash. */
  function SavePlace(path: CString): Option<Place> {
    var kept := path[..Min(PATH_MAX, |path|)];
    if kept == [] || kept[0] != SLASH || !Named(SplitPath(kept[1..])) then None else Some(SplitPath(kept[1..]))
  }

  /** What is saved goes where the file was loaded from, or nowhere: the latter exactly when the
      path has no leading slash or names no file in a directory. */
  lemma SavesWhereLoaded(path: CString)
    ensures SavePlace(path) ==
            if path != [] && path[0] == SLASH && Named(LoadPlace(path)) then Some(LoadPlace(path)) else None
  {
    if path != [] {
      CutIsSame(path[1..], Min(PATH_MAX, |path|) - 1);
      assert path[..Min(PATH_MAX, |path|)][1..] == path[1..][..Min(PATH_MAX, |path|) - 1];
    }
  }

  /** No more than 25 characters of a path are looked at. */
  lemma CutIsSame(p: CString, m: nat)
    requires m <= |p| && (m >= 25 || m == |p|)
    ensures SplitPath(p[..m]) == SplitPath(p)
  {
    var c := p[..m];
    var k := Min(12, Before(p, SLASH));
    if m == |p| {
      assert c == p;
    } else {
      CutBefore(p, c, m, k);
      assert c[..k] == p[..k];
      var q := if k < |p| && p[k] == SLASH then k + 1 else k;
      SliceOfCut(p, m, q, 12);
    }
  }

  lemma SliceOfCut(p: seq<byte>, m: nat, q: nat, n: nat)
    requires q + n <= m <= |p|
    ensures p[..m][q..][..n] == p[q..][..n]
  {
    var a, b := p[..m][q..][..n], p[q..][..n];
    assert forall i | 0 <= i < n :: a[i] == p[q + i] == b[i];
  }

  lemma CutBefore(p: CString, c: CString, m: nat, k: nat)
    requires m <= |p| && c == p[..m] && (m >= 25 || m == |p|) && k == Min(12, Before(p, SLASH))
    ensures Min(12, Before(c, SLASH)) == k
  {
    hide Before;
    NoneBefore(p, SLASH);
    NoneBefore(c, SLASH);
  }

  lemma NoneBefore(s: seq<byte>, b: byte)
    ensures forall i | 0 <= i < Before(s, b) :: s[i] != b
  {
    forall i | 0 <= i < Before(s, b) ensures s[i] != b {
      assert s[i] in s[..Before(s, b)] by { assert s[..Before(s, b)][i] == s[i]; }
    }
  }

  /** A path names the directory and the file between and behind its slashes. */
  lemma PathMeans(dir: CString, file: CString)
    requires SLASH !in dir && |dir| <= 12 && |file| <= 12
    ensures 0 !in [SLASH] + dir + [SLASH] + file
    ensures var at := LoadPlace([SLASH] + dir + [SLASH] + file);
            at.file == file && To83Spec(at.dir) == To83Spec(dir) && (at.dir == [] <==> dir == [])
  {
    hide To83Spec, UpperAll;
    var path := [SLASH] + dir + [SLASH] + file;
    assert forall i | 0 <= i < |path| :: path[i] == SLASH || path[i] in dir || path[i] in file;
    var p := path[1..];
    assert p == dir + [SLASH] + file;
    assert p[..|dir|] == dir;
    BeforeIs(p, SLASH, |dir|);
    assert p[|dir| + 1..] == file && file[..|file|] == file;
    UpperStoredAlike(dir);
  }

  lemma UpperStoredAlike(dir: CString)
    ensures 0 !in UpperAll(dir) && |UpperAll(dir)| == |dir| && To83Spec(UpperAll(dir)) == To83Spec(dir)
  {
    UpperHasNoZero(dir);
    var base, ext := Halves(dir);
    UpperSplits(dir, base, ext);
    UpperAlike(base);
    UpperAlike(ext);
    hide Splits, Alike, To83Spec, UpperAll;
    StoredAlikeIff(UpperAll(dir), UpperAll(base), UpperAll(ext), dir, base, ext);
  }

  lemma UpperAlike(s: seq<byte>)
    ensures Alike(UpperAll(s), s)
  {
  }

  lemma UpperSplits(name: seq<byte>, base: seq<byte>, ext: seq<byte>)
    requires Splits(name, base, ext)
    ensures Splits(UpperAll(name), UpperAll(base), UpperAll(ext))
  {
    var tail := name[|base|..];
    UpperParts(name, |base|);
    if tail != [] && tail[0] == DOT {
      UpperParts(tail, 1);
      UpperParts(tail[1..], |ext|);
    } else {
      UpperParts(tail, |ext|);
    }
    assert name[..|base|] == base;
    assert forall i | 0 <= i < |base| :: UpperAll(base)[i] == Upper(base[i]) && base[i] in base;
  }

  lemma UpperParts(s: seq<byte>, n: nat)
    requires n <= |s|
    ensures UpperAll(s)[..n] == UpperAll(s[..n]) && UpperAll(s)[n..] == UpperAll(s[n..])
  {
  }

  // ----- a session -----

  /** What the editor starts with: the file, if the path names one and there was memory to read it. */
  ghost function Start(g: Geo, v: Vol, sh: Shape, path: CString, memory: bool): (s: State)
    requires WellFormed(g, v, sh)
    ensures StateOk(s)
  {
    var at := LoadPlace(path);
    var f := Lookup(g, v, sh, at.dir, To83Spec(at.file));
    if Named(at) && f.Some? && memory then Opened(f.value) else Opened([])
  }

  /** The key is a save that reaches the file system. */
  predicate Saves(path: CString, s: State, k: Key) { k.Save? && !s.over && SavePlace(path).Some? }

  function SaveOp(path: CString, s: State): Op
    requires SavePlace(path).Some?
  {
    OpWrite(SavePlace(path).value.dir, SavePlace(path).value.file, s.text)
  }

  /** One key: a save writes the text and succeeds as the driver says; nothing else touches the volume. */
  ghost predicate Turn(g: Geo, v: Vol, sh: Shape, v2: Vol, sh2: Shape, path: CString, s: State, k: Key)
    requires Base(g, v, sh)
  {
    if Saves(path, s, k) then exists r :: Outcome(g, v, sh, v2, sh2, SaveOp(path, s), r) && (k.ok <==> r == 0)
    else v2 == v && sh2 == sh && (k.Save? && !s.over ==> !k.ok)
  }

  /** The volumes a session goes through. */
  ghost predicate Session(g: Geo, vs: seq<Vol>, shs: seq<Shape>, path: CString, s: State, ks: seq<Key>) {
    && |vs| == |shs| == |ks| + 1 && WellFormed(g, vs[0], shs[0]) && StateOk(s)
    && forall i | 0 <= i < |ks| && WellFormed(g, vs[i], shs[i]) ::
         Turn(g, vs[i], shs[i], vs[i + 1], shs[i + 1], path, Run(s, ks[..i]), ks[i])
  }

  /** No save breaks the volume. */
  ghost predicate SafeTurn(g: Geo, v: Vol, sh: Shape, path: CString, s: State, k: Key) {
    WellFormed(g, v, sh) && Saves(path, s, k) ==> Keeps(g, v, sh, SaveOp(path, s))
  }

  /** Whether one of the first `n` keys was a save that succeeded. */
  predicate EverSaved(s: State, ks: seq<Key>, n: nat)
    requires StateOk(s) && n <= |ks|
  {
    n > 0 && (EverSaved(s, ks, n - 1) || (ks[n - 1] == Save(true) && !Run(s, ks[..n - 1]).over))
  }

  lemma TurnIs(g: Geo, v: Vol, sh: Shape, v2: Vol, sh2: Shape, path: CString, s: State, k: Key)
    requires WellFormed(g, v, sh) && StateOk(s) && Turn(g, v, sh, v2, sh2, path, s, k) && SafeTurn(g, v, sh, path, s, k)
    requires SavePlace(path).Some? ==> LiveName(To83Spec(SavePlace(path).value.file))
    ensures WellFormed(g, v2, sh2)
    ensures if k == Save(true) && !s.over then
              && SavePlace(path).Some? && Step(s, k).saved == s.text
              && var at := SavePlace(path).value;
                 FsOf(g, v2, sh2) == Updated(FsOf(g, v, sh), KeyOf(at.dir, To83Spec(at.file)), Some(s.text))
            else FsOf(g, v2, sh2) == FsOf(g, v, sh) && Step(s, k).saved == s.saved
  {
    hide WellFormed, Outcome, Keeps, FsOf, SplitPath, To83Spec, Up, Down, SavePlace;
    if Saves(path, s, k) {
      var r :| Outcome(g, v, sh, v2, sh2, SaveOp(path, s), r) && (k.ok <==> r == 0);
      StepIsApply(g, v, sh, v2, sh2, SaveOp(path, s), r);
    }
  }

  /** Over every session whose saves keep the volume well formed: the file on disk is the text as
      it was last saved, or what was there at first, and no other file has changed. */
  lemma {:induction false} SessionSaves(g: Geo, vs: seq<Vol>, shs: seq<Shape>, path: CString, s: State, ks: seq<Key>,
                                        n: nat)
    requires Session(g, vs, shs, path, s, ks) && n <= |ks|
    requires SavePlace(path).Some? ==> LiveName(To83Spec(SavePlace(path).value.file))
    requires forall i | 0 <= i < n :: SafeTurn(g, vs[i], shs[i], path, Run(s, ks[..i]), ks[i])
    ensures WellFormed(g, vs[n], shs[n])
    ensures if EverSaved(s, ks, n) then
              && SavePlace(path).Some?
              && var at := SavePlace(path).value;
                 FsOf(g, vs[n], shs[n])
                 == Updated(FsOf(g, vs[0], shs[0]), KeyOf(at.dir, To83Spec(at.file)), Some(Run(s, ks[..n]).saved))
            else FsOf(g, vs[n], shs[n]) == FsOf(g, vs[0], shs[0]) && Run(s, ks[..n]).saved == s.saved
  {
    hide WellFormed, Turn, SafeTurn, FsOf, To83Spec, Step, SavePlace;
    if n > 0 {
      SessionSaves(g, vs, shs, path, s, ks, n - 1);
      RunStep(s, ks, n - 1);
      TurnIs(g, vs[n - 1], shs[n - 1], vs[n], shs[n], path, Run(s, ks[..n - 1]), ks[n - 1]);
      if SavePlace(path).Some? {
        SetTwice(FsOf(g, vs[0], shs[0]), path, Run(s, ks[..n - 1]).saved, Run(s, ks[..n]).saved);
      }
    } else {
      assert ks[..0] == [];
    }
  }

  lemma SetTwice(fs: Fs, path: CString, a: seq<byte>, b: seq<byte>)
    requires SavePlace(path).Some?
    ensures var at := SavePlace(path).value;
            var k := KeyOf(at.dir, To83Spec(at.file));
            Updated(Updated(fs, k, Some(a)), k, Some(b)) == Updated(fs, k, Some(b))
  {
  }

  /** The file was there and was loaded whole. */
  ghost predicate LoadedWhole(g: Geo, v: Vol, sh: Shape, path: CString, memory: bool)
    requires WellFormed(g, v, sh)
  {
    var at := LoadPlace(path);
    var f := Lookup(g, v, sh, at.dir, To83Spec(at.file));
    Named(at) && memory && f.Some? && |f.value| <= MAX
  }

  /** A clean editor means the path reads back as the text, once it was saved, or loaded whole. Before
      that, a clean editor means nothing was typed and nothing was written. */
  lemma CleanReadsBack(g: Geo, vs: seq<Vol>, shs: seq<Shape>, path: CString, memory: bool, ks: seq<Key>, n: nat)
    requires |vs| == |shs| == |ks| + 1 && n <= |ks| && WellFormed(g, vs[0], shs[0])
    requires Session(g, vs, shs, path, Start(g, vs[0], shs[0], path, memory), ks)
    requires SavePlace(path).Some? ==> LiveName(To83Spec(SavePlace(path).value.file))
    requires forall i | 0 <= i < n ::
               SafeTurn(g, vs[i], shs[i], path, Run(Start(g, vs[0], shs[0], path, memory), ks[..i]), ks[i])
    requires !Run(Start(g, vs[0], shs[0], path, memory), ks[..n]).dirty
    ensures var s0 := Start(g, vs[0], shs[0], path, memory);
            var at, s := LoadPlace(path), Run(s0, ks[..n]);
            && WellFormed(g, vs[n], shs[n])
            && (EverSaved(s0, ks, n) || LoadedWhole(g, vs[0], shs[0], path, memory) ==>
                  Lookup(g, vs[n], shs[n], at.dir, To83Spec(at.file)) == Some(s.text))
            && (!EverSaved(s0, ks, n) ==> s.text == s0.text && FsOf(g, vs[n], shs[n]) == FsOf(g, vs[0], shs[0]))
  {
    hide *;
    var s0 := Start(g, vs[0], shs[0], path, memory);
    var at := LoadPlace(path);
    SavesWhereLoaded(path);
    SessionSaves(g, vs, shs, path, s0, ks, n);
    var file := StartIs(g, vs[0], shs[0], path, memory);
    CleanMeansSaved(file, ks[..n]);
    LookupIsLook(g, vs[n], shs[n], at.dir, To83Spec(at.file));
    LookupIsLook(g, vs[0], shs[0], at.dir, To83Spec(at.file));
    UpdatedLook(FsOf(g, vs[0], shs[0]), at.dir, To83Spec(at.file), Run(s0, ks[..n]).saved);
  }

  /** Typing, and then saving with success: the path reads back what was there followed by what was
      typed. */
  lemma TypedIsSaved(g: Geo, vs: seq<Vol>, shs: seq<Shape>, path: CString, memory: bool, w: seq<byte>)
    requires |vs| == |shs| == |w| + 2 && WellFormed(g, vs[0], shs[0])
    requires var s0 := Start(g, vs[0], shs[0], path, memory);
             && Session(g, vs, shs, path, s0, Typed(w) + [Save(true)]) && |s0.text| + |w| <= MAX
             && SafeTurn(g, vs[0], shs[0], path, Run(s0, Typed(w)), Save(true))
    requires SavePlace(path).Some? ==> LiveName(To83Spec(SavePlace(path).value.file))
    ensures var at := LoadPlace(path);
            var n, f := |w| + 1, Lookup(g, vs[0], shs[0], at.dir, To83Spec(at.file));
            && WellFormed(g, vs[n], shs[n])
            && (f == None ==> Lookup(g, vs[n], shs[n], at.dir, To83Spec(at.file)) == Some(w))
            && (f.Some? && memory && |f.value| <= MAX ==>
                  Lookup(g, vs[n], shs[n], at.dir, To83Spec(at.file)) == Some(f.value + w))
  {
    hide *;
    var s0 := Start(g, vs[0], shs[0], path, memory);
    var ks, n := Typed(w) + [Save(true)], |w| + 1;
    forall i | 0 <= i < n ensures SafeTurn(g, vs[i], shs[i], path, Run(s0, ks[..i]), ks[i]) {
      TypingIsSafe(g, vs, shs, path, s0, w, i);
    }
    StartIdle(g, vs[0], shs[0], path, memory);
    TypedAtEnd(s0, w);
    SavedAtEnd(s0, Typed(w));
    assert ks[..n] == ks;
    CleanReadsBack(g, vs, shs, path, memory, ks, n);
    TypingIsSafe(g, vs, shs, path, s0, w, |w|);
    SavedSomewhere(g, vs, shs, path, s0, w);
    assert [] + w == w;
    StartText(g, vs[0], shs[0], path, memory);
  }

  /** Nothing reaches the disk before the save. */
  lemma {:induction false} TypingIsSafe(g: Geo, vs: seq<Vol>, shs: seq<Shape>, path: CString, s: State, w: seq<byte>,
                                        i: nat)
    requires Session(g, vs, shs, path, s, Typed(w) + [Save(true)]) && i <= |w|
    requires SafeTurn(g, vs[0], shs[0], path, Run(s, Typed(w)), Save(true))
    ensures var ks := Typed(w) + [Save(true)];
            vs[i] == vs[0] && shs[i] == shs[0] && SafeTurn(g, vs[i], shs[i], path, Run(s, ks[..i]), ks[i])
    decreases i
  {
    hide WellFormed, Outcome, Keeps, Run, SavePlace, Typed;
    var ks := Typed(w) + [Save(true)];
    if i > 0 {
      TypingIsSafe(g, vs, shs, path, s, w, i - 1);
      assert ks[i - 1] == Char(w[i - 1]);
    }
    if i == |w| {
      assert ks[..i] == Typed(w);
    } else {
      assert ks[i] == Char(w[i]);
    }
  }

  lemma SavedAtEnd(s: State, ks: seq<Key>)
    requires StateOk(s) && !Run(s, ks).over
    ensures !Run(s, ks + [Save(true)]).dirty && Run(s, ks + [Save(true)]).text == Run(s, ks).text
    ensures EverSaved(s, ks + [Save(true)], |ks| + 1)
  {
    hide Run, Step, EverSaved;
    RunAppend(s, ks, Save(true));
    SavedNow(s, ks);
    SaveStep(Run(s, ks));
  }

  lemma SaveStep(s: State)
    requires StateOk(s) && !s.over
    ensures !Step(s, Save(true)).dirty && Step(s, Save(true)).text == s.text
  {
    hide Up, Down;
  }

  lemma SavedNow(s: State, ks: seq<Key>)
    requires StateOk(s) && !Run(s, ks).over
    ensures EverSaved(s, ks + [Save(true)], |ks| + 1)
  {
    hide Run;
    assert (ks + [Save(true)])[..|ks|] == ks;
  }

  /** A save with success has a place to go to. */
  lemma SavedSomewhere(g: Geo, vs: seq<Vol>, shs: seq<Shape>, path: CString, s: State, w: seq<byte>)
    requires Session(g, vs, shs, path, s, Typed(w) + [Save(true)]) && !Run(s, Typed(w)).over
    requires WellFormed(g, vs[|w|], shs[|w|])
    ensures SavePlace(path).Some? && Named(LoadPlace(path))
  {
    hide WellFormed, Outcome, SplitPath;
    var ks := Typed(w) + [Save(true)];
    assert ks[..|w|] == Typed(w) && ks[|w|] == Save(true);
    SavesWhereLoaded(path);
    assert Turn(g, vs[|w|], shs[|w|], vs[|w| + 1], shs[|w| + 1], path, Run(s, ks[..|w|]), ks[|w|]);
  }

  lemma TypedAtEnd(s: State, w: seq<byte>)
    requires StateOk(s) && !s.over && s.cur == |s.text| && |s.text| + |w| <= MAX
    ensures Run(s, Typed(w)).text == s.text + w && !Run(s, Typed(w)).over
  {
    hide Run;
    TypingInserts(s, w);
    assert w[..|w|] == w && s.text[..s.cur] == s.text && s.text[s.cur..] == [];
  }

  /** The editor starts with the cursor behind what it loaded. */
  lemma StartIdle(g: Geo, v: Vol, sh: Shape, path: CString, memory: bool)
    requires WellFormed(g, v, sh)
    ensures var s := Start(g, v, sh, path, memory); StateOk(s) && s.cur == |s.text| && !s.over && !s.dirty
  {
    hide WellFormed, Lookup, SplitPath, To83Spec;
  }

  lemma StartText(g: Geo, v: Vol, sh: Shape, path: CString, memory: bool)
    requires WellFormed(g, v, sh) && Named(LoadPlace(path))
    ensures var at, s := LoadPlace(path), Start(g, v, sh, path, memory);
            var f := Lookup(g, v, sh, at.dir, To83Spec(at.file));
            && (f == None ==> s.text == [])
            && (f.Some? && memory && |f.value| <= MAX ==> s.text == f.value)
  {
    hide WellFormed, Lookup, SplitPath, To83Spec;
  }

  lemma StartIs(g: Geo, v: Vol, sh: Shape, path: CString, memory: bool) returns (file: seq<byte>)
    requires WellFormed(g, v, sh)
    ensures var s := Start(g, v, sh, path, memory); s == Opened(file) && s.saved == s.text
    ensures var at := LoadPlace(path);
            LoadedWhole(g, v, sh, path, memory) ==>
              Lookup(g, v, sh, at.dir, To83Spec(at.file)) == Some(Start(g, v, sh, path, memory).text)
  {
    hide WellFormed, Lookup, SplitPath, To83Spec, Before;
    var at := LoadPlace(path);
    var f := Lookup(g, v, sh, at.dir, To83Spec(at.file));
    file := if Named(at) && f.Some? && memory then f.value else [];
    OpenedText(file);
  }

  lemma OpenedText(file: seq<byte>)
    ensures Opened(file).saved == Opened(file).text && (|file| <= MAX ==> Opened(file).text == file)
  {
  }

  lemma UpdatedLook(fs: Fs, dir: CString, n: Name, t: seq<byte>)
    ensures Look(Updated(fs, KeyOf(dir, n), Some(t)), dir, n) == Some(t)
  {
  }

  /** A save of text no longer than the file it replaces always fits, so it cannot be the one that
      breaks the volume: saving from a clean editor is safe, even on a full disk. */
  lemma CleanSaveKeeps(g: Geo, v: Vol, sh: Shape, dir: CString, file: CString, f: seq<byte>, text: seq<byte>)
    requires WellFormed(g, v, sh) && Lookup(g, v, sh, dir, To83Spec(file)) == Some(f) && |text| <= |f|
    ensures WriteFits(g, v, sh, dir, To83Spec(file), |text|)
    ensures Keeps(g, v, sh, OpWrite(dir, file, text))
  {
    hide WellFormed, Base, Find, Resolve, EntOf, To83Spec, Contents, Lookup, Need, ChainLen, HasDirAttr;
    var d, i := EntryOfFile(g, v, sh, dir, To83Spec(file), f);
    NeedOrder(g, |text|, SizeOf(EntOf(g, v, sh, d, i)));
  }

  lemma EntryOfFile(g: Geo, v: Vol, sh: Shape, dir: CString, n: Name, f: seq<byte>) returns (d: nat, i: nat)
    requires WellFormed(g, v, sh) && Lookup(g, v, sh, dir, n) == Some(f)
    ensures GeoOk(g) && Resolve(g, v, sh, dir) == Some(d) && IsDir(sh, d)
    ensures Find(g, v, sh, d, n) == Some(i) && InDir(g, ChOf(sh, d), i)
    ensures var e := EntOf(g, v, sh, d, i);
            LiveName(n) && !HasDirAttr(e) && |f| <= SizeOf(e) && ChainLen(sh, e) == Need(g, SizeOf(e))
  {
    ResolvedIsDir(g, v, sh, dir);
    d := Resolve(g, v, sh, dir).value;
    i := Find(g, v, sh, d, n).value;
    FoundName(g, v, sh, d, n, i);
    FileOfEntry(g, v, sh, d, n, i);
    HeldSize(g, v, sh, EntOf(g, v, sh, d, i));
    EntrySize(g, v, sh, d, i);
  }

  lemma EntrySize(g: Geo, v: Vol, sh: Shape, d: nat, i: nat)
    requires WellFormed(g, v, sh) && IsDir(sh, d) && InDir(g, ChOf(sh, d), i)
    requires Live(EntOf(g, v, sh, d, i)) && !HasDirAttr(EntOf(g, v, sh, d, i))
    ensures ChainLen(sh, EntOf(g, v, sh, d, i)) == Need(g, SizeOf(EntOf(g, v, sh, d, i)))
  {
    hide *;
    ChainHasNeededLength(g, v, sh, d, i);
  }

  lemma HeldSize(g: Geo, v: Vol, sh: Shape, e: Entry)
    requires Base(g, v, sh)
    ensures |Contents(g, v, sh, e)| <= SizeOf(e)
  {
  }

  lemma NeedOrder(g: Geo, a: nat, b: nat)
    requires GeoOk(g) && a <= b
    ensures Need(g, a) <= Need(g, b)
  {
    CeilDivIsLeast(a, ClusterSize(g), Need(g, b));
    CeilDivIsLeast(b, ClusterSize(g), Need(g, b));
  }
}
