/** A text as lines, positions as row and column, and the editor as a state machine over them. */
module EditText {
  import opened Bytes
  import opened Wrappers

  const NL: byte := 10
  /** The buffer holds 32768 bytes, and the text always one less. */
  const MAX := 32767

  // ----- lines -----

  /** The lines of a text: one more than it has newlines. */
  function Lines(t: seq<byte>): (ls: seq<seq<byte>>)
    ensures ls != []
  {
    if t == [] then [[]]
    else
      var n := |t| - 1;
      var ls := Lines(t[..n]);
      if t[n] == NL then ls + [[]] else ls[|ls| - 1 := ls[|ls| - 1] + [t[n]]]
  }

  /** Row and column of offset `i`. */
  function Row(t: seq<byte>, i: nat): nat
    requires i <= |t|
  {
    |Lines(t[..i])| - 1
  }

  function Col(t: seq<byte>, i: nat): nat
    requires i <= |t|
  {
    |Lines(t[..i])[Row(t, i)]|
  }

  lemma LinesStep(t: seq<byte>, i: nat)
    requires i < |t|
    ensures Lines(t[..i + 1]) ==
            var ls := Lines(t[..i]);
            if t[i] == NL then ls + [[]] else ls[|ls| - 1 := ls[|ls| - 1] + [t[i]]]
    ensures if t[i] == NL then Row(t, i + 1) == Row(t, i) + 1 && Col(t, i + 1) == 0
            else Row(t, i + 1) == Row(t, i) && Col(t, i + 1) == Col(t, i) + 1
  {
    assert t[..i + 1][..i] == t[..i];
  }

  lemma AtStart(t: seq<byte>)
    ensures Row(t, 0) == 0 && Col(t, 0) == 0
  {
  }

  /** Within a line the row stays and the column counts. */
  lemma {:induction false} SameLine(t: seq<byte>, s: nat, i: nat)
    requires s <= i <= |t| && NL !in t[s..i]
    ensures Row(t, i) == Row(t, s) && Col(t, i) == Col(t, s) + (i - s)
    decreases i
  {
    if s < i {
      assert t[i - 1] == t[s..i][i - 1 - s];
      assert forall k | 0 <= k < i - 1 - s :: t[s..i - 1][k] == t[s..i][k];
      hide Row, Col;
      SameLine(t, s, i - 1);
      LinesStep(t, i - 1);
    }
  }

  /** Lines that are complete do not change when text is added. */
  lemma {:induction false} LinesKept(t: seq<byte>, i: nat, k: nat)
    requires i <= |t| && k < Row(t, i)
    ensures k < |Lines(t)| && Lines(t)[k] == Lines(t[..i])[k] && |Lines(t[..i])| <= |Lines(t)|
    decreases |t|
  {
    if i == |t| {
      assert t[..i] == t;
    } else {
      var n := |t| - 1;
      assert t[..n][..i] == t[..i];
      LinesKept(t[..n], i, k);
    }
  }

  lemma {:induction false} RowsGrow(t: seq<byte>, i: nat, j: nat)
    requires i <= j <= |t|
    ensures Row(t, i) <= Row(t, j)
    decreases j
  {
    if i < j {
      RowsGrow(t, i, j - 1);
      LinesStep(t, j - 1);
    }
  }

  /** At the end of a line the column is the length of that line. */
  lemma LineLength(t: seq<byte>, e: nat)
    requires e <= |t| && (e < |t| ==> t[e] == NL)
    ensures Row(t, e) < |Lines(t)| && |Lines(t)[Row(t, e)]| == Col(t, e)
  {
    if e == |t| {
      assert t[..e] == t;
    } else {
      LinesStep(t, e);
      LinesKept(t, e + 1, Row(t, e));
    }
  }

  /** The lines put together again, with a newline between any two. */
  function Joined(ls: seq<seq<byte>>): seq<byte>
    requires ls != []
  {
    var n := |ls| - 1;
    if n == 0 then ls[0] else Joined(ls[..n]) + [NL] + ls[n]
  }

  /** The lines are the text cut at its newlines. */
  lemma {:induction false} LinesJoin(t: seq<byte>)
    ensures Joined(Lines(t)) == t && forall k | 0 <= k < |Lines(t)| :: NL !in Lines(t)[k]
    decreases |t|
  {
    if t != [] {
      var n := |t| - 1;
      var ls := Lines(t[..n]);
      LinesJoin(t[..n]);
      assert t == t[..n] + [t[n]];
      hide Lines;
      LinesLast(t);
      if t[n] == NL {
        assert (ls + [[]])[..|ls|] == ls;
        assert Joined(ls + [[]]) == Joined(ls) + [NL] + [];
      } else {
        LongerLast(ls, t[n]);
      }
    }
  }

  lemma LinesLast(t: seq<byte>)
    requires t != []
    ensures var n := |t| - 1;
            var ls := Lines(t[..n]);
            Lines(t) == if t[n] == NL then ls + [[]] else ls[|ls| - 1 := ls[|ls| - 1] + [t[n]]]
  {
  }

  lemma LongerLast(ls: seq<seq<byte>>, c: byte)
    requires ls != []
    ensures Joined(ls[|ls| - 1 := ls[|ls| - 1] + [c]]) == Joined(ls) + [c]
  {
    var n := |ls| - 1;
    var r := ls[n := ls[n] + [c]];
    assert r[..n] == ls[..n];
    if n > 0 { assert Joined(ls[..n]) + [NL] + (ls[n] + [c]) == Joined(ls[..n]) + [NL] + ls[n] + [c]; }
  }

  // ----- offsets from row and column -----

  /** The offset with this row and column. */
  function Pos(t: seq<byte>, r: nat, c: nat): (i: nat)
    requires r < |Lines(t)| && c <= |Lines(t)[r]|
    ensures i <= |t|
    decreases |t|
  {
    LastLineFits(t);
    if r == |Lines(t)| - 1 then |t| - |Lines(t)[r]| + c
    else Pos(t[..|t| - 1], r, c)
  }

  lemma {:induction false} LastLineFits(t: seq<byte>)
    ensures |Lines(t)[|Lines(t)| - 1]| <= |t| && NL !in t[|t| - |Lines(t)[|Lines(t)| - 1]|..]
    decreases |t|
  {
    if t != [] {
      var n := |t| - 1;
      LastLineFits(t[..n]);
      var m := |Lines(t[..n])[|Lines(t[..n])| - 1]|;
      assert t[n - m..] == t[..n][n - m..] + [t[n]];
    }
  }

  lemma {:induction false} PosOk(t: seq<byte>, r: nat, c: nat)
    requires r < |Lines(t)| && c <= |Lines(t)[r]|
    ensures Row(t, Pos(t, r, c)) == r && Col(t, Pos(t, r, c)) == c
    decreases |t|
  {
    if r == |Lines(t)| - 1 {
      LastLineFits(t);
      var m := |Lines(t)[r]|;
      var s := |t| - m;
      assert NL !in t[s..s + c] by {
        assert forall k | 0 <= k < c :: t[s..s + c][k] == t[s..][k];
      }
      SameLine(t, s, s + c);
      assert t[s..|t|] == t[s..];
      SameLine(t, s, |t|);
      assert t[..|t|] == t;
    } else {
      var u := t[..|t| - 1];
      PosOk(u, r, c);
      assert t[..Pos(u, r, c)] == u[..Pos(u, r, c)];
    }
  }

  /** Row and column determine the offset. */
  lemma {:induction false} PosIs(t: seq<byte>, i: nat)
    requires i <= |t|
    ensures Row(t, i) < |Lines(t)| && Col(t, i) <= |Lines(t)[Row(t, i)]| && Pos(t, Row(t, i), Col(t, i)) == i
    decreases |t|
  {
    if i == |t| {
      assert t[..i] == t;
    } else {
      var n := |t| - 1;
      var u := t[..n];
      PosIs(u, i);
      assert u[..i] == t[..i];
      LinesStep(t, n);
      assert t[..n + 1] == t;
      if Row(t, i) == |Lines(t)| - 1 {
        LastRow(t, i);
      }
    }
  }

  lemma LastRow(t: seq<byte>, i: nat)
    requires i < |t| && Row(t, i) == |Lines(t)| - 1
    ensures Col(t, |t|) == Col(t, i) + (|t| - i) && t[..|t|] == t
  {
    assert t[..|t|] == t;
    forall k | i <= k < |t| ensures t[k] != NL {
      RowsGrow(t, i, k);
      LinesStep(t, k);
      RowsGrow(t, k + 1, |t|);
    }
    SameLine(t, i, |t|);
  }

  // ----- moving -----

  /** One line up or down, in the same column or at the end of a shorter line. */
  function Up(t: seq<byte>, i: nat): (j: nat)
    requires i <= |t|
    ensures j <= |t|
  {
    PosIs(t, i);
    if Row(t, i) == 0 then i else Pos(t, Row(t, i) - 1, Min(Col(t, i), |Lines(t)[Row(t, i) - 1]|))
  }

  function Down(t: seq<byte>, i: nat): (j: nat)
    requires i <= |t|
    ensures j <= |t|
  {
    PosIs(t, i);
    if Row(t, i) == |Lines(t)| - 1 then i else Pos(t, Row(t, i) + 1, Min(Col(t, i), |Lines(t)[Row(t, i) + 1]|))
  }

  /** An offset on a line that runs from `s` to `e`. */
  lemma OnLine(t: seq<byte>, s: nat, e: nat, c: nat)
    requires s <= e <= |t| && NL !in t[s..e] && (e < |t| ==> t[e] == NL) && Col(t, s) == 0
    ensures Row(t, s) < |Lines(t)| && |Lines(t)[Row(t, s)]| == e - s
    ensures c <= e - s ==> Pos(t, Row(t, s), c) == s + c
  {
    SameLine(t, s, e);
    LineLength(t, e);
    if c <= e - s {
      assert forall k | 0 <= k < c :: t[s..s + c][k] == t[s..e][k];
      SameLine(t, s, s + c);
      PosIs(t, s + c);
    }
  }

  /** Up and then down comes back exactly when the line above is long enough. */
  lemma UpThenDown(t: seq<byte>, i: nat)
    requires i <= |t| && Row(t, i) > 0
    ensures Row(t, i) - 1 < |Lines(t)| && (Down(t, Up(t, i)) == i <==> Col(t, i) <= |Lines(t)[Row(t, i) - 1]|)
  {
    hide Row, Col, Pos, Lines;
    PosIs(t, i);
    var r, c := Row(t, i), Col(t, i);
    var a := Min(c, |Lines(t)[r - 1]|);
    PosOk(t, r - 1, a);
    var b := Min(a, |Lines(t)[r]|);
    PosOk(t, r, b);
  }

  /** Down and then up comes back exactly when the line below is long enough. */
  lemma DownThenUp(t: seq<byte>, i: nat)
    requires i <= |t| && Row(t, i) + 1 < |Lines(t)|
    ensures Up(t, Down(t, i)) == i <==> Col(t, i) <= |Lines(t)[Row(t, i) + 1]|
  {
    hide Row, Col, Pos, Lines;
    PosIs(t, i);
    var r, c := Row(t, i), Col(t, i);
    var a := Min(c, |Lines(t)[r + 1]|);
    PosOk(t, r + 1, a);
    PosOk(t, r, Min(a, |Lines(t)[r]|));
  }

  /** Where up and down lead. */
  lemma UpMeans(t: seq<byte>, i: nat)
    requires i <= |t| && Row(t, i) > 0
    ensures Row(t, Up(t, i)) == Row(t, i) - 1 < |Lines(t)|
    ensures Col(t, Up(t, i)) == Min(Col(t, i), |Lines(t)[Row(t, i) - 1]|)
  {
    hide Row, Col, Pos, Lines;
    PosIs(t, i);
    PosOk(t, Row(t, i) - 1, Min(Col(t, i), |Lines(t)[Row(t, i) - 1]|));
  }

  lemma DownMeans(t: seq<byte>, i: nat)
    requires i <= |t| && Row(t, i) + 1 < |Lines(t)|
    ensures Row(t, Down(t, i)) == Row(t, i) + 1 && Col(t, Down(t, i)) == Min(Col(t, i), |Lines(t)[Row(t, i) + 1]|)
  {
    hide Row, Col, Pos, Lines;
    PosIs(t, i);
    PosOk(t, Row(t, i) + 1, Min(Col(t, i), |Lines(t)[Row(t, i) + 1]|));
  }

  // ----- the editor as a state machine -----

  /** Decoded keys. `Save` carries whether the file system takes the file. */
  datatype Key = Ignored | GoUp | GoDown | Left | Right | Back | Char(c: byte) | Save(ok: bool) | Quit

  /** `saved` is the text last saved or loaded; `armed` that the last key was a ^X that was not let through. */
  datatype State = State(text: seq<byte>, cur: nat, dirty: bool, armed: bool, saved: seq<byte>, over: bool)

  predicate StateOk(s: State) { |s.text| <= MAX && s.cur <= |s.text| }

  function Insert(s: State, c: byte): State
    requires StateOk(s)
  {
    if |s.text| >= MAX then s
    else s.(text := s.text[..s.cur] + [c] + s.text[s.cur..], cur := s.cur + 1, dirty := true)
  }

  function Backspace(s: State): State
    requires StateOk(s)
  {
    if s.cur == 0 then s
    else s.(text := s.text[..s.cur - 1] + s.text[s.cur..], cur := s.cur - 1, dirty := true)
  }

  function Step(s: State, k: Key): (r: State)
    requires StateOk(s)
    ensures StateOk(r)
  {
    if s.over then s else
    match k
    case Ignored => s
    case GoUp => s.(cur := Up(s.text, s.cur), armed := false)
    case GoDown => s.(cur := Down(s.text, s.cur), armed := false)
    case Left => s.(cur := if s.cur > 0 then s.cur - 1 else 0, armed := false)
    case Right => s.(cur := if s.cur < |s.text| then s.cur + 1 else s.cur, armed := false)
    case Back => Backspace(s).(armed := false)
    case Char(c) => Insert(s, c).(armed := false)
    case Save(ok) => if ok then s.(dirty := false, saved := s.text, armed := false) else s.(armed := false)
    case Quit => if s.dirty && !s.armed then s.(armed := true) else s.(over := true)
  }

  function Run(s: State, ks: seq<Key>): (r: State)
    requires StateOk(s)
    ensures StateOk(r)
  {
    if ks == [] then s else Step(Run(s, ks[..|ks| - 1]), ks[|ks| - 1])
  }

  lemma RunStep(s: State, ks: seq<Key>, n: nat)
    requires StateOk(s) && n < |ks|
    ensures Run(s, ks[..n + 1]) == Step(Run(s, ks[..n]), ks[n])
  {
    assert ks[..n + 1][..n] == ks[..n];
  }

  lemma RunAppend(s: State, ks: seq<Key>, k: Key)
    requires StateOk(s)
    ensures Run(s, ks + [k]) == Step(Run(s, ks), k)
  {
    hide Step;
    assert (ks + [k])[..|ks|] == ks;
  }

  /** What a loaded file starts as. */
  function Opened(file: seq<byte>): (s: State)
    ensures StateOk(s)
  {
    var t := file[..Min(|file|, MAX)];
    State(t, |t|, false, false, t, false)
  }

  /** The beginning of the file, as far as the buffer holds it, with the cursor behind it and nothing
      unsaved. */
  lemma OpenedIs(file: seq<byte>)
    ensures var s := Opened(file);
            && s.text <= file && |s.text| == Min(|file|, MAX) && s.cur == |s.text| && s.saved == s.text
            && !s.dirty && !s.over && !s.armed
  {
  }

  /** A backspace undoes an insertion. */
  lemma BackspaceUndoes(s: State, c: byte)
    requires StateOk(s) && |s.text| < MAX
    ensures Backspace(Insert(s, c)).text == s.text && Backspace(Insert(s, c)).cur == s.cur
  {
    var t := s.text[..s.cur] + [c] + s.text[s.cur..];
    assert t[..s.cur] == s.text[..s.cur] && t[s.cur + 1..] == s.text[s.cur..];
  }

  /** Without the dirty mark the text is the one last saved or loaded. */
  lemma {:induction false} CleanMeansSaved(file: seq<byte>, ks: seq<Key>)
    ensures var s := Run(Opened(file), ks); !s.dirty ==> s.text == s.saved
  {
    if ks != [] { CleanMeansSaved(file, ks[..|ks| - 1]); }
  }

  /** The keys that count. */
  function Counted(ks: seq<Key>): seq<Key> {
    if ks == [] then []
    else if ks[|ks| - 1].Ignored? then Counted(ks[..|ks| - 1])
    else Counted(ks[..|ks| - 1]) + [ks[|ks| - 1]]
  }

  /** The editor is only left by ^X, and with unsaved changes only by ^X twice in a row. */
  lemma {:induction false} QuitIsMeant(file: seq<byte>, ks: seq<Key>)
    requires ks != [] && !Run(Opened(file), ks[..|ks| - 1]).over && Run(Opened(file), ks).over
    ensures var s, c := Run(Opened(file), ks), Counted(ks);
            && |c| >= 1 && c[|c| - 1] == Quit
            && (s.dirty ==> |c| >= 2 && c[|c| - 2] == Quit)
  {
    ArmedMeansQuit(file, ks[..|ks| - 1]);
  }

  lemma {:induction false} ArmedMeansQuit(file: seq<byte>, ks: seq<Key>)
    ensures var s, c := Run(Opened(file), ks), Counted(ks);
            s.armed && !s.over ==> s.dirty && c != [] && c[|c| - 1] == Quit
  {
    if ks != [] { ArmedMeansQuit(file, ks[..|ks| - 1]); }
  }

  lemma {:induction false} QuitMeansArmed(file: seq<byte>, ks: seq<Key>)
    ensures var s, c := Run(Opened(file), ks), Counted(ks);
            c != [] && c[|c| - 1] == Quit && !s.over ==> s.armed
  {
    if ks != [] { QuitMeansArmed(file, ks[..|ks| - 1]); }
  }

  /** ^X leaves the editor exactly when nothing is unsaved or the key before was ^X too, ignored
      keys aside. */
  lemma QuitLeavesIff(file: seq<byte>, ks: seq<Key>)
    requires !Run(Opened(file), ks).over
    ensures var s, c := Run(Opened(file), ks), Counted(ks);
            Run(Opened(file), ks + [Quit]).over <==> !s.dirty || (c != [] && c[|c| - 1] == Quit)
  {
    hide Counted, Run;
    RunAppend(Opened(file), ks, Quit);
    QuitMeansArmed(file, ks);
    ArmedMeansQuit(file, ks);
  }

  /** Key `i` changed the text. */
  predicate ChangedAt(s: State, ks: seq<Key>, i: nat)
    requires StateOk(s) && i < |ks|
  {
    Run(s, ks[..i + 1]).text != Run(s, ks[..i]).text
  }

  predicate SavedAt(s: State, ks: seq<Key>, i: nat)
    requires StateOk(s) && i < |ks|
  {
    ks[i] == Save(true) && !Run(s, ks[..i]).over
  }

  /** Some change was not followed by a save that succeeded. */
  ghost predicate Unsaved(s: State, ks: seq<Key>, n: nat)
    requires StateOk(s) && n <= |ks|
  {
    exists i :: 0 <= i < n && ChangedAt(s, ks, i) && forall j | i < j < n :: !SavedAt(s, ks, j)
  }

  /** The dirty mark says exactly that. */
  lemma {:induction false} DirtyIff(s: State, ks: seq<Key>, n: nat)
    requires StateOk(s) && !s.dirty && n <= |ks|
    ensures Run(s, ks[..n]).dirty <==> Unsaved(s, ks, n)
    decreases n
  {
    hide Run, ChangedAt, SavedAt;
    if n == 0 {
      NoKeys(s, ks[..0]);
    } else {
      DirtyIff(s, ks, n - 1);
      DirtyStep(s, ks, n - 1);
      if Unsaved(s, ks, n - 1) && !SavedAt(s, ks, n - 1) {
        var i :| 0 <= i < n - 1 && ChangedAt(s, ks, i) && forall j | i < j < n - 1 :: !SavedAt(s, ks, j);
        assert forall j | i < j < n :: !SavedAt(s, ks, j);
      }
    }
  }

  lemma NoKeys(s: State, ks: seq<Key>)
    requires StateOk(s) && ks == []
    ensures Run(s, ks) == s
  {
  }

  /** A change makes the text dirty, and only a save that succeeds takes the mark away. */
  lemma DirtyStep(s: State, ks: seq<Key>, i: nat)
    requires StateOk(s) && i < |ks|
    ensures ChangedAt(s, ks, i) ==> Run(s, ks[..i + 1]).dirty && !SavedAt(s, ks, i)
    ensures SavedAt(s, ks, i) ==> !Run(s, ks[..i + 1]).dirty
    ensures !ChangedAt(s, ks, i) && !SavedAt(s, ks, i) ==> Run(s, ks[..i + 1]).dirty == Run(s, ks[..i]).dirty
  {
    hide Run, Step;
    RunStep(s, ks, i);
    StepDirty(Run(s, ks[..i]), ks[i]);
  }

  lemma StepDirty(s: State, k: Key)
    requires StateOk(s)
    ensures var r := Step(s, k);
            && (r.text != s.text ==> r.dirty && k != Save(true))
            && (k == Save(true) && !s.over ==> !r.dirty)
            && (r.text == s.text && (k != Save(true) || s.over) ==> r.dirty == s.dirty)
  {
    hide Up, Down;
    match k
    case Char(c) => InsertDirty(s, c);
    case Back => BackspaceDirty(s);
    case _ =>
  }

  lemma InsertDirty(s: State, c: byte)
    requires StateOk(s)
    ensures var r := Insert(s, c); if r.text == s.text then r == s else r.dirty
  {
    if |s.text| < MAX { assert |Insert(s, c).text| == |s.text| + 1; }
  }

  lemma BackspaceDirty(s: State)
    requires StateOk(s)
    ensures var r := Backspace(s); if r.text == s.text then r == s else r.dirty
  {
    if s.cur > 0 { assert |Backspace(s).text| + 1 == |s.text|; }
  }

  // ----- what keys do -----

  function Typed(w: seq<byte>): (ks: seq<Key>)
    ensures |ks| == |w| && forall i | 0 <= i < |w| :: ks[i] == Char(w[i])
  {
    seq(|w|, i requires 0 <= i < |w| => Char(w[i]))
  }

  /** Typing puts the bytes in at the cursor, in order, as far as there is room, and moves behind them. */
  lemma {:induction false} TypingInserts(s: State, w: seq<byte>)
    requires StateOk(s) && !s.over
    ensures var r, n := Run(s, Typed(w)), Min(|w|, MAX - |s.text|);
            && r.text == s.text[..s.cur] + w[..n] + s.text[s.cur..] && r.cur == s.cur + n
            && r.saved == s.saved && !r.over && (r.dirty <==> s.dirty || n > 0)
    decreases |w|
  {
    if w == [] {
      assert s.text == s.text[..s.cur] + w[..0] + s.text[s.cur..];
    } else {
      var k := |w| - 1;
      assert Typed(w)[..k] == Typed(w[..k]);
      TypingInserts(s, w[..k]);
      OneMoreTyped(Run(s, Typed(w[..k])), s, w, k);
    }
  }

  lemma OneMoreTyped(r: State, s: State, w: seq<byte>, k: nat)
    requires StateOk(s) && StateOk(r) && |w| == k + 1 && !r.over
    requires var n := Min(k, MAX - |s.text|);
             r.text == s.text[..s.cur] + w[..k][..n] + s.text[s.cur..] && r.cur == s.cur + n
    ensures var q, n := Step(r, Char(w[k])), Min(k + 1, MAX - |s.text|);
            && q.text == s.text[..s.cur] + w[..n] + s.text[s.cur..] && q.cur == s.cur + n
            && q.saved == r.saved && !q.over && (q.dirty <==> r.dirty || Min(k, MAX - |s.text|) < n)
  {
    var n := Min(k, MAX - |s.text|);
    assert w[..k][..n] == w[..n];
    if n == k && |s.text| + k < MAX {
      assert r.text[..r.cur] == s.text[..s.cur] + w[..k] && r.text[r.cur..] == s.text[s.cur..];
      assert w[..k + 1] == w[..k] + [w[k]];
      assert s.text[..s.cur] + w[..k] + [w[k]] == s.text[..s.cur] + w[..k + 1];
    }
  }

  function Backs(n: nat): seq<Key> { if n == 0 then [] else Backs(n - 1) + [Back] }

  /** Backspaces take out the characters before the cursor, as far as there are any. */
  lemma {:induction false} BacksRemove(s: State, n: nat)
    requires StateOk(s) && !s.over
    ensures var r, m := Run(s, Backs(n)), Min(n, s.cur);
            && r.text == s.text[..s.cur - m] + s.text[s.cur..] && r.cur == s.cur - m && r.saved == s.saved && !r.over
  {
    hide Step, Run;
    if n == 0 {
      assert s.text == s.text[..s.cur] + s.text[s.cur..];
      NoKeys(s, Backs(0));
    } else {
      BacksRemove(s, n - 1);
      RunAppend(s, Backs(n - 1), Back);
      OneMoreBack(Run(s, Backs(n - 1)), s, n - 1);
    }
  }

  lemma OneMoreBack(r: State, s: State, n: nat)
    requires StateOk(s) && StateOk(r) && !r.over
    requires var m := Min(n, s.cur); r.text == s.text[..s.cur - m] + s.text[s.cur..] && r.cur == s.cur - m
    ensures var q, m := Step(r, Back), Min(n + 1, s.cur);
            && q.text == s.text[..s.cur - m] + s.text[s.cur..] && q.cur == s.cur - m && q.saved == r.saved && !q.over
  {
    hide Up, Down;
    if n < s.cur {
      assert r.text[r.cur..] == s.text[s.cur..] && r.text[..r.cur - 1] == s.text[..s.cur - (n + 1)];
    }
  }

  /** Left and right move by one character and stop at the ends, and undo each other elsewhere. */
  lemma ArrowsMove(s: State)
    requires StateOk(s) && !s.over
    ensures s.cur > 0 ==> Run(s, [Left]).cur + 1 == s.cur && Run(s, [Left, Right]).cur == s.cur
    ensures s.cur < |s.text| ==> Run(s, [Right]).cur == s.cur + 1 && Run(s, [Right, Left]).cur == s.cur
    ensures s.cur == 0 ==> Run(s, [Left]).cur == 0
    ensures s.cur == |s.text| ==> Run(s, [Right]).cur == s.cur
    ensures Run(s, [GoUp]).cur == Up(s.text, s.cur) && Run(s, [GoDown]).cur == Down(s.text, s.cur)
  {
    hide Run, Up, Down;
    OneKey(s, GoUp);
    OneKey(s, GoDown);
    OneKey(s, Left);
    OneKey(s, Right);
    TwoKeys(s, Left, Right);
    TwoKeys(s, Right, Left);
  }

  /** Only characters and backspaces change the text, only a save with success changes what counts as
      saved, and to the text; saves, ^X and ignored keys leave the cursor where it is. */
  lemma KeysKeep(s: State, k: Key)
    requires StateOk(s) && !s.over
    ensures var r := Run(s, [k]);
            && (!k.Char? && !k.Back? ==> r.text == s.text)
            && r.saved == (if k == Save(true) then s.text else s.saved)
            && (k.Save? || k.Quit? || k.Ignored? ==> r.cur == s.cur)
            && (k == Ignored ==> r == s)
  {
    hide Up, Down;
    OneKey(s, k);
  }

  lemma OneKey(s: State, k: Key)
    requires StateOk(s)
    ensures Run(s, [k]) == Step(s, k)
  {
    hide Step;
    assert [k][..0] == [];
  }

  lemma TwoKeys(s: State, j: Key, k: Key)
    requires StateOk(s)
    ensures Run(s, [j, k]) == Step(Step(s, j), k)
  {
    hide Step;
    OneKey(s, j);
    assert [j, k][..1] == [j];
  }

  /** On the first line up stays, and on the last down does. */
  lemma EndsStay(t: seq<byte>, i: nat)
    requires i <= |t|
    ensures Row(t, i) == 0 ==> Up(t, i) == i
    ensures Row(t, i) + 1 == |Lines(t)| ==> Down(t, i) == i
  {
  }

  // ----- the screen -----

  const ROWS := 24
  const COLS := 80
  const BLANK: byte := 0x20

  /** The character that belongs at row `r`, column `x` with `top` the first line shown. */
  function Shown(ls: seq<seq<byte>>, top: nat, r: nat, x: nat): byte {
    if top + r < |ls| && x < |ls[top + r]| then ls[top + r][x] else BLANK
  }
}
