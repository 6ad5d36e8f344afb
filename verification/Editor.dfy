/** The text editor: its buffer, its loops and its screen. */
module Editor {
  import opened Bytes
  import opened EditText
  import opened Wrappers

  const CAPACITY := 32768
  const CELLS := 2000

  class Editor {
    /** g_buf and what is used of it; cursor; first line shown; unsaved changes. */
    const buf: array<byte>
    var len: nat
    var cur: nat
    var top: nat
    var dirty: bool
    /** quit_arm */
    var armed: bool
    /** Characters on screen, row by row, and the hardware cursor. */
    const screen: array<byte>
    var crow: nat
    var ccol: nat

    ghost var saved: seq<byte>
    ghost var over: bool

    ghost predicate Valid()
      reads this
    {
      buf.Length == CAPACITY && screen.Length == CELLS && buf != screen && cur <= len <= MAX
    }

    ghost function Text(): (t: seq<byte>)
      requires Valid()
      reads this, buf
      ensures |t| == len
    {
      buf[..len]
    }

    /** The editor as a state of EditText. */
    ghost function Abs(): (s: State)
      requires Valid()
      reads this, buf
      ensures StateOk(s)
    {
      State(Text(), cur, dirty, armed, saved, over)
    }

    /** What a redraw leaves: the cursor's line is one of the 24 shown, row `r` shows line
        `top + r` cut to 80 columns, and the hardware cursor is on the cursor. */
    ghost predicate Drawn()
      requires Valid()
      reads this, buf, screen
    {
      && top <= Row(Text(), cur) < top + ROWS
      && (forall r, x | 0 <= r < ROWS && 0 <= x < COLS :: screen[r * COLS + x] == Shown(Lines(Text()), top, r, x))
      && crow == Row(Text(), cur) - top && ccol == Min(Col(Text(), cur), COLS - 1)
    }

    /** edit_file up to its loop: what is loaded is cut to what the buffer holds. */
    constructor (file: seq<byte>)
      ensures Valid() && Abs() == Opened(file) && top == 0 && fresh(buf) && fresh(screen)
    {
      buf, screen := new byte[CAPACITY](_ => 0), new byte[CELLS](_ => BLANK);
      len, cur, top, dirty, armed, crow, ccol := 0, 0, 0, false, false, 0, 0;
      saved, over := file[..Min(|file|, MAX)], false;
      new;
      var n := if |file| < MAX then |file| else MAX;
      for i := 0 to n
        invariant Valid() && len == 0 && buf[..i] == file[..i] && !dirty && !armed && !over && top == 0
        invariant saved == file[..Min(|file|, MAX)]
      {
        buf[i] := file[i];
      }
      len, cur := n, n;
    }

    /** Moves a[lo..hi] up by one. */
    static method ShiftUp(a: array<byte>, lo: nat, hi: nat)
      requires lo <= hi < a.Length
      modifies a
      ensures forall k {:trigger a[k]} | 0 <= k < a.Length :: a[k] == if lo < k <= hi then old(a[k - 1]) else old(a[k])
    {
      var i := hi;
      while i > lo
        invariant lo <= i <= hi
        invariant forall k {:trigger a[k]} | 0 <= k < a.Length ::
                    a[k] == if i < k <= hi then old(a[k - 1]) else old(a[k])
      {
        a[i] := a[i - 1];
        i := i - 1;
      }
    }

    /** Moves a[lo + 1..hi + 1] down by one. */
    static method ShiftDown(a: array<byte>, lo: nat, hi: nat)
      requires lo <= hi < a.Length
      modifies a
      ensures forall k {:trigger a[k]} | 0 <= k < a.Length :: a[k] == if lo <= k < hi then old(a[k + 1]) else old(a[k])
    {
      var i := lo;
      while i < hi
        invariant lo <= i <= hi
        invariant forall k {:trigger a[k]} | 0 <= k < a.Length ::
                    a[k] == if lo <= k < i then old(a[k + 1]) else old(a[k])
      {
        a[i] := a[i + 1];
        i := i + 1;
      }
    }

    /** ed_insert: shifts the tail up and puts the character in. */
    method Insert(c: byte)
      requires Valid()
      modifies this`len, this`cur, this`dirty, buf
      ensures Valid() && Abs() == EditText.Insert(old(Abs()), c)
    {
      if len + 1 >= CAPACITY {
        return;
      }
      ghost var t := Text();
      ShiftUp(buf, cur, len);
      buf[cur] := c;
      WithGap(buf[..len + 1], t, cur, c);
      cur, len, dirty := cur + 1, len + 1, true;
    }

    /** ed_backspace: shifts the tail down over the character before the cursor. */
    method Backspace()
      requires Valid()
      modifies this`len, this`cur, this`dirty, buf
      ensures Valid() && Abs() == EditText.Backspace(old(Abs()))
    {
      if cur == 0 {
        return;
      }
      ghost var t := Text();
      ShiftDown(buf, cur - 1, len - 1);
      WithoutOne(buf[..len - 1], t, cur);
      cur, len, dirty := cur - 1, len - 1, true;
    }

    static lemma WithGap(b: seq<byte>, t: seq<byte>, cur: nat, c: byte)
      requires cur <= |t| && |b| == |t| + 1
      requires forall k {:trigger b[k]} | 0 <= k < |b| ::
                 b[k] == if k < cur then t[k] else if k == cur then c else t[k - 1]
      ensures b == t[..cur] + [c] + t[cur..]
    {
      var r := t[..cur] + [c] + t[cur..];
      assert forall k {:trigger b[k]} | 0 <= k < |b| :: b[k] == r[k];
    }

    static lemma WithoutOne(b: seq<byte>, t: seq<byte>, cur: nat)
      requires 0 < cur <= |t| && |b| == |t| - 1
      requires forall k {:trigger b[k]} | 0 <= k < |b| :: b[k] == if k < cur - 1 then t[k] else t[k + 1]
      ensures b == t[..cur - 1] + t[cur..]
    {
      var r := t[..cur - 1] + t[cur..];
      assert forall k {:trigger b[k]} | 0 <= k < |b| :: b[k] == r[k];
    }

    /** Start of the line that `i` is on, by stepping back to a newline. */
    method LineStart(i: nat) returns (s: nat)
      requires Valid() && i <= len
      ensures s <= i && NL !in Text()[s..i] && (s > 0 ==> Text()[s - 1] == NL)
      ensures Col(Text(), s) == 0 && Row(Text(), s) == Row(Text(), i) && Col(Text(), i) == i - s
    {
      hide Row, Col;
      s := i;
      while s > 0 && buf[s - 1] != NL
        invariant s <= i && NL !in Text()[s..i]
      {
        s := s - 1;
        assert Text()[s..i] == [Text()[s]] + Text()[s + 1..i];
      }
      LineStarts(Text(), s);
      SameLine(Text(), s, i);
    }

    static lemma LineStarts(t: seq<byte>, s: nat)
      requires s <= |t| && (s > 0 ==> t[s - 1] == NL)
      ensures Col(t, s) == 0
    {
      if s > 0 { LinesStep(t, s - 1); } else { AtStart(t); }
    }

    /** End of the line that `i` is on. */
    method LineEnd(i: nat) returns (e: nat)
      requires Valid() && i <= len
      ensures i <= e <= len && NL !in Text()[i..e] && (e < len ==> Text()[e] == NL)
    {
      e := i;
      while e < len && buf[e] != NL
        invariant i <= e <= len && forall k | i <= k < e :: buf[k] != NL
      {
        e := e + 1;
      }
      assert forall k | 0 <= k < e - i :: Text()[i..e][k] == buf[i + k];
    }

    /** The up key. */
    method MoveUp()
      requires Valid()
      modifies this`cur
      ensures Valid() && cur == Up(old(Text()), old(cur))
    {
      hide Row, Col, Pos, Lines;
      ghost var t := Text();
      PosIs(t, cur);
      var i := LineStart(cur);
      var col := cur - i;
      if i > 0 {
        var end := i - 1;
        var start := LineStart(end);
        var ll := end - start;
        LinesStep(t, end);
        OnLine(t, start, end, if col < ll then col else ll);
        cur := start + if col < ll then col else ll;
      } else {
        AtStart(t);
      }
    }

    /** The down key. */
    method MoveDown()
      requires Valid()
      modifies this`cur
      ensures Valid() && cur == Down(old(Text()), old(cur))
    {
      hide Row, Col, Pos, Lines;
      ghost var t := Text();
      PosIs(t, cur);
      var j := LineStart(cur);
      var col := cur - j;
      var i := LineEnd(cur);
      SameLine(t, cur, i);
      if i < len {
        var start := i + 1;
        LinesStep(t, i);
        var end := LineEnd(start);
        var ll := end - start;
        OnLine(t, start, end, if col < ll then col else ll);
        cur := start + if col < ll then col else ll;
      } else {
        LastRowIs(t);
      }
    }

    static lemma LastRowIs(t: seq<byte>)
      ensures Row(t, |t|) == |Lines(t)| - 1
    {
      assert t[..|t|] == t;
    }

    // ----- redrawing -----

    /** Row and column of the cursor, counted from the start. */
    method FindCursor() returns (line: nat, col: nat)
      requires Valid()
      ensures line == Row(Text(), cur) && col == Col(Text(), cur)
    {
      hide Row, Col;
      line, col := 0, 0;
      AtStart(Text());
      for i := 0 to cur
        invariant line == Row(Text(), i) && col == Col(Text(), i)
      {
        LinesStep(Text(), i);
        if buf[i] == NL {
          line, col := line + 1, 0;
        } else {
          col := col + 1;
        }
      }
    }

    /** Offset of the first line shown. */
    method FindTop() returns (i: nat)
      requires Valid() && top <= Row(Text(), cur)
      ensures i <= len && Row(Text(), i) == top && Col(Text(), i) == 0
    {
      hide Row, Col;
      i := 0;
      var l := 0;
      AtStart(Text());
      while i < len && l < top
        invariant i <= len && l == Row(Text(), i) && l <= top && (l == top ==> Col(Text(), i) == 0)
        decreases len - i
      {
        LinesStep(Text(), i);
        if buf[i] == NL {
          l := l + 1;
        }
        i := i + 1;
      }
      RowsGrow(Text(), cur, len);
    }

    method Clear()
      requires screen.Length == CELLS
      modifies screen
      ensures forall k | 0 <= k < CELLS :: screen[k] == BLANK
    {
      for i := 0 to CELLS
        invariant forall k | 0 <= k < i :: screen[k] == BLANK
      {
        screen[i] := BLANK;
      }
    }

    ghost predicate Shows(ls: seq<seq<byte>>)
      requires screen.Length == CELLS
      reads this`top, screen
    {
      forall r, x | 0 <= r < ROWS && 0 <= x < COLS :: screen[r * COLS + x] == Shown(ls, top, r, x)
    }

    /** Streams the text from `start`, the first line shown, into the screen. */
    method Stream(start: nat)
      requires Valid() && start <= len && Row(Text(), start) == top && Col(Text(), start) == 0
      requires forall k | 0 <= k < CELLS :: screen[k] == BLANK
      modifies screen
      ensures Shows(Lines(Text()))
    {
      ghost var t := Text();
      hide Row, Col, Lines, Shows;
      BlankFits(t, start);
      var i, r, cc := start, 0, 0;
      while i < len && r < ROWS
        invariant i <= len && r <= ROWS && Row(t, i) == top + r && cc == Min(Col(t, i), COLS) && t == Text()
        invariant Shows(Lines(t[..i]))
        decreases len - i
      {
        var c := buf[i];
        LinesStep(t, i);
        if c == NL {
          NewlineShows(t, i);
          r, cc := r + 1, 0;
        } else {
          CharShows(t, i, r);
          if cc < COLS {
            Draw(t, i, r, cc, c);
            cc := cc + 1;
          }
        }
        i := i + 1;
      }
      AllShown(t, i, r);
    }

    lemma BlankFits(t: seq<byte>, i: nat)
      requires screen.Length == CELLS && forall k | 0 <= k < CELLS :: screen[k] == BLANK
      requires i <= |t| && Row(t, i) == top && Col(t, i) == 0
      ensures Shows(Lines(t[..i]))
    {
    }

    lemma NewlineShows(t: seq<byte>, i: nat)
      requires screen.Length == CELLS && i < |t| && t[i] == NL && Shows(Lines(t[..i]))
      ensures Shows(Lines(t[..i + 1]))
    {
      LinesStep(t, i);
      hide Lines;
      var ls := Lines(t[..i]);
      forall r, x | 0 <= r < ROWS && 0 <= x < COLS ensures screen[r * COLS + x] == Shown(ls + [[]], top, r, x) {
        assert screen[r * COLS + x] == Shown(ls, top, r, x);
      }
    }

    /** The screen with one cell set. */
    ghost function With(y: nat, x: nat, r: nat, cc: nat, c: byte): byte
      requires screen.Length == CELLS && y < ROWS && x < COLS
      reads screen
    {
      if y == r && x == cc then c else screen[y * COLS + x]
    }

    /** What a further character changes: its own cell, if that is on the screen. */
    lemma CharShows(t: seq<byte>, i: nat, r: nat)
      requires screen.Length == CELLS && i < |t| && t[i] != NL && Shows(Lines(t[..i])) && Row(t, i) == top + r
      ensures forall y, x | 0 <= y < ROWS && 0 <= x < COLS ::
              Shown(Lines(t[..i + 1]), top, y, x) == With(y, x, r, Col(t, i), t[i])
      ensures Col(t, i) >= COLS ==> Shows(Lines(t[..i + 1]))
    {
      LinesStep(t, i);
      hide Lines;
      var ls, ls2 := Lines(t[..i]), Lines(t[..i + 1]);
      forall y, x | 0 <= y < ROWS && 0 <= x < COLS
        ensures Shown(ls2, top, y, x) == With(y, x, r, Col(t, i), t[i])
      {
        assert screen[y * COLS + x] == Shown(ls, top, y, x);
      }
    }

    method Draw(ghost t: seq<byte>, ghost i: nat, r: nat, cc: nat, c: byte)
      requires screen.Length == CELLS && r < ROWS && cc < COLS && i < |t|
      requires forall y, x | 0 <= y < ROWS && 0 <= x < COLS ::
               Shown(Lines(t[..i + 1]), top, y, x) == With(y, x, r, cc, c)
      modifies screen
      ensures Shows(Lines(t[..i + 1]))
    {
      hide Lines, Shown;
      ghost var before := screen[..];
      ghost var ls := Lines(t[..i + 1]);
      screen[r * COLS + cc] := c;
      forall y, x | 0 <= y < ROWS && 0 <= x < COLS ensures screen[y * COLS + x] == Shown(ls, top, y, x) {
        assert Shown(ls, top, y, x) == old(With(y, x, r, cc, c));
        if y * COLS + x != r * COLS + cc {
          assert screen[y * COLS + x] == before[y * COLS + x];
        }
      }
    }

    lemma AllShown(t: seq<byte>, i: nat, r: nat)
      requires screen.Length == CELLS && i <= |t| && Shows(Lines(t[..i])) && Row(t, i) == top + r
      requires i == |t| || r == ROWS
      ensures Shows(Lines(t))
    {
      if i == |t| {
        assert t[..i] == t;
      } else {
        hide Lines;
        forall y, x | 0 <= y < ROWS && 0 <= x < COLS ensures screen[y * COLS + x] == Shown(Lines(t), top, y, x) {
          assert screen[y * COLS + x] == Shown(Lines(t[..i]), top, y, x);
          LinesKept(t, i, top + y);
        }
      }
    }

    /** ed_redraw without its status bar. The window moves only as far as it must. */
    method Redraw()
      requires Valid()
      modifies this`top, this`crow, this`ccol, screen
      ensures Valid() && Drawn()
      ensures var line := Row(Text(), cur);
              top == if line < old(top) then line else if line >= old(top) + ROWS then line - ROWS + 1 else old(top)
    {
      hide Row, Col, Lines, Shown;
      var line, col := FindCursor();
      if line < top {
        top := line;
      }
      if line >= top + ROWS {
        top := line - ROWS + 1;
      }
      Clear();
      var i := FindTop();
      Stream(i);
      crow, ccol := line - top, col;
      if ccol > COLS - 1 {
        ccol := COLS - 1;
      }
    }

    // ----- the event loop -----

    /** One decoded key. */
    method Handle(k: Key) returns (quit: bool)
      requires Valid() && !over
      modifies this`len, this`cur, this`dirty, this`armed, this`saved, this`over, buf
      ensures Valid() && Abs() == Step(old(Abs()), k) && quit == over
    {
      quit := false;
      hide Up, Down, EditText.Insert, EditText.Backspace;
      match k
      case Ignored =>
      case GoUp =>
        MoveUp();
        armed := false;
      case GoDown =>
        MoveDown();
        armed := false;
      case Left =>
        if cur > 0 {
          cur := cur - 1;
        }
        armed := false;
      case Right =>
        if cur < len {
          cur := cur + 1;
        }
        armed := false;
      case Back =>
        Backspace();
        armed := false;
      case Char(c) =>
        Insert(c);
        armed := false;
      case Save(ok) =>
        if ok {
          dirty, saved := false, Text();
        }
        armed := false;
      case Quit =>
        if dirty && !armed {
          armed := true;
        } else {
          quit, over := true, true;
        }
    }

    /** The loop of edit_file: redraws after every key that counts, until the editor is
        left or the keys run out. */
    method Edit(keys: seq<Key>) returns (n: nat)
      requires Valid() && !over
      modifies this, buf, screen
      ensures Valid() && n <= |keys| && Abs() == Run(old(Abs()), keys[..n])
      ensures over || (n == |keys| && Drawn())
    {
      hide Step, Drawn;
      n := 0;
      Redraw();
      while n < |keys|
        invariant Valid() && n <= |keys| && !over && Drawn() && Abs() == Run(old(Abs()), keys[..n])
      {
        var k := keys[n];
        RunStep(old(Abs()), keys, n);
        n := n + 1;
        if k.Ignored? {
          IgnoredIsNothing(Abs());
          continue;
        }
        var quit := Handle(k);
        if quit {
          return;
        }
        Redraw();
      }
    }

    static lemma IgnoredIsNothing(s: State)
      requires StateOk(s)
      ensures Step(s, Ignored) == s
    {
    }
  }
}
