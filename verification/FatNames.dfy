/** 8.3 names: what the driver stores for a name and what it lists for a stored name. */
module FatNames {
  import opened Bytes
  import opened FatDir
  import opened Wrappers

  function Upper(c: byte): byte {
    if 0x61 <= c <= 0x7A then c - 32 else c
  }

  function UpperAll(s: seq<byte>): (r: seq<byte>)
    ensures |r| == |s|
  {
    seq(|s|, i requires 0 <= i < |s| => Upper(s[i]))
  }

  function Padded(s: seq<byte>, n: nat): (r: seq<byte>)
    requires |s| <= n
    ensures |r| == n
  {
    s + seq(n - |s|, _ => SPACE)
  }

  /** Length of the leading stretch without `c`. */
  function Before(s: seq<byte>, c: byte): (n: nat)
    ensures n <= |s| && c !in s[..n] && (n < |s| ==> s[n] == c)
  {
    if s == [] || s[0] == c then 0 else
      var n := 1 + Before(s[1..], c);
      assert s[..n] == [s[0]] + s[1..][..n - 1];
      n
  }

  /** The stored form: up to eight characters before the dot, up to three after
      it, upper case, blank padded. A base cut at eight runs on into the extension. */
  function To83Spec(name: CString): Name {
    var b := Min(8, Before(name, DOT));
    var rest := if b < |name| && name[b] == DOT then name[b + 1..] else name[b..];
    Padded(UpperAll(name[..b]), 8) + Padded(UpperAll(rest[..Min(3, |rest|)]), 3)
  }

  /** The parts of a name that are stored: the base ends at the first dot or after eight characters;
      the extension is the next three, past that dot. */
  predicate Splits(name: seq<byte>, base: seq<byte>, ext: seq<byte>) {
    && |base| <= 8 && base <= name && DOT !in base
    && var tail := name[|base|..];
       && (|base| == 8 || tail == [] || tail[0] == DOT)
       && var rest := if tail != [] && tail[0] == DOT then tail[1..] else tail;
          ext <= rest && |ext| == Min(3, |rest|)
  }

  /** The listed form: base and extension up to their first blank, joined by a dot. */
  function PrettySpec(n: Name): seq<byte> {
    n[..Before(n[..8], SPACE)]
    + if n[8] == SPACE then [] else [DOT] + n[8..][..Before(n[8..], SPACE)]
  }

  /** No lower case, and nothing but blanks from the first blank on. */
  predicate TidyPart(s: seq<byte>) {
    && (forall i | 0 <= i < |s| :: !(0x61 <= s[i] <= 0x7A))
    && (forall i | Before(s, SPACE) <= i < |s| :: s[i] == SPACE)
  }

  predicate Tidy(n: Name) {
    TidyPart(n[..8]) && TidyPart(n[8..]) && DOT !in n[..8]
  }

  lemma BeforeIs(s: seq<byte>, c: byte, n: nat)
    requires n <= |s| && c !in s[..n] && (n < |s| ==> s[n] == c)
    ensures Before(s, c) == n
  {
    var m := Before(s, c);
    var p, q := s[..n], s[..m];
    assert forall i | 0 <= i < |p| :: s[i] == p[i] != c;
    assert forall i | 0 <= i < |q| :: s[i] == q[i] != c;
  }

  lemma To83Never(name: CString)
    ensures To83Spec(name)[0] != DOT && To83Spec(name)[0] != 0
  {
    var b := Min(8, Before(name, DOT));
    if b > 0 {
      assert name[0] in name[..Before(name, DOT)];
      assert name[0] in name;
    }
  }

  /** A base without dots, alone or followed by a dot and an extension. */
  lemma To83Parts(base: CString, ext: CString)
    requires |base| <= 8 && DOT !in base && |ext| <= 3
    ensures To83Spec(base) == Padded(UpperAll(base), 8) + Padded([], 3)
    ensures 0 !in base + [DOT] + ext
    ensures To83Spec(base + [DOT] + ext) == Padded(UpperAll(base), 8) + Padded(UpperAll(ext), 3)
  {
    var p := base + [DOT] + ext;
    BeforeIs(base, DOT, |base|);
    assert p[..|base|] == base;
    BeforeIs(p, DOT, |base|);
    assert p[|base| + 1..] == ext;
    assert base[..|base|] == base && base[|base|..] == [];
    assert UpperAll([]) == [];
    assert ext[..|ext|] == ext;
  }

  lemma PaddedUpperAt(s: seq<byte>, b: nat)
    requires b <= |s|
    ensures var r := Padded(UpperAll(s[..b]), |s|);
            |r| == |s| && forall i | 0 <= i < |s| :: r[i] == if i < b then Upper(s[i]) else SPACE
  {
  }

  lemma PartComesBack(s: seq<byte>)
    ensures Padded(UpperAll(s[..Before(s, SPACE)]), |s|) == s <==> TidyPart(s)
  {
    hide Before, Padded, UpperAll;
    var b := Before(s, SPACE);
    PaddedUpperAt(s, b);
    PartIs(s, b, Padded(UpperAll(s[..b]), |s|));
  }

  lemma PartIs(s: seq<byte>, b: nat, r: seq<byte>)
    requires b == Before(s, SPACE) && |r| == |s|
    requires forall i | 0 <= i < |s| :: r[i] == if i < b then Upper(s[i]) else SPACE
    ensures r == s <==> TidyPart(s)
  {
    hide Before;
    if TidyPart(s) {
      assert forall i | 0 <= i < |s| :: r[i] == s[i];
    }
    if r == s {
      forall i | 0 <= i < |s| ensures !(0x61 <= s[i] <= 0x7A) {
        assert r[i] == s[i];
      }
    }
  }

  /** Storing what was listed gives the stored name back exactly when it is tidy. */
  lemma PrettyRoundTrip(n: Name)
    requires 0 !in n
    ensures 0 !in PrettySpec(n) && (To83Spec(PrettySpec(n)) == n <==> Tidy(n))
  {
    var nb, nx := n[..8], n[8..];
    var base, ext := nb[..Before(nb, SPACE)], nx[..Before(nx, SPACE)];
    assert base == n[..Before(nb, SPACE)] && n == nb + nx && nx[0] == n[8];
    assert 0 !in base && 0 !in ext;
    if DOT in base {
      DottedBase(base, PrettySpec(n), n);
    } else {
      UndottedBase(n, nb, nx);
    }
  }

  /** What comes back for an undotted base: both parts cut at their first blank. */
  lemma ComesBackAs(n: Name, nb: seq<byte>, nx: seq<byte>)
    requires 0 !in n && nb == n[..8] && nx == n[8..] && DOT !in nb[..Before(nb, SPACE)]
    ensures 0 !in PrettySpec(n)
    ensures To83Spec(PrettySpec(n)) ==
            Padded(UpperAll(nb[..Before(nb, SPACE)]), 8) + Padded(UpperAll(nx[..Before(nx, SPACE)]), 3)
  {
    var base, ext := nb[..Before(nb, SPACE)], nx[..Before(nx, SPACE)];
    assert base == n[..Before(nb, SPACE)];
    assert 0 !in base && 0 !in ext;
    assert nx[0] == n[8];
    assert PrettySpec(n) == if n[8] == SPACE then base else base + [DOT] + ext;
    assert n[8] == SPACE ==> ext == [];
    hide Before, PrettySpec, To83Spec, Padded;
    To83Parts(base, ext);
    assert UpperAll([]) == [];
  }

  lemma UndottedBase(n: Name, nb: seq<byte>, nx: seq<byte>)
    requires 0 !in n && nb == n[..8] && nx == n[8..] && DOT !in nb[..Before(nb, SPACE)]
    ensures 0 !in PrettySpec(n) && (To83Spec(PrettySpec(n)) == n <==> Tidy(n))
  {
    ComesBackAs(n, nb, nx);
    assert n == nb + nx;
    var a, c := Padded(UpperAll(nb[..Before(nb, SPACE)]), 8), Padded(UpperAll(nx[..Before(nx, SPACE)]), 3);
    PartsApart(a, c, nb, nx);
    PartComesBack(nb);
    PartComesBack(nx);
    if TidyPart(nb) { TidyBaseDots(nb); }
  }

  lemma TidyBaseDots(s: seq<byte>)
    requires TidyPart(s) && DOT !in s[..Before(s, SPACE)]
    ensures DOT !in s
  {
    var t := s[..Before(s, SPACE)];
    assert forall i | 0 <= i < |t| :: s[i] == t[i] != DOT;
  }

  lemma PartsApart(a: seq<byte>, b: seq<byte>, c: seq<byte>, d: seq<byte>)
    requires |a| == |c|
    ensures a + b == c + d <==> a == c && b == d
  {
    assert (a + b)[..|a|] == a && (c + d)[..|a|] == c;
    assert (a + b)[|a|..] == b && (c + d)[|a|..] == d;
  }

  /** A dot in the base is taken for the separator when the name comes back. */
  lemma DottedBase(base: CString, p: CString, n: Name)
    requires |base| <= 8 && base <= p && base <= n && DOT in base
    ensures To83Spec(p) != n && DOT in n[..8]
  {
    var k := Before(p, DOT);
    var i :| 0 <= i < |base| && base[i] == DOT;
    assert p[i] == DOT && n[..8][i] == DOT;
    assert k <= i by {
      var q := p[..k];
      assert forall j | 0 <= j < |q| :: p[j] == q[j] != DOT;
    }
    assert n[k] == base[k] == p[k] == DOT;
    assert To83Spec(p)[k] == SPACE;
  }

  /** Every name has such parts. */
  lemma Halves(name: CString) returns (base: seq<byte>, ext: seq<byte>)
    ensures Splits(name, base, ext)
    ensures |base| <= 8 && |ext| <= 3 && DOT !in base && forall c | c in base || c in ext :: c in name
    ensures To83Spec(name)[..8] == Padded(UpperAll(base), 8) && To83Spec(name)[8..] == Padded(UpperAll(ext), 3)
  {
    hide Before, UpperAll;
    var m := Before(name, DOT);
    var b := Min(8, m);
    var rest := if b < |name| && name[b] == DOT then name[b + 1..] else name[b..];
    base, ext := name[..b], rest[..Min(3, |rest|)];
    assert forall i | 0 <= i < |base| :: base[i] == name[..m][i] != DOT;
  }

  /** Names without blanks are stored tidy, so they come back from a listing. */
  lemma BlankFreeIsTidy(name: CString)
    requires SPACE !in name
    ensures Tidy(To83Spec(name))
  {
    hide To83Spec, Padded, UpperAll, TidyPart;
    var base, ext := Halves(name);
    PaddedIsTidy(base, 8);
    PaddedIsTidy(ext, 3);
    PaddedNoDot(base, 8);
  }

  lemma PaddedNoDot(s: seq<byte>, m: nat)
    requires |s| <= m && DOT !in s
    ensures DOT !in Padded(UpperAll(s), m)
  {
    var r := Padded(UpperAll(s), m);
    forall i | 0 <= i < m ensures r[i] != DOT {
      if i < |s| { assert r[i] == Upper(s[i]) && s[i] in s; }
    }
  }

  lemma PaddedNoZero(s: seq<byte>, m: nat)
    requires |s| <= m && 0 !in s
    ensures 0 !in Padded(UpperAll(s), m)
  {
    var r := Padded(UpperAll(s), m);
    forall i | 0 <= i < m ensures r[i] != 0 {
      if i < |s| { assert r[i] == Upper(s[i]) && s[i] in s; }
    }
  }

  lemma StoredNoZero(name: CString)
    ensures 0 !in To83Spec(name)
  {
    hide To83Spec, Padded, UpperAll;
    var base, ext := Halves(name);
    PaddedNoZero(base, 8);
    PaddedNoZero(ext, 3);
    assert To83Spec(name) == To83Spec(name)[..8] + To83Spec(name)[8..];
  }

  lemma PaddedIsTidy(s: seq<byte>, m: nat)
    requires |s| <= m && SPACE !in s
    ensures TidyPart(Padded(UpperAll(s), m))
  {
    var r := Padded(UpperAll(s), m);
    assert forall i | 0 <= i < |s| :: r[i] == Upper(s[i]) && s[i] in s;
    assert SPACE !in r[..|s|];
    BeforeIs(r, SPACE, |s|);
  }

  // ----- which names are stored alike -----

  /** The same character, but for the case of an ASCII letter. */
  predicate SameLetter(a: byte, b: byte) {
    a == b || (a == b + 32 && 0x61 <= a <= 0x7A) || (b == a + 32 && 0x61 <= b <= 0x7A)
  }

  predicate NoLower(s: seq<byte>) { forall i | 0 <= i < |s| :: !(0x61 <= s[i] <= 0x7A) }

  /** Character `i` of a part that is filled up with blanks. */
  function CharAt(s: seq<byte>, i: nat): byte { if i < |s| then s[i] else SPACE }

  /** The same characters but for case, blanks at the end apart. */
  ghost predicate Alike(a: seq<byte>, b: seq<byte>) {
    forall i | 0 <= i < |a| || 0 <= i < |b| :: SameLetter(CharAt(a, i), CharAt(b, i))
  }

  lemma SplitOf(name: CString, base: seq<byte>, ext: seq<byte>)
    requires Splits(name, base, ext)
    ensures To83Spec(name)[..8] == Padded(UpperAll(base), 8) && To83Spec(name)[8..] == Padded(UpperAll(ext), 3)
  {
    var b := |base|;
    assert name[..b] == base;
    BaseLength(name, b);
    hide Before, Padded, UpperAll;
    var rest := if b < |name| && name[b] == DOT then name[b + 1..] else name[b..];
    assert rest[..Min(3, |rest|)] == ext;
  }

  /** Every stored character is the one of the name in upper case, or a blank behind its part. */
  lemma StoredBytes(name: CString, base: seq<byte>, ext: seq<byte>)
    requires Splits(name, base, ext)
    ensures var n := To83Spec(name);
            && NoLower(n)
            && (forall i | 0 <= i < 8 :: SameLetter(n[i], CharAt(base, i)))
            && (forall i | 0 <= i < 3 :: SameLetter(n[8 + i], CharAt(ext, i)))
  {
    hide Splits, To83Spec;
    var n := To83Spec(name);
    SplitOf(name, base, ext);
    var x, y := n[..8], n[8..];
    PaddedBytes(base, 8);
    PaddedBytes(ext, 3);
    forall i | 0 <= i < 11 ensures !(0x61 <= n[i] <= 0x7A) {
      assert n[i] == if i < 8 then x[i] else y[i - 8];
    }
    forall i | 0 <= i < 8 ensures SameLetter(n[i], CharAt(base, i)) { assert n[i] == x[i]; }
    forall i | 0 <= i < 3 ensures SameLetter(n[8 + i], CharAt(ext, i)) { assert n[8 + i] == y[i]; }
  }

  lemma PaddedBytes(s: seq<byte>, m: nat)
    requires |s| <= m
    ensures var r := Padded(UpperAll(s), m);
            NoLower(r) && |r| == m && forall i | 0 <= i < m :: SameLetter(r[i], CharAt(s, i))
  {
  }

  lemma PaddedAlike(a: seq<byte>, b: seq<byte>, m: nat)
    requires |a| <= m && |b| <= m
    ensures Padded(UpperAll(a), m) == Padded(UpperAll(b), m) <==> Alike(a, b)
  {
    PaddedBytes(a, m);
    PaddedBytes(b, m);
    var x, y := Padded(UpperAll(a), m), Padded(UpperAll(b), m);
    if Alike(a, b) {
      forall i | 0 <= i < m ensures x[i] == y[i] {
        assert i < |a| || i < |b| ==> SameLetter(CharAt(a, i), CharAt(b, i));
      }
    }
    if x == y {
      forall i | 0 <= i < |a| || 0 <= i < |b| ensures SameLetter(CharAt(a, i), CharAt(b, i)) {
        assert x[i] == y[i];
      }
    }
  }

  /** Two names are stored alike exactly when their stored parts are the same but for case and
      blanks at the end. */
  lemma StoredAlikeIff(a: CString, ba: seq<byte>, ea: seq<byte>, b: CString, bb: seq<byte>, eb: seq<byte>)
    requires Splits(a, ba, ea) && Splits(b, bb, eb)
    ensures To83Spec(a) == To83Spec(b) <==> Alike(ba, bb) && Alike(ea, eb)
  {
    SplitOf(a, ba, ea);
    SplitOf(b, bb, eb);
    PaddedAlike(ba, bb, 8);
    PaddedAlike(ea, eb, 3);
    hide Alike, To83Spec, Padded, UpperAll, Splits;
    var x, y := To83Spec(a), To83Spec(b);
    PartsApart(x[..8], x[8..], y[..8], y[8..]);
    assert x == x[..8] + x[8..] && y == y[..8] + y[8..];
  }

  /** A name of at most eight characters without a dot. */
  lemma PlainAlikeIff(a: CString, b: CString)
    requires |a| <= 8 && |b| <= 8 && DOT !in a && DOT !in b
    ensures To83Spec(a) == To83Spec(b) <==> Alike(a, b)
  {
    assert a[|a|..] == [] && b[|b|..] == [];
    StoredAlikeIff(a, a, [], b, b, []);
  }

  /** A name without blanks is listed as it was written, but for case and for what the stored form
      cuts off. */
  lemma ListedAs(name: CString, base: seq<byte>, ext: seq<byte>)
    requires Splits(name, base, ext) && SPACE !in name
    ensures var p, w := PrettySpec(To83Spec(name)), base + if ext == [] then [] else [DOT] + ext;
            |p| == |w| && NoLower(p) && forall i | 0 <= i < |w| :: SameLetter(p[i], w[i])
  {
    hide To83Spec, Padded, UpperAll, Before, PrettySpec, Splits;
    var n := To83Spec(name);
    SplitOf(name, base, ext);
    SplitBounds(name, base, ext);
    PartsFromName(name, base, ext);
    PaddedStart(base, 8);
    PaddedStart(ext, 3);
    PaddedBytes(base, 8);
    PaddedBytes(ext, 3);
    PrettyIs(n, |base|, |ext|);
    ListedBytes(n[..8], n[8..], base, ext);
  }

  lemma SplitBounds(name: seq<byte>, base: seq<byte>, ext: seq<byte>)
    requires Splits(name, base, ext)
    ensures |base| <= 8 && |ext| <= 3
  {
  }

  lemma PrettyIs(n: Name, b: nat, x: nat)
    requires Before(n[..8], SPACE) == b && Before(n[8..], SPACE) == x && b <= 8 && x <= 3
    ensures PrettySpec(n) == n[..8][..b] + if x == 0 then [] else [DOT] + n[8..][..x]
  {
    hide Before;
    BlankFirst(n[8..]);
    assert n[..8][..b] == n[..b] && n[8..][0] == n[8];
  }

  lemma BlankFirst(s: seq<byte>)
    requires s != []
    ensures Before(s, SPACE) == 0 <==> s[0] == SPACE
  {
  }

  lemma ListedBytes(x: seq<byte>, y: seq<byte>, base: seq<byte>, ext: seq<byte>)
    requires |base| <= |x| && |ext| <= |y| && NoLower(x) && NoLower(y)
    requires forall i | 0 <= i < |x| :: SameLetter(x[i], CharAt(base, i))
    requires forall i | 0 <= i < |y| :: SameLetter(y[i], CharAt(ext, i))
    ensures var p := x[..|base|] + if |ext| == 0 then [] else [DOT] + y[..|ext|];
            var w := base + if ext == [] then [] else [DOT] + ext;
            |p| == |w| && NoLower(p) && forall i | 0 <= i < |w| :: SameLetter(p[i], w[i])
  {
  }

  lemma PartsFromName(name: CString, base: seq<byte>, ext: seq<byte>)
    requires Splits(name, base, ext) && SPACE !in name
    ensures SPACE !in base && SPACE !in ext
  {
    var tail := name[|base|..];
    var rest := if tail != [] && tail[0] == DOT then tail[1..] else tail;
    assert forall i | 0 <= i < |base| :: base[i] == name[i];
    assert forall i | 0 <= i < |ext| :: ext[i] == rest[i];
  }

  lemma PaddedStart(s: seq<byte>, m: nat)
    requires |s| <= m && SPACE !in s
    ensures var r := Padded(UpperAll(s), m);
            Before(r, SPACE) == |s| && (m > 0 ==> (r[0] == SPACE <==> s == []))
  {
    var r := Padded(UpperAll(s), m);
    assert forall i | 0 <= i < |s| :: r[i] == Upper(s[i]) && s[i] in s;
    assert SPACE !in r[..|s|];
    BeforeIs(r, SPACE, |s|);
  }

  /** Copies upper-cased characters of `name` from `p` on into buf[i..hi], up to
      the end of the name or a dot where `dotEnds`. */
  method CopyUpper(buf: array<byte>, i: nat, hi: nat, name: CString, p: nat, dotEnds: bool) returns (q: nat)
    requires i <= hi <= buf.Length && p <= |name|
    modifies buf
    ensures p <= q <= |name| && i + (q - p) <= hi
    ensures i + (q - p) == hi || q == |name| || (dotEnds && name[q] == DOT)
    ensures dotEnds ==> DOT !in name[p..q]
    ensures forall k | 0 <= k < buf.Length ::
              buf[k] == if i <= k < i + (q - p) then Upper(name[p + (k - i)]) else old(buf[k])
  {
    q := p;
    var j := i;
    while q < |name| && !(dotEnds && name[q] == DOT) && j < hi
      invariant p <= q <= |name| && j == i + (q - p) <= hi
      invariant dotEnds ==> DOT !in name[p..q]
      invariant forall k | 0 <= k < buf.Length ::
                  buf[k] == if i <= k < j then Upper(name[p + (k - i)]) else old(buf[k])
    {
      buf[j] := Upper(name[q]);
      q, j := q + 1, j + 1;
    }
  }

  /** to83: fill with blanks, then copy base and extension. */
  method To83(name: CString) returns (out: Name)
    ensures out == To83Spec(name)
  {
    var buf := new byte[11](_ => SPACE);
    var b := CopyUpper(buf, 0, 8, name, 0, true);
    ghost var base := buf[..];
    BaseLength(name, b);
    var p := if b < |name| && name[b] == DOT then b + 1 else b;
    ghost var rest := name[p..];
    var q := CopyUpper(buf, 8, 11, name, p, false);
    out := buf[..];
    assert q - p == Min(3, |rest|);
    forall k | 0 <= k < 11 ensures out[k] == To83Spec(name)[k] {
      if k < 8 { assert out[k] == base[k]; }
    }
  }

  lemma BaseLength(name: CString, b: nat)
    requires b <= 8 && b <= |name| && DOT !in name[..b] && (b == 8 || b == |name| || name[b] == DOT)
    ensures b == Min(8, Before(name, DOT))
  {
    var m := Before(name, DOT);
    var s, t := name[..b], name[..m];
    assert forall k | 0 <= k < |s| :: name[k] == s[k] != DOT;
    assert forall k | 0 <= k < |t| :: name[k] == t[k] != DOT;
  }

  /** The loop in fat_list that strips the blanks from a stored name. */
  method Pretty(n: Name) returns (s: seq<byte>)
    ensures s == PrettySpec(n)
  {
    s := [];
    var i := 0;
    while i < 8 && n[i] != SPACE
      invariant i <= 8 && s == n[..i] && SPACE !in n[..i]
    {
      s := s + [n[i]];
      i := i + 1;
    }
    assert n[..8][..i] == n[..i];
    BeforeIs(n[..8], SPACE, i);
    if n[8] != SPACE {
      ghost var base := s;
      s := s + [DOT];
      var k := 8;
      while k < 11 && n[k] != SPACE
        invariant 8 <= k <= 11 && s == base + [DOT] + n[8..][..k - 8] && SPACE !in n[8..][..k - 8]
      {
        assert n[8..][..k - 7] == n[8..][..k - 8] + [n[k]];
        s := s + [n[k]];
        k := k + 1;
      }
      BeforeIs(n[8..], SPACE, k - 8);
    }
  }
}
