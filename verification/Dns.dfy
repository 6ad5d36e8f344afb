/** The DNS query the client encodes and the reply it reads (RFC 1035, section 4.1). */
module Dns {
  import opened Bytes
  import opened Wrappers

  const HEADER := 12

  type Label = s: seq<byte> | 1 <= |s| <= 63 witness [0x61]

  // ----- names -----

  /** Length of the label that starts at `i`. */
  function LabelEnd(name: seq<byte>, i: nat): (j: nat)
    requires i <= |name|
    ensures i <= j <= |name| && (j < |name| ==> name[j] == DOT) && DOT !in name[i..j]
    decreases |name| - i
  {
    if i == |name| || name[i] == DOT then i
    else
      var j := LabelEnd(name, i + 1);
      assert name[i..j] == [name[i]] + name[i + 1..j];
      j
  }

  function After(name: seq<byte>, j: nat): nat { if j < |name| then j + 1 else j }

  /** The labels of a dotted name from `i` on; a trailing dot ends it, an empty or
      oversized label makes it unusable. */
  function LabelsFrom(name: CString, i: nat): Option<seq<Label>>
    requires i <= |name|
    decreases |name| - i
  {
    if i == |name| then Some([])
    else
      var j := LabelEnd(name, i);
      if j == i || j - i > 63 then None
      else
        var rest := LabelsFrom(name, After(name, j));
        if rest.None? then None else Some([name[i..j]] + rest.value)
  }

  /** Labels on the wire, each behind its length, without the final zero. */
  function Wire(ls: seq<Label>): seq<byte> {
    if ls == [] then [] else [|ls[0]|] + ls[0] + Wire(ls[1..])
  }

  lemma {:induction false} WireJoin(a: seq<Label>, b: seq<Label>)
    ensures Wire(a + b) == Wire(a) + Wire(b)
  {
    if a == [] {
      assert a + b == b;
    } else {
      assert (a + b)[1..] == a[1..] + b && (a + b)[0] == a[0];
      var x := [|a[0]|] + a[0];
      assert Wire(a + b) == x + Wire(a[1..] + b) && Wire(a) == x + Wire(a[1..]);
      hide Wire;
      WireJoin(a[1..], b);
    }
  }

  /** Room for the labels: the query must stay within its buffer. */
  predicate Fits(ls: seq<Label>) { ls == [] || HEADER + |Wire(ls)| < 508 }

  function Query(id: nat, ls: seq<Label>): seq<byte>
    requires id < TWO16
  {
    ToBe16(id) + [1, 0] + [0, 1] + [0, 0] + [0, 0] + [0, 0] + Wire(ls) + [0] + [0, 1] + [0, 1]
  }

  // ----- reading labels back -----

  /** The skipping loop: from length byte to length byte up to a zero. */
  function Skip(d: seq<byte>, o: nat): (r: nat)
    ensures o <= r
    decreases |d| - o
  {
    if o < |d| && d[o] != 0 then Skip(d, o + d[o] as int + 1) else o
  }

  /** The labels met on the way. */
  function Names(d: seq<byte>, o: nat): seq<seq<byte>>
    decreases |d| - o
  {
    if o < |d| && d[o] != 0 && o + d[o] as int + 1 <= |d| then
      [d[o + 1..o + d[o] as int + 1]] + Names(d, o + d[o] as int + 1)
    else []
  }

  /** Where the bytes of `p` stand in `d` at `o`. */
  ghost predicate At(d: seq<byte>, o: nat, p: seq<byte>) {
    o + |p| <= |d| && d[o..o + |p|] == p
  }

  lemma AtSplit(d: seq<byte>, o: nat, p: seq<byte>, q: seq<byte>)
    requires At(d, o, p + q)
    ensures At(d, o, p) && At(d, o + |p|, q)
  {
    assert d[o..o + |p|] == d[o..o + |p + q|][..|p|];
    assert d[o + |p|..o + |p| + |q|] == d[o..o + |p + q|][|p|..];
  }

  lemma AtByte(d: seq<byte>, o: nat, p: seq<byte>, i: nat)
    requires At(d, o, p) && i < |p|
    ensures o + i < |d| && d[o + i] == p[i]
  {
    assert d[o..o + |p|][i] == p[i];
  }

  lemma SkipEnd(d: seq<byte>, o: nat)
    requires At(d, o, [0])
    ensures Skip(d, o) == o && Names(d, o) == []
  {
    AtByte(d, o, [0], 0);
    hide At;
  }

  lemma SkipLabel(d: seq<byte>, o: nat, l: Label)
    requires At(d, o, [|l|]) && At(d, o + 1, l)
    ensures Skip(d, o) == Skip(d, o + 1 + |l|) && Names(d, o) == [l] + Names(d, o + 1 + |l|)
  {
    AtByte(d, o, [|l|], 0);
  }

  lemma WireSplit(ls: seq<Label>)
    requires ls != []
    ensures Wire(ls) + [0] == [|ls[0]|] + (ls[0] + (Wire(ls[1..]) + [0]))
    ensures |Wire(ls)| == 1 + |ls[0]| + |Wire(ls[1..])|
  {
    Nested([|ls[0]|], ls[0], Wire(ls[1..]), [0]);
  }

  lemma Nested(a: seq<byte>, b: seq<byte>, c: seq<byte>, d: seq<byte>)
    ensures a + b + c + d == a + (b + (c + d))
  {
  }

  lemma WireNone()
    ensures Wire([]) + [0] == [0] && |Wire([])| == 0
  {
  }

  /** Skipping encoded labels ends exactly at their terminating zero, and the labels
      read on the way are the ones encoded. */
  lemma {:induction false} SkipWire(d: seq<byte>, o: nat, ls: seq<Label>)
    requires At(d, o, Wire(ls) + [0])
    ensures Skip(d, o) == o + |Wire(ls)| && Names(d, o) == ls
    decreases |ls|
  {
    hide *;
    if ls == [] {
      WireNone();
      SkipEnd(d, o);
    } else {
      var n: nat := |ls[0]|;
      WireSplit(ls);
      AtSplit(d, o, [n], ls[0] + (Wire(ls[1..]) + [0]));
      AtSplit(d, o + 1, ls[0], Wire(ls[1..]) + [0]);
      SkipLabel(d, o, ls[0]);
      SkipWire(d, o + 1 + n, ls[1..]);
    }
  }

  /** So the reader, skipping the question the client encoded, lands at its very end. */
  lemma SkipQuestion(id: nat, ls: seq<Label>, rest: seq<byte>)
    requires id < TWO16
    ensures Skip(Query(id, ls) + rest, HEADER) + 5 == |Query(id, ls)|
    ensures Names(Query(id, ls) + rest, HEADER) == ls
  {
    var q := Query(id, ls);
    var d := q + rest;
    assert q == q[..HEADER] + (Wire(ls) + [0] + [0, 1, 0, 1]);
    assert At(d, HEADER, Wire(ls) + [0]) by {
      assert d[HEADER..HEADER + |Wire(ls)| + 1] == Wire(ls) + [0];
    }
    SkipWire(d, HEADER, ls);
  }

  // ----- labels and the name itself -----

  /** Labels joined by dots. */
  function Dotted(ls: seq<seq<byte>>): seq<byte> {
    if ls == [] then [] else if |ls| == 1 then ls[0] else ls[0] + [DOT] + Dotted(ls[1..])
  }

  /** The name less one trailing dot. */
  function Trimmed(s: seq<byte>): seq<byte> {
    if s != [] && s[|s| - 1] == DOT then s[..|s| - 1] else s
  }

  /** name[i..j] lies between two dots or ends; what is empty behind a trailing dot does not count. */
  ghost predicate Stretch(name: seq<byte>, i: nat, j: nat) {
    && i <= j <= |name| && i < |name|
    && (i == 0 || name[i - 1] == DOT) && (j == |name| || name[j] == DOT) && DOT !in name[i..j]
  }

  /** No stretch from `from` on is empty or too long for a label. */
  ghost predicate GoodFrom(name: seq<byte>, from: nat) {
    forall i: nat, j: nat | from <= i && Stretch(name, i, j) :: 1 <= j - i <= 63
  }

  /** A name that can be asked for. */
  ghost predicate Askable(name: seq<byte>) { GoodFrom(name, 0) && HEADER + |Trimmed(name)| + 1 < 508 }

  lemma StretchFrom(name: CString, i: nat, a: nat, b: nat)
    requires i < |name| && (i == 0 || name[i - 1] == DOT) && i <= a && Stretch(name, a, b)
    ensures Stretch(name, i, LabelEnd(name, i))
    ensures if a == i then b == LabelEnd(name, i) else a >= After(name, LabelEnd(name, i))
  {
    hide After;
    var j := LabelEnd(name, i);
    AfterIs(name, j);
    var s, t := name[i..j], name[a..b];
    assert forall k | i <= k < j :: name[k] == s[k - i] != DOT;
    assert forall k | a <= k < b :: name[k] == t[k - a] != DOT;
  }

  lemma AfterIs(name: CString, j: nat)
    requires j <= |name|
    ensures j < |name| ==> After(name, j) == j + 1
    ensures j <= After(name, j) <= |name|
  {
  }

  lemma {:induction false} LabelsIff(name: CString, i: nat)
    requires i <= |name| && (i == 0 || i == |name| || name[i - 1] == DOT)
    ensures LabelsFrom(name, i).Some? <==> GoodFrom(name, i)
    decreases |name| - i
  {
    if i < |name| {
      var j := LabelEnd(name, i);
      AfterIs(name, j);
      var k := After(name, j);
      if j > i { LabelsIff(name, k); }
      assert Stretch(name, i, j);
      hide LabelEnd, After, Stretch;
      forall a: nat, b: nat | i <= a && Stretch(name, a, b)
        ensures if a == i then b == j else a >= k
      {
        StretchFrom(name, i, a, b);
      }
    }
  }

  /** The labels of a name, joined, are the name less one trailing dot. */
  lemma {:induction false} LabelsJoin(name: CString, i: nat)
    requires i <= |name| && LabelsFrom(name, i).Some?
    ensures var ls := LabelsFrom(name, i).value;
            Dotted(ls) == Trimmed(name[i..]) && (ls == [] <==> i == |name|)
    decreases |name| - i
  {
    if i < |name| {
      var j := LabelEnd(name, i);
      AfterIs(name, j);
      var k := After(name, j);
      LabelsJoin(name, k);
      var l, rest := name[i..j], LabelsFrom(name, k).value;
      assert LabelsFrom(name, i).value == [l] + rest;
      hide LabelsFrom, LabelEnd, After;
      JoinStep(name, i, j, k, l, rest);
    }
  }

  lemma JoinStep(name: seq<byte>, i: nat, j: nat, k: nat, l: seq<byte>, rest: seq<seq<byte>>)
    requires i < j <= k <= |name| && l == name[i..j] && DOT !in l && (j < |name| ==> name[j] == DOT && k == j + 1)
    requires Dotted(rest) == Trimmed(name[k..]) && (rest == [] <==> k == |name|)
    ensures Dotted([l] + rest) == Trimmed(name[i..])
  {
    assert ([l] + rest)[1..] == rest;
    var s := name[i..];
    if j == |name| {
      assert s == l;
      assert s[|s| - 1] == l[|l| - 1];
    } else {
      assert s == l + [DOT] + name[k..];
      if k == |name| {
        assert s[..|s| - 1] == l;
      } else {
        assert s[|s| - 1] == name[k..][|name[k..]| - 1];
        assert Trimmed(s) == l + [DOT] + Trimmed(name[k..]);
      }
    }
  }

  lemma {:induction false} WireLength(ls: seq<Label>)
    ensures |Wire(ls)| == if ls == [] then 0 else |Dotted(ls)| + 1
  {
    if ls != [] { WireLength(ls[1..]); }
  }

  /** The labels of a name exist and fit exactly when it can be asked for. */
  lemma AskableIff(name: CString)
    ensures Askable(name) <==> LabelsFrom(name, 0).Some? && Fits(LabelsFrom(name, 0).value)
  {
    hide LabelsFrom, Trimmed, Wire, Dotted, GoodFrom;
    LabelsIff(name, 0);
    if LabelsFrom(name, 0).Some? {
      var ls := LabelsFrom(name, 0).value;
      LabelsJoin(name, 0);
      WireLength(ls);
      assert name[0..] == name;
      if ls == [] { TrimmedNothing(name); }
    }
  }

  lemma TrimmedNothing(name: seq<byte>)
    requires name == []
    ensures Trimmed(name) == []
  {
  }

  /** What a query for these labels holds, byte by byte, and what a reader finds in it. */
  lemma QueryBytes(id: nat, name: CString)
    requires id < TWO16 && LabelsFrom(name, 0).Some?
    ensures var q := Query(id, LabelsFrom(name, 0).value);
            && |q| >= 17 && 256 * (q[0] as int) + q[1] as int == id && q[2..12] == [1, 0, 0, 1, 0, 0, 0, 0, 0, 0]
            && q[|q| - 4..] == [0, 1, 0, 1] && Skip(q, HEADER) + 5 == |q|
            && Dotted(Names(q, HEADER)) == Trimmed(name)
  {
    hide LabelsFrom, Trimmed, Wire, Dotted, Names, Skip;
    var ls := LabelsFrom(name, 0).value;
    var q := Query(id, ls);
    LabelsJoin(name, 0);
    assert name[0..] == name;
    SkipQuestion(id, ls, []);
    assert q + [] == q;
    ToBe16Bytes(id);
    assert q[0] == ToBe16(id)[0] && q[1] == ToBe16(id)[1];
  }

  // ----- encoding -----

  /** net_dns, first half: the query for a name, or nothing where a label is empty or
      too long or the whole does not fit. Read back, it asks for the name. */
  method Encode(name: CString, id: nat) returns (q: Option<seq<byte>>)
    requires id < TWO16
    ensures q.Some? <==> Askable(name)
    ensures q.Some? ==>
              && LabelsFrom(name, 0).Some? && q.value == Query(id, LabelsFrom(name, 0).value)
              && |q.value| >= 17 && 256 * (q.value[0] as int) + q.value[1] as int == id
              && q.value[2..12] == [1, 0, 0, 1, 0, 0, 0, 0, 0, 0] && q.value[|q.value| - 4..] == [0, 1, 0, 1]
              && Skip(q.value, HEADER) + 5 == |q.value| && Dotted(Names(q.value, HEADER)) == Trimmed(name)
  {
    hide Wire, LabelsFrom, LabelEnd, LabelAt, Prepend, Fits, Query, ToBe16, Askable, Skip, Names, Dotted, Trimmed;
    AskableIff(name);
    NoLabels();
    var b := Header(id);
    var s, n := 0, HEADER;
    ghost var front := b[..12];
    ghost var ls: seq<Label> := [];
    PrependNothing(LabelsFrom(name, 0));
    while s < |name|
      invariant s <= |name| && n == HEADER + |Wire(ls)| < 508 && b.Length == 512 && fresh(b)
      invariant b[..n] == front + Wire(ls)
      invariant LabelsFrom(name, 0) == Prepend(ls, LabelsFrom(name, s))
      decreases |name| - s
    {
      var dot := FindDot(name, s);
      var lab := dot - s;
      if lab == 0 || lab > 63 {
        BadLabel(ls, name, s);
        return None;
      }
      if n + lab + 1 >= 508 {
        TooLong(ls, name, s);
        return None;
      }
      NextLabel(ls, name, s, dot);
      var l := LabelAt(name, s, dot);
      PutLabel(b, n, l);
      Behind(front, Wire(ls), [lab], l);
      n := n + 1 + lab;
      ls := ls + [l];
      s := After(name, dot);
    }
    PrependAll(ls, name);
    Finish(b, n);
    QueryIs(id, ls);
    QueryBytes(id, name);
    return Some(b[..n + 5]);
  }

  lemma NoLabels()
    ensures Wire([]) == []
  {
  }

  lemma Behind(a: seq<byte>, b: seq<byte>, c: seq<byte>, d: seq<byte>)
    ensures a + b + c + d == a + (b + c + d)
  {
  }

  lemma QueryIs(id: nat, ls: seq<Label>)
    requires id < TWO16
    ensures Query(id, ls)
            == ToBe16(id) + [1, 0] + [0, 1] + [0, 0] + [0, 0] + [0, 0] + Wire(ls) + [0] + [0, 1] + [0, 1]
  {
  }

  method Header(id: nat) returns (b: array<byte>)
    requires id < TWO16
    ensures fresh(b) && b.Length == 512
    ensures b[..12] == ToBe16(id) + [1, 0] + [0, 1] + [0, 0] + [0, 0] + [0, 0]
  {
    b := new byte[512](_ => 0);
    b[0], b[1], b[2], b[3], b[4], b[5] := id / 256, id % 256, 1, 0, 0, 1;
    b[6], b[7], b[8], b[9], b[10], b[11] := 0, 0, 0, 0, 0, 0;
    HeaderIs(id, b[..12]);
  }

  lemma HeaderIs(id: nat, h: seq<byte>)
    requires id < TWO16 && |h| == 12 && h[0] == id / 256 && h[1] == id % 256
    requires h[2] == 1 && h[3] == 0 && h[4] == 0 && h[5] == 1
    requires h[6] == 0 && h[7] == 0 && h[8] == 0 && h[9] == 0 && h[10] == 0 && h[11] == 0
    ensures h == ToBe16(id) + [1, 0] + [0, 1] + [0, 0] + [0, 0] + [0, 0]
  {
    assert h[..2] == ToBe16(id) && h[2..4] == [1, 0] && h[4..6] == [0, 1];
    assert h[6..8] == [0, 0] && h[8..10] == [0, 0] && h[10..] == [0, 0];
  }

  /** The label from `s` up to the dot. */
  function LabelAt(name: CString, s: nat, dot: nat): Label
    requires s < dot <= |name| && dot - s <= 63
  {
    name[s..dot]
  }

  method FindDot(name: CString, s: nat) returns (dot: nat)
    requires s <= |name|
    ensures dot == LabelEnd(name, s)
  {
    dot := s;
    while dot < |name| && name[dot] != DOT
      invariant s <= dot <= |name| && LabelEnd(name, dot) == LabelEnd(name, s)
    {
      dot := dot + 1;
    }
  }

  /** The zero that ends the name, and type A, class IN. */
  method Finish(b: array<byte>, n: nat)
    requires n + 5 <= b.Length
    modifies b
    ensures b[..n + 5] == old(b[..n]) + [0] + [0, 1] + [0, 1]
  {
    b[n], b[n + 1], b[n + 2], b[n + 3], b[n + 4] := 0, 0, 1, 0, 1;
  }

  lemma PrependNothing(more: Option<seq<Label>>)
    ensures Prepend([], more) == more
  {
    if more.Some? { assert [] + more.value == more.value; }
  }

  lemma PrependAll(ls: seq<Label>, name: CString)
    requires HEADER + |Wire(ls)| < 508
    ensures Prepend(ls, LabelsFrom(name, |name|)) == Some(ls) && Fits(ls)
  {
    assert ls + [] == ls;
  }

  lemma BadLabel(ls: seq<Label>, name: CString, s: nat)
    requires s < |name| && !(1 <= LabelEnd(name, s) - s <= 63)
    ensures Prepend(ls, LabelsFrom(name, s)) == None
  {
  }

  function Prepend(ls: seq<Label>, more: Option<seq<Label>>): Option<seq<Label>> {
    if more.None? then None else Some(ls + more.value)
  }

  lemma NextLabel(ls: seq<Label>, name: CString, s: nat, j: nat)
    requires s < |name| && j == LabelEnd(name, s) && 1 <= j - s <= 63
    ensures var l := LabelAt(name, s, j);
            && Prepend(ls, LabelsFrom(name, s)) == Prepend(ls + [l], LabelsFrom(name, After(name, j)))
            && Wire(ls + [l]) == Wire(ls) + [j - s] + l && |l| == j - s
  {
    hide LabelsFrom, LabelEnd, LabelAt, Wire;
    var l := LabelAt(name, s, j);
    LabelsStep(name, s, j);
    OneLabel(l);
    WireJoin(ls, [l]);
    var rest := LabelsFrom(name, After(name, j));
    if rest.Some? {
      assert ls + ([l] + rest.value) == (ls + [l]) + rest.value;
    }
  }

  lemma OneLabel(l: Label)
    ensures Wire([l]) == [|l|] + l
  {
    assert [l][1..] == [];
  }

  lemma LabelsStep(name: CString, s: nat, j: nat)
    requires s < |name| && j == LabelEnd(name, s) && 1 <= j - s <= 63
    ensures LabelsFrom(name, s) ==
            var rest := LabelsFrom(name, After(name, j));
            if rest.None? then None else Some([LabelAt(name, s, j)] + rest.value)
    ensures |LabelAt(name, s, j)| == j - s
  {
  }

  /** Once the labels so far leave no room, the name as a whole does not fit. */
  lemma TooLong(ls: seq<Label>, name: CString, s: nat)
    requires s < |name| && 1 <= LabelEnd(name, s) - s <= 63 && HEADER + |Wire(ls)| + 1 + (LabelEnd(name, s) - s) >= 508
    ensures var all := Prepend(ls, LabelsFrom(name, s)); all.Some? ==> !Fits(all.value)
  {
    hide LabelsFrom, LabelEnd, LabelAt, Wire;
    var j := LabelEnd(name, s);
    NextLabel(ls, name, s, j);
    var rest := LabelsFrom(name, After(name, j));
    if rest.Some? {
      WireJoin(ls + [LabelAt(name, s, j)], rest.value);
    }
  }

  method PutLabel(b: array<byte>, n: nat, l: Label)
    requires n + 1 + |l| <= b.Length
    modifies b
    ensures b[..n + 1 + |l|] == old(b[..n]) + [|l|] + l
  {
    b[n] := |l|;
    for i := 0 to |l|
      invariant b[..n + 1 + i] == old(b[..n]) + [|l|] + l[..i]
    {
      b[n + 1 + i] := l[i];
    }
  }

  // ----- reading a reply -----

  /** The name of a record, as replies write it: a pointer or plain labels. */
  datatype RName = Pointer(hi: byte, lo: byte) | Plain(ls: seq<Label>)

  datatype Record = Record(name: RName, kind: nat, class_: nat, ttl: nat, data: seq<byte>)

  predicate RecordOk(r: Record) {
    && (r.name.Pointer? ==> r.name.hi >= 0xC0)
    && r.kind < TWO16 && r.class_ < TWO16 && r.ttl < TWO32 && |r.data| < TWO16
  }

  function NameWire(n: RName): seq<byte> {
    match n
    case Pointer(hi, lo) => [hi, lo]
    case Plain(ls) => Wire(ls) + [0]
  }

  function Fixed(r: Record): (b: seq<byte>)
    requires RecordOk(r)
    ensures |b| == 10
  {
    ToBe16(r.kind) + ToBe16(r.class_) + ToBe32(r.ttl) + ToBe16(|r.data|)
  }

  function RecordWire(r: Record): seq<byte>
    requires RecordOk(r)
  {
    NameWire(r.name) + (Fixed(r) + r.data)
  }

  predicate AllOk(rs: seq<Record>) { forall i | 0 <= i < |rs| :: RecordOk(rs[i]) }

  /** The records from the k-th on. */
  function RecordsWire(rs: seq<Record>, k: nat): seq<byte>
    requires AllOk(rs) && k <= |rs|
    decreases |rs| - k
  {
    if k == |rs| then [] else RecordWire(rs[k]) + RecordsWire(rs, k + 1)
  }

  predicate IsA(r: Record) { r.kind == 1 && |r.data| == 4 }

  /** The address in the first A record from the k-th on. */
  function FirstA(rs: seq<Record>, k: nat): Option<seq<byte>>
    requires k <= |rs|
    decreases |rs| - k
  {
    if k == |rs| then None else if IsA(rs[k]) then Some(rs[k].data) else FirstA(rs, k + 1)
  }

  function SkipName(d: seq<byte>, o: nat): (r: nat)
    requires o < |d|
    ensures o < r
  {
    if d[o] >= 0xC0 then o + 2 else Skip(d, o) + 1
  }

  /** A name is a pointer exactly when the two high bits of its first byte are set (RFC 1035, section
      4.1.4), and any other byte a length. */
  lemma PointerIff(d: seq<byte>, o: nat)
    requires o < |d|
    ensures if d[o] as int / 0x40 == 3 then SkipName(d, o) == o + 2 else SkipName(d, o) == Skip(d, o) + 1
  {
  }

  /** The answer loop from offset `o` on. */
  function Scan(d: seq<byte>, o: nat): Option<seq<byte>>
    decreases |d| - o
  {
    if o + 10 >= |d| then None
    else
      var p := SkipName(d, o);
      if p + 10 > |d| then None
      else if Be16(d, p) == 1 && Be16(d, p + 8) == 4 && p + 14 <= |d| then Some(d[p + 10..p + 14])
      else Scan(d, p + 10 + Be16(d, p + 8))
  }

  lemma FixedBytes(r: Record)
    requires RecordOk(r)
    ensures Be16(Fixed(r), 0) == r.kind && Be16(Fixed(r), 8) == |r.data|
  {
    var f := Fixed(r);
    assert f[0..2] == ToBe16(r.kind) && f[8..10] == ToBe16(|r.data|);
    assert f[0] == f[0..2][0] && f[1] == f[0..2][1] && f[8] == f[8..10][0] && f[9] == f[8..10][1];
  }

  lemma FixedAt(d: seq<byte>, p: nat, r: Record)
    requires RecordOk(r) && At(d, p, Fixed(r))
    ensures p + 10 <= |d| && Be16(d, p) == r.kind && Be16(d, p + 8) == |r.data|
  {
    hide At, Fixed, RecordOk;
    FixedBytes(r);
    AtByte(d, p, Fixed(r), 0);
    AtByte(d, p, Fixed(r), 1);
    AtByte(d, p, Fixed(r), 8);
    AtByte(d, p, Fixed(r), 9);
  }

  lemma NameAt(d: seq<byte>, o: nat, n: RName)
    requires At(d, o, NameWire(n)) && (n.Pointer? ==> n.hi >= 0xC0)
    ensures o < |d| && SkipName(d, o) == o + |NameWire(n)|
  {
    hide At, Wire, Skip;
    AtByte(d, o, NameWire(n), 0);
    if n.Plain? {
      SkipWire(d, o, n.ls);
      FirstLength(n.ls);
    }
  }

  /** A length byte is no pointer. */
  lemma FirstLength(ls: seq<Label>)
    ensures (Wire(ls) + [0])[0] < 0xC0
  {
  }

  lemma ScanStep(d: seq<byte>, o: nat, p: nat, data: seq<byte>)
    requires o + 10 < |d| && p == SkipName(d, o) && At(d, p + 10, data) && Be16(d, p + 8) == |data|
    ensures Scan(d, o) == if Be16(d, p) == 1 && |data| == 4 then Some(data) else Scan(d, p + 10 + |data|)
  {
    hide Be16, SkipName;
  }

  lemma RecordParts(d: seq<byte>, o: nat, name: seq<byte>, fixed: seq<byte>, data: seq<byte>, tail: seq<byte>)
    requires Rest(d, o, name + (fixed + data) + tail)
    ensures At(d, o, name) && At(d, o + |name|, fixed) && At(d, o + |name| + |fixed|, data)
    ensures Rest(d, o + |name| + |fixed| + |data|, tail) && o + |name| + |fixed| + |data| <= |d|
  {
    assert name + (fixed + data) + tail == name + (fixed + (data + tail));
    RestIsAt(d, o, name + (fixed + (data + tail)));
    hide At;
    AtSplit(d, o, name, fixed + (data + tail));
    AtSplit(d, o + |name|, fixed, data + tail);
    AtSplit(d, o + |name| + |fixed|, data, tail);
    AtIsRest(d, o + |name| + |fixed| + |data|, tail);
  }

  lemma RestIsAt(d: seq<byte>, o: nat, w: seq<byte>)
    requires Rest(d, o, w)
    ensures At(d, o, w) && o + |w| == |d|
  {
  }

  lemma AtIsRest(d: seq<byte>, o: nat, w: seq<byte>)
    requires At(d, o, w) && o + |w| == |d|
    ensures Rest(d, o, w)
  {
  }

  /** From `o` on, `d` is `w`. */
  ghost predicate Rest(d: seq<byte>, o: nat, w: seq<byte>) { o <= |d| && d[o..] == w }

  /** One round of the answer loop. */
  lemma ScanOne(d: seq<byte>, o: nat, r: Record, tail: seq<byte>)
    requires RecordOk(r) && Rest(d, o, RecordWire(r) + tail)
    ensures Scan(d, o) == if IsA(r) then Some(r.data) else Scan(d, o + |RecordWire(r)|)
    ensures Rest(d, o + |RecordWire(r)|, tail)
  {
    hide Fixed, NameWire, Scan, SkipName, Be16, Rest, At;
    var name := NameWire(r.name);
    SomeName(r.name);
    RecordParts(d, o, name, Fixed(r), r.data, tail);
    NameAt(d, o, r.name);
    FixedAt(d, o + |name|, r);
    ScanStep(d, o, o + |name|, r.data);
  }

  lemma SomeName(n: RName)
    ensures |NameWire(n)| > 0
  {
  }

  /** Reading records gives the address of the first A record, or nothing when there is none. */
  lemma {:induction false} ScanRecords(d: seq<byte>, o: nat, rs: seq<Record>, k: nat)
    requires AllOk(rs) && k <= |rs| && Rest(d, o, RecordsWire(rs, k))
    ensures Scan(d, o) == FirstA(rs, k)
    decreases |rs| - k
  {
    hide RecordOk, IsA, RecordWire;
    if k < |rs| {
      hide Scan, Rest;
      ScanOne(d, o, rs[k], RecordsWire(rs, k + 1));
      ScanRecords(d, o + |RecordWire(rs[k])|, rs, k + 1);
    }
  }

  /** net_dns, second half: the answer in a reply. It stops on every input. */
  method Read(d: seq<byte>) returns (ip: Option<seq<byte>>)
    requires |d| >= HEADER
    ensures ip == Scan(d, Skip(d, HEADER) + 5)
  {
    hide Be16, SkipName;
    var o := HEADER;
    while o < |d| && d[o] != 0
      invariant Skip(d, o) == Skip(d, HEADER)
      decreases |d| - o
    {
      o := o + d[o] as int + 1;
    }
    o := o + 5;
    while o + 10 < |d|
      invariant 0 <= o && Scan(d, o) == Scan(d, Skip(d, HEADER) + 5)
      decreases |d| - o
    {
      ghost var o0 := o;
      o := SkipNameLoop(d, o);
      if o + 10 > |d| {
        break;
      }
      var kind, len := Be16(d, o), Be16(d, o + 8);
      o := o + 10;
      if kind == 1 && len == 4 && o + 4 <= |d| {
        return Some(d[o..o + 4]);
      }
      o := o + len;
    }
    return None;
  }

  method SkipNameLoop(d: seq<byte>, o: nat) returns (p: nat)
    requires o < |d|
    ensures p == SkipName(d, o)
  {
    if d[o] >= 0xC0 {
      return o + 2;
    }
    p := o;
    while p < |d| && d[p] != 0
      invariant o <= p && Skip(d, p) == Skip(d, o)
      decreases |d| - p
    {
      p := p + d[p] as int + 1;
    }
    p := p + 1;
  }

  /** The reply to a query: its question and then records of whatever kinds. */
  lemma ReplyIsRead(id: nat, ls: seq<Label>, head: seq<byte>, rs: seq<Record>)
    requires id < TWO16 && |head| == HEADER && AllOk(rs)
    ensures var d := head + Query(id, ls)[HEADER..] + RecordsWire(rs, 0);
            Scan(d, Skip(d, HEADER) + 5) == FirstA(rs, 0)
  {
    hide Query, Wire, RecordsWire, Skip, Scan, FirstA, At, AllOk;
    QueryTail(id, ls);
    var q, w := Query(id, ls)[HEADER..], Wire(ls) + [0];
    var d := head + q + RecordsWire(rs, 0);
    ReplyParts(d, head, w, RecordsWire(rs, 0));
    SkipWire(d, HEADER, ls);
    ScanRecords(d, HEADER + |q|, rs, 0);
  }

  lemma QueryTail(id: nat, ls: seq<Label>)
    requires id < TWO16
    ensures |Query(id, ls)| >= HEADER && Query(id, ls)[HEADER..] == Wire(ls) + [0] + [0, 1, 0, 1]
  {
    hide Wire;
  }

  lemma ReplyParts(d: seq<byte>, head: seq<byte>, w: seq<byte>, tail: seq<byte>)
    requires |head| == HEADER && d == head + (w + [0, 1, 0, 1]) + tail
    ensures At(d, HEADER, w) && d[HEADER + |w| + 4..] == tail
  {
  }
}
