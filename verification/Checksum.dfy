/** The Internet checksum (RFC 1071) as the network code computes it. */
module Checksum {
  import opened Bytes

  /** Sum of the big-endian 16-bit words; a last odd byte counts as a high byte. */
  function WordSum(p: seq<byte>): nat {
    if p == [] then 0
    else if |p| == 1 then 256 * (p[0] as int)
    else Be16(p, 0) + WordSum(p[2..])
  }

  lemma {:induction false} WordSumBound(p: seq<byte>)
    ensures WordSum(p) <= 0xFFFF * ((|p| + 1) / 2)
    ensures |p| <= 0x20002 ==> WordSum(p) < TWO32
  {
    if |p| >= 2 { WordSumBound(p[2..]); }
  }

  lemma {:induction false} WordSumJoin(a: seq<byte>, b: seq<byte>)
    requires |a| % 2 == 0
    ensures WordSum(a + b) == WordSum(a) + WordSum(b)
  {
    if a == [] {
      assert a + b == b;
    } else {
      WordSumJoin(a[2..], b);
      assert (a + b)[2..] == a[2..] + b;
    }
  }

  /** One more word at the end of an even number of bytes. */
  lemma WordSumStep(p: seq<byte>, i: nat)
    requires i % 2 == 0 && i + 2 <= |p|
    ensures WordSum(p[..i + 2]) == WordSum(p[..i]) + Be16(p, i)
  {
    WordSumJoin(p[..i], p[i..i + 2]);
    assert p[..i + 2] == p[..i] + p[i..i + 2];
    assert p[i..i + 2][2..] == [];
  }

  lemma OneByte(b: byte)
    ensures WordSum([b]) == 256 * (b as int)
  {
  }

  lemma WordSumLast(p: seq<byte>)
    requires |p| % 2 == 1
    ensures WordSum(p) == WordSum(p[..|p| - 1]) + 256 * (p[|p| - 1] as int)
  {
    assert p == p[..|p| - 1] + [p[|p| - 1]];
    OneByte(p[|p| - 1]);
    hide WordSum;
    WordSumJoin(p[..|p| - 1], [p[|p| - 1]]);
  }

  /** Every byte by its place: bytes at even offsets count 256 times. */
  function ByteSum(p: seq<byte>): nat {
    if p == [] then 0
    else
      var n := |p| - 1;
      ByteSum(p[..n]) + if n % 2 == 0 then 0x100 * (p[n] as int) else p[n] as int
  }

  lemma {:induction false} WordSumBytes(p: seq<byte>)
    ensures WordSum(p) == ByteSum(p)
    decreases |p|
  {
    if p != [] {
      var n := |p| - 1;
      WordSumBytes(p[..n]);
      if n % 2 == 0 {
        WordSumLast(p);
      } else {
        var q := p[..n];
        WordSumBytes(q[..n - 1]);
        WordSumLast(q);
        assert p[..n + 1] == p && q[..n - 1] == p[..n - 1];
        WordSumStep(p, n - 1);
      }
    }
  }

  /** An odd byte at the end counts as if a zero followed. */
  lemma OddIsPadded(p: seq<byte>)
    requires |p| % 2 == 1
    ensures Sum(p) == Sum(p + [0])
  {
    var q := p + [0];
    assert q[..|p|] == p;
    WordSumBytes(p);
    WordSumBytes(q);
    hide WordSum, Fold;
    assert ByteSum(q) == ByteSum(p);
  }

  lemma {:induction false} WordSumZero(p: seq<byte>)
    ensures WordSum(p) == 0 <==> forall i | 0 <= i < |p| :: p[i] == 0
  {
    if |p| >= 2 {
      WordSumZero(p[2..]);
      assert forall i | 2 <= i < |p| :: p[i] == p[2..][i - 2];
      if forall i | 0 <= i < |p[2..]| :: p[2..][i] == 0 {
        assert forall i | 2 <= i < |p| :: p[i] == 0;
      }
      if forall i | 0 <= i < |p| :: p[i] == 0 {
        assert forall i | 0 <= i < |p[2..]| :: p[2..][i] == p[i + 2];
      }
    }
  }

  // ----- folding -----

  /** Adding the carries back until none is left. */
  function Fold(s: nat): nat {
    if s < TWO16 then s else Fold(s % TWO16 + s / TWO16)
  }

  /** In closed form: the residue modulo 65535, with 65535 standing for 0 except for 0 itself. */
  lemma {:induction false} FoldIs(s: nat)
    ensures Fold(s) == if s == 0 then 0 else 1 + (s - 1) % 0xFFFF
  {
    if s >= TWO16 {
      var t := s % TWO16 + s / TWO16;
      FoldIs(t);
      SameResidue(s - 1, t - 1, s / TWO16);
    } else if s > 0 {
      SmallResidue(s - 1);
    }
  }

  lemma SmallResidue(a: nat)
    requires a < 0xFFFF
    ensures a % 0xFFFF == a
  {
  }

  lemma SameResidue(a: nat, b: nat, k: nat)
    requires a == b + 0xFFFF * k
    ensures a % 0xFFFF == b % 0xFFFF
  {
  }

  /** The checksum of a byte string. */
  function Sum(p: seq<byte>): (c: nat)
    ensures c < TWO16
  {
    FoldIs(WordSum(p));
    0xFFFF - Fold(WordSum(p))
  }

  /** The folded sum is congruent to the word sum and zero only for all zeros. */
  lemma SumMeans(p: seq<byte>)
    ensures (0xFFFF - Sum(p)) % 0xFFFF == WordSum(p) % 0xFFFF
    ensures Sum(p) == 0xFFFF <==> forall i | 0 <= i < |p| :: p[i] == 0
  {
    FoldIs(WordSum(p));
    WordSumZero(p);
    var s := WordSum(p);
    if s > 0 { NextResidue(s - 1); }
  }

  lemma NextResidue(a: nat)
    ensures (1 + a % 0xFFFF) % 0xFFFF == (a + 1) % 0xFFFF
  {
  }

  /** Putting the checksum of a message into its zeroed 16-bit field makes the whole
      check to zero, wherever on an even offset the field is. */
  lemma FilledChecks(a: seq<byte>, b: seq<byte>)
    requires |a| % 2 == 0
    ensures Sum(a + ToBe16(Sum(a + [0, 0] + b)) + b) == 0
  {
    var c := Sum(a + [0, 0] + b);
    var s := WordSum(a) + WordSum(b);
    WordSumField(a, ToBe16(c), b);
    WordSumField(a, [0, 0], b);
    FoldIs(s);
    FoldIs(s + c);
    if s > 0 { FullCircle(s - 1); }
  }

  lemma WordSumField(a: seq<byte>, f: seq<byte>, b: seq<byte>)
    requires |a| % 2 == 0 && |f| == 2
    ensures WordSum(a + f + b) == WordSum(a) + Be16(f, 0) + WordSum(b)
  {
    WordSumJoin(a + f, b);
    WordSumJoin(a, f);
    assert f[2..] == [];
  }

  lemma FullCircle(a: nat)
    ensures (a + (0xFFFF - (1 + a % 0xFFFF))) % 0xFFFF == 0xFFFE
  {
    SameResidue(a + (0xFFFF - (1 + a % 0xFFFF)), 0xFFFE, a / 0xFFFF);
  }

  // ----- the loops -----

  /** The folding loop. */
  method FoldLoop(s: nat) returns (r: nat)
    ensures r == Fold(s) && r < TWO16
  {
    r := s;
    while r / TWO16 != 0
      invariant Fold(r) == Fold(s)
      decreases r
    {
      r := r % TWO16 + r / TWO16;
    }
  }

  /** One more word, with no carry out of the 32 bits. */
  lemma StepFits(s: seq<byte>, i: nat, s0: nat)
    requires i % 2 == 0 && i + 2 <= |s| && s0 + (|s| + 1) / 2 * 0xFFFF < TWO32
    ensures (s0 + WordSum(s[..i]) + Be16(s, i)) % TWO32 == s0 + WordSum(s[..i + 2])
  {
    hide WordSum, Be16;
    WordSumStep(s, i);
    WordSumBound(s[..i + 2]);
  }

  lemma LastFits(s: seq<byte>, s0: nat)
    requires |s| % 2 == 1 && s0 + (|s| + 1) / 2 * 0xFFFF < TWO32
    ensures (s0 + WordSum(s[..|s| - 1]) + 256 * (s[|s| - 1] as int)) % TWO32 == s0 + WordSum(s)
  {
    hide WordSum;
    WordSumLast(s);
    WordSumBound(s);
  }

  /** checksum, with its 32-bit accumulator: right for anything up to 131074 bytes. */
  method ChecksumOf(p: seq<byte>) returns (c: nat)
    requires |p| <= 0x20002
    ensures c == Sum(p)
  {
    hide WordSum, Fold, Be16;
    var sum, i := 0, 0;
    NoBytes();
    assert p[..0] == [];
    while |p| - i > 1
      invariant 0 <= i <= |p| && i % 2 == 0 && sum == WordSum(p[..i])
    {
      StepFits(p, i, 0);
      sum := (sum + Be16(p, i)) % TWO32;
      i := i + 2;
    }
    assert |p| % 2 == 0 ==> p[..i] == p;
    if |p| - i > 0 {
      LastFits(p, 0);
      assert i == |p| - 1;
      sum := (sum + 256 * (p[i] as int)) % TWO32;
    }
    sum := FoldLoop(sum);
    c := 0xFFFF - sum;
  }

  lemma NoBytes()
    ensures WordSum([]) == 0
  {
  }

  /** The pseudo-header of TCP over IPv4 (RFC 9293, section 3.1). */
  function Pseudo(sip: seq<byte>, dip: seq<byte>, len: nat): (h: seq<byte>)
    requires |sip| == 4 && |dip| == 4 && len < TWO16
    ensures |h| == 12
  {
    sip + dip + [0, 6] + ToBe16(len)
  }

  lemma PseudoSum(sip: seq<byte>, dip: seq<byte>, len: nat)
    requires |sip| == 4 && |dip| == 4 && len < TWO16
    ensures WordSum(Pseudo(sip, dip, len)) == Be16(sip, 0) + Be16(sip, 2) + Be16(dip, 0) + Be16(dip, 2) + 6 + len
  {
    var h := Pseudo(sip, dip, len);
    assert h[..0] == [] && h[..12] == h;
    WordSumStep(h, 0);
    WordSumStep(h, 2);
    WordSumStep(h, 4);
    WordSumStep(h, 6);
    WordSumStep(h, 8);
    WordSumStep(h, 10);
    assert h[10] == ToBe16(len)[0] && h[11] == ToBe16(len)[1];
  }

  /** What the loop of tcp_sum starts from. */
  function PseudoStart(sip: seq<byte>, dip: seq<byte>, len: nat): nat
    requires |sip| == 4 && |dip| == 4
  {
    Be16(sip, 0) + Be16(sip, 2) + Be16(dip, 0) + Be16(dip, 2) + 6 + len
  }

  lemma SumIs(p: seq<byte>)
    ensures Sum(p) == 0xFFFF - Fold(WordSum(p))
  {
  }

  lemma WholeSum(sip: seq<byte>, dip: seq<byte>, s: seq<byte>)
    requires |sip| == 4 && |dip| == 4 && |s| < TWO16
    ensures Sum(Pseudo(sip, dip, |s|) + s) == 0xFFFF - Fold(PseudoStart(sip, dip, |s|) + WordSum(s))
  {
    hide WordSum, Fold, Pseudo, Be16, Sum;
    PseudoSum(sip, dip, |s|);
    WordSumJoin(Pseudo(sip, dip, |s|), s);
    SumIs(Pseudo(sip, dip, |s|) + s);
  }

  lemma StartFits(sip: seq<byte>, dip: seq<byte>, len: nat)
    requires |sip| == 4 && |dip| == 4 && len < TWO16
    ensures PseudoStart(sip, dip, len) + (len + 1) / 2 * 0xFFFF < TWO32
  {
    hide Be16;
  }

  /** tcp_sum is the checksum of the pseudo-header followed by the segment. */
  method TcpSum(sip: seq<byte>, dip: seq<byte>, s: seq<byte>) returns (c: nat)
    requires |sip| == 4 && |dip| == 4 && |s| < TWO16
    ensures c == Sum(Pseudo(sip, dip, |s|) + s)
  {
    hide WordSum, Fold, Pseudo, Be16, Sum;
    WholeSum(sip, dip, s);
    StartFits(sip, dip, |s|);
    var sum := Be16(sip, 0) + Be16(sip, 2) + Be16(dip, 0) + Be16(dip, 2) + 6 + |s|;
    ghost var s0 := PseudoStart(sip, dip, |s|);
    var i := 0;
    NoBytes();
    assert s[..0] == [];
    while i + 1 < |s|
      invariant 0 <= i <= |s| && i % 2 == 0 && sum == s0 + WordSum(s[..i])
    {
      StepFits(s, i, s0);
      sum := (sum + Be16(s, i)) % TWO32;
      i := i + 2;
    }
    assert |s| % 2 == 0 ==> s[..i] == s;
    if |s| % 2 == 1 {
      LastFits(s, s0);
      assert i == |s| - 1;
      sum := (sum + 256 * (s[|s| - 1] as int)) % TWO32;
    }
    sum := FoldLoop(sum);
    c := 0xFFFF - sum;
  }
}
