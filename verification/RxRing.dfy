/** The receive ring of the network card, filled by the hardware and emptied by the
    driver, with hardware steps allowed between any two steps of the driver. */
module RxRing {
  import opened Bytes

  const RXN := 128
  const RXBUF := 2048

  type Buffer = a: seq<byte> | |a| == RXBUF witness seq(2048, _ => 0)

  /** What the hardware puts into a descriptor: the buffer and the length it reports. */
  datatype Fill = Fill(buf: Buffer, len: nat)

  /** The frame a caller should see. */
  function FrameOf(f: Fill): seq<byte> { f.buf[..if f.len > RXBUF then RXBUF else f.len] }

  function Frames(fs: seq<Fill>): (r: seq<seq<byte>>)
    ensures |r| == |fs| && forall k | 0 <= k < |fs| :: r[k] == FrameOf(fs[k])
  {
    if fs == [] then [] else Frames(fs[..|fs| - 1]) + [FrameOf(fs[|fs| - 1])]
  }

  lemma FramesSnoc(fs: seq<Fill>, k: nat)
    requires k < |fs|
    ensures Frames(fs[..k + 1]) == Frames(fs[..k]) + [FrameOf(fs[k])]
  {
    assert fs[..k + 1][..k] == fs[..k];
  }

  /** Something the hardware does next, or its leaving the driver a turn. */
  datatype Turn = Receive(fill: Fill) | Rest

  class Ring {
    /** Descriptors: done bit, length and buffer. */
    const done: array<bool>
    const len: array<nat>
    const buf: array<Buffer>
    /** Registers: the hardware's next descriptor, and the last one it may not use. */
    var rdh: nat
    var rdt: nat
    /** g_rx_cur */
    var cur: nat
    /** What the hardware is going to do. */
    var script: seq<Turn>

    /** Everything ever filled in and everything ever returned. */
    ghost var filled: seq<Fill>
    ghost var returned: seq<seq<byte>>

    /** Of all descriptors ever filled, `c` have been cleared and `t` handed back. */
    ghost predicate Counts(t: nat, c: nat)
      reads this`rdh, this`rdt, this`filled, done, len, buf
    {
      && done.Length == len.Length == buf.Length == RXN && t <= c <= t + 1
      && c <= |filled| <= t + RXN - 1
      && rdh == |filled| % RXN && rdt == (t + RXN - 1) % RXN
      && (forall k | c <= k < c + RXN :: done[k % RXN] <==> k < |filled|)
      && (forall k | c <= k < |filled| :: buf[k % RXN] == filled[k].buf && len[k % RXN] == filled[k].len)
    }

    /** Between calls. */
    ghost predicate Valid()
      reads this, done, len, buf
    {
      && Counts(|returned|, |returned|) && cur == |returned| % RXN && returned == Frames(filled[..|returned|])
    }

    /** The receive half of e1000_init, with its buffers. */
    constructor (turns: seq<Turn>)
      ensures Valid() && filled == [] && returned == [] && script == turns && fresh(done) && fresh(len) && fresh(buf)
      ensures rdh == 0 && rdt == RXN - 1 && cur == 0
    {
      done := new bool[RXN](_ => false);
      len := new nat[RXN](_ => 0);
      buf := new Buffer[RXN](_ => seq(2048, _ => 0));
      rdh, rdt, cur, script := 0, RXN - 1, 0, turns;
      filled, returned := [], [];
    }

    /** After each call the hardware may use every descriptor but one behind the driver,
        and the descriptors marked done are exactly those from `cur` up to RDH. */
    lemma RingState()
      requires Valid()
      ensures rdt == (cur + RXN - 1) % RXN
      ensures forall i | 0 <= i < RXN :: done[i] <==> (i - cur) % RXN < (rdh - cur) % RXN
    {
      var n, f := |returned|, |filled|;
      Gap(n, f);
      assert rdt == (cur + RXN - 1) % RXN by { Before(n); }
      forall i | 0 <= i < RXN ensures done[i] <==> (i - cur) % RXN < (rdh - cur) % RXN {
        Slot(n, i);
        var k := n + (i - n % RXN) % RXN;
        assert done[k % RXN] <==> k < f;
      }
    }

    static lemma Gap(n: nat, f: nat)
      requires n <= f < n + RXN
      ensures (f % RXN - n % RXN) % RXN == f - n
    {
    }

    static lemma Before(n: nat)
      ensures (n + RXN - 1) % RXN == (n % RXN + RXN - 1) % RXN
    {
    }

    static lemma Slot(n: nat, i: nat)
      requires i < RXN
      ensures (n + (i - n % RXN) % RXN) % RXN == i
    {
    }

    /** What callers were given is a prefix of what the hardware filled in, in order. */
    lemma FirstInFirstOut()
      requires Valid()
      ensures returned <= Frames(filled)
    {
      FramesPrefix(filled, |returned|);
    }

    static lemma FramesPrefix(fs: seq<Fill>, k: nat)
      requires k <= |fs|
      ensures Frames(fs[..k]) <= Frames(fs)
    {
    }

    /** One hardware step: it fills its next descriptor unless that is the one it may not
        use (section 3.2 of the Gigabit Ethernet Controllers Software Developer's Manual). */
    method Hardware(f: Fill, ghost t: nat, ghost c: nat)
      requires Counts(t, c)
      modifies this`rdh, this`filled, done, len, buf
      ensures Counts(t, c) && filled == if old(rdh) == rdt then old(filled) else old(filled) + [f]
    {
      ghost var n := |filled|;
      RoomIff(t, n);
      NextSlot(n);
      SlotsDiffer(c, n);
      if rdh == rdt {
        return;
      }
      buf[rdh], len[rdh], done[rdh] := f.buf, f.len, true;
      rdh := (rdh + 1) % RXN;
      filled := filled + [f];
      forall k | c <= k < c + RXN ensures done[k % RXN] <==> k < |filled| {
        if k != n { assert old(done[k % RXN]) <==> k < n; }
      }
      forall k | c <= k < |filled| ensures buf[k % RXN] == filled[k].buf && len[k % RXN] == filled[k].len {
        if k != n { assert k < n && old(buf[k % RXN]) == filled[k].buf; }
      }
    }

    /** The next descriptor is the barred one exactly when all others hold unreturned frames. */
    static lemma RoomIff(t: nat, n: nat)
      requires t <= n <= t + RXN - 1
      ensures n % RXN == (t + RXN - 1) % RXN <==> n == t + RXN - 1
    {
    }

    static lemma NextSlot(n: nat)
      ensures n % RXN < RXN && (n % RXN + 1) % RXN == (n + 1) % RXN
    {
    }

    static lemma SlotsDiffer(c: nat, n: nat)
      requires c <= n < c + RXN
      ensures forall k | c <= k < c + RXN && k != n :: k % RXN != n % RXN
    {
    }

    /** Any number of hardware steps. */
    method Interleave(ghost t: nat, ghost c: nat)
      requires Counts(t, c)
      modifies this`rdh, this`filled, this`script, done, len, buf
      ensures Counts(t, c) && old(filled) <= filled
    {
      while script != []
        invariant Counts(t, c) && old(filled) <= filled
        decreases |script|
      {
        var next := script[0];
        script := script[1..];
        if next.Rest? {
          return;
        }
        Hardware(next.fill, t, c);
      }
    }

    /** e1000_recv: the oldest frame not yet returned, or none if none arrives in time.
        A frame that is already there is always found. */
    method Recv(out: array<byte>, budget: nat) returns (r: bool, n: nat)
      requires Valid() && out.Length == RXBUF
      modifies this, done, len, buf, out
      ensures Valid() && old(filled) <= filled
      ensures old(|returned| < |filled|) ==> r
      ensures r ==>
                && |old(returned)| < |filled|
                && var f := filled[|old(returned)|];
                   && n == (if f.len > RXBUF then RXBUF else f.len) && out[..n] == f.buf[..n]
                   && returned == old(returned) + [out[..n]]
      ensures !r ==> returned == old(returned)
    {
      ghost var c := |returned|;
      n := 0;
      for t := 0 to budget + 1
        invariant Valid() && returned == old(returned) && old(filled) <= filled
        invariant t > 0 ==> old(|returned| >= |filled|)
      {
        if done[cur] {
          n := Take(out, c);
          return true, n;
        }
        Interleave(c, c);
        Later(old(filled), filled, c);
      }
      return false, n;
    }

    /** Copies the current frame out, then clears the descriptor, moves on and hands it
        back, the hardware working on all the while. */
    method Take(out: array<byte>, ghost c: nat) returns (n: nat)
      requires Valid() && c == |returned| && out.Length == RXBUF && done[cur]
      modifies this, done, len, buf, out
      ensures Valid() && old(filled) <= filled && c < |filled| && n <= RXBUF && out[..n] == FrameOf(filled[c])
      ensures returned == old(returned) + [out[..n]]
    {
      hide Counts, Frames, FrameOf;
      Current(c);
      Interleave(c, c);
      Current(c);
      n := len[cur];
      if n > RXBUF {
        n := RXBUF;
      }
      n := Copy(out, n, c);
      MoveOn(c);
      FramesSnoc(filled, c);
      Later(old(filled), filled, c);
      returned := returned + [out[..n]];
    }

    /** Clears the status, moves on and hands the descriptor back. */
    method MoveOn(ghost c: nat)
      requires Counts(c, c) && cur == c % RXN && c < |filled|
      modifies this`rdh, this`rdt, this`cur, this`filled, this`script, done, len, buf
      ensures Counts(c + 1, c + 1) && old(filled) <= filled && cur == (c + 1) % RXN
    {
      hide Counts;
      NextSlot(c);
      var i := cur;
      Clear(c);
      Interleave(c, c + 1);
      cur := (i + 1) % RXN;
      Interleave(c, c + 1);
      HandBack(i, c);
    }

    lemma Current(c: nat)
      requires Counts(c, c) && cur == c % RXN
      ensures cur < RXN == done.Length == len.Length == buf.Length && (done[cur] <==> c < |filled|)
      ensures done[cur] ==> buf[cur] == filled[c].buf && len[cur] == filled[c].len
    {
    }

    /** The copy loop. The hardware cannot reach the descriptor that is being read. */
    method Copy(out: array<byte>, n: nat, ghost c: nat) returns (m: nat)
      requires Counts(c, c) && cur == c % RXN && c < |filled| && out.Length == RXBUF
      requires n == (if filled[c].len > RXBUF then RXBUF else filled[c].len)
      modifies this`rdh, this`filled, this`script, done, len, buf, out
      ensures Counts(c, c) && old(filled) <= filled && m == n && out[..n] == FrameOf(filled[c])
    {
      for k := 0 to n
        invariant Counts(c, c) && old(filled) <= filled && out[..k] == filled[c].buf[..k]
      {
        Current(c);
        out[k] := buf[cur][k];
        Interleave(c, c);
      }
      return n;
    }

    method Clear(ghost c: nat)
      requires Counts(c, c) && cur == c % RXN && c < |filled|
      modifies done
      ensures Counts(c, c + 1)
    {
      SlotsDiffer(c, c);
      ComesRound(c);
      done[cur] := false;
      forall k | c + 1 <= k < c + 1 + RXN ensures done[k % RXN] <==> k < |filled| {
        if k < c + RXN { assert old(done[k % RXN]) <==> k < |filled|; }
      }
    }

    static lemma ComesRound(c: nat)
      ensures (c + RXN) % RXN == c % RXN
    {
    }

    method HandBack(i: nat, ghost c: nat)
      requires Counts(c, c + 1) && i == c % RXN
      modifies this`rdt
      ensures Counts(c + 1, c + 1)
    {
      rdt := i;
      assert (c + 1 + RXN - 1) % RXN == c % RXN;
    }

    static lemma Later(a: seq<Fill>, b: seq<Fill>, c: nat)
      requires c <= |b|
      ensures a <= b && c <= |a| ==> a[..c] == b[..c]
    {
    }
  }
}
