/** The other side of a TCP connection: an honest peer, and a network that loses,
    repeats and reorders whatever either side sends. */
module TcpNet {
  import opened Bytes

  const SYN := 0x02
  const FIN := 0x01
  const RST := 0x04
  const ACK := 0x10
  const PSH_ACK := 0x18
  const MSS := 1460

  datatype Seg = Seg(num: nat, ack: nat, flags: byte, data: seq<byte>)

  predicate Has(flags: byte, bit: nat)
    requires bit > 0
  {
    (flags as int / bit) % 2 == 1
  }

  function Add32(a: nat, k: nat): (r: nat)
    ensures r < TWO32
  {
    (a + k) % TWO32
  }

  function Sub32(a: nat, b: nat): nat { (a - b) % TWO32 }

  /** What the peer sends in the whole connection, and its initial sequence number. */
  datatype Peer = Peer(out: seq<byte>, iss: nat)

  /** Everything ever sent in either direction, which the network may deliver at any time
      and any number of times, and the peer's receiving side: the client's initial
      sequence number and the bytes taken in. */
  datatype Net = Net(c2p: seq<Seg>, p2c: seq<Seg>, up: bool, irs: nat, got: seq<byte>)

  /** What can happen outside the client: the peer is delivered segment `j` and takes
      its new bytes up to the `m`-th; the peer sends bytes `i..i + n` of its stream, with
      or without its FIN; it answers the SYN; it resets the connection; segment `j` reaches
      the client; or the client's wait runs out. */
  datatype Event =
    | Take(j: nat, m: nat)
    | Say(i: nat, n: nat, fin: bool)
    | SynAck
    | Reset(num: nat)
    | Deliver(j: nat)
    | Timeout

  function Cumulative(n: Net): nat { Add32(n.irs, 1 + |n.got|) }

  /** A peer that acknowledges all it has taken and nothing else (RFC 9293, section 3.4). */
  function EnvStep(p: Peer, n: Net, e: Event): Net {
    match e
    case Take(j, m) =>
      if j >= |n.c2p| then n
      else
        var g := n.c2p[j];
        if g.flags == SYN then
          if n.up then n else n.(up := true, irs := g.num)
        else if !n.up then n
        else
          var off := Sub32(Cumulative(n), g.num);
          if off < m <= |g.data| then n.(got := n.got + g.data[off..m]) else n
    case Say(i, k, fin) =>
      if n.up && i + k <= |p.out| then
        var flags: byte := if fin && i + k == |p.out| then ACK + FIN else PSH_ACK;
        n.(p2c := n.p2c + [Seg(Add32(p.iss, 1 + i), Cumulative(n), flags, p.out[i..i + k])])
      else n
    case SynAck =>
      if n.up then n.(p2c := n.p2c + [Seg(p.iss, Cumulative(n), SYN + ACK, [])]) else n
    case Reset(s) => if n.up then n.(p2c := n.p2c + [Seg(s, Cumulative(n), RST + ACK, [])]) else n
    case Deliver(_) => n
    case Timeout => n
  }

  lemma AddAdd(a: nat, j: nat, k: nat)
    ensures Add32(Add32(a, j), k) == Add32(a, j + k)
  {
  }

  // ----- what stays true -----

  /** `n` bytes from offset `a` on. */
  function Piece(s: seq<byte>, a: nat, n: nat): seq<byte>
    requires a + n <= |s|
  {
    s[a..a + n]
  }

  /** A segment of the client: its SYN, or a piece of `sent` starting no later than
      where the peer is. */
  ghost predicate ClientSeg(g: Seg, base: nat, sent: seq<byte>, got: seq<byte>) {
    if g.flags == SYN then g.data == [] && Add32(g.num, 1) == base
    else
      && base <= g.num <= base + |got| && g.num - base + |g.data| <= |sent|
      && g.data == Piece(sent, g.num - base, |g.data|)
  }

  /** Position in the peer's stream that a sequence number stands for. */
  function OutPos(p: Peer, s: nat): nat { Sub32(s, p.iss + 1) }

  lemma OutPosIs(p: Peer, k: nat)
    requires k < TWO32
    ensures OutPos(p, Add32(p.iss, 1 + k)) == k
  {
  }

  /** A segment of the peer carries a piece of the stream, and a FIN only at its end. */
  ghost predicate PeerData(p: Peer, g: Seg) {
    if Has(g.flags, SYN) then g.data == [] && g.num == p.iss && !Has(g.flags, FIN)
    else if Has(g.flags, RST) then g.data == [] && !Has(g.flags, FIN)
    else
      var i := OutPos(p, g.num);
      && g.num < TWO32 && i + |g.data| <= |p.out| && g.data == Piece(p.out, i, |g.data|)
      && (Has(g.flags, FIN) ==> i + |g.data| == |p.out|)
  }

  /** And it acknowledges no more than was taken. */
  ghost predicate PeerSeg(p: Peer, g: Seg, base: nat, got: seq<byte>) {
    PeerData(p, g) && base <= g.ack <= base + |got|
  }

  /** `num` stands for position `pos` of the peer's stream. */
  predicate NextIs(p: Peer, pos: nat, num: nat) { num == Add32(p.iss, 1 + pos) }

  /** The peer took `base` for the number of the client's first byte. */
  predicate StartsAt(n: Net, base: nat) { Add32(n.irs, 1) == base }

  /** Apart from its SYN, the client acknowledges no more of the peer's stream than it has taken. */
  ghost predicate AckOk(p: Peer, g: Seg, pos: nat) { g.flags == SYN || OutPos(p, g.ack) <= pos }

  ghost predicate AcksOk(p: Peer, gs: seq<Seg>, pos: nat) { forall j | 0 <= j < |gs| :: AckOk(p, gs[j], pos) }

  lemma NextAckOk(p: Peer, gs: seq<Seg>, pos: nat, pos2: nat, g: Seg)
    requires AcksOk(p, gs, pos) && pos <= pos2 < TWO32 && NextIs(p, pos2, g.ack)
    ensures AcksOk(p, gs, pos2) && AckOk(p, g, pos2)
  {
    OutPosIs(p, pos2);
    hide OutPos, Add32;
    forall j | 0 <= j < |gs| ensures AckOk(p, gs[j], pos2) {
      assert AckOk(p, gs[j], pos);
    }
  }

  /** What the peer has sent, whatever the client does. */
  ghost predicate NetIn(p: Peer, n: Net) {
    && p.iss < TWO32 && |p.out| + 1 < TWO32 && (n.up || n.p2c == [])
    && forall j | 0 <= j < |n.p2c| :: PeerData(p, n.p2c[j])
  }

  /** What can be outstanding, given that the client committed to `sent` so far. */
  ghost predicate NetOk(p: Peer, n: Net, base: nat, sent: seq<byte>) {
    && NetIn(p, n) && base + |sent| < TWO32
    && n.got <= sent
    && (forall j | 0 <= j < |n.c2p| :: ClientSeg(n.c2p[j], base, sent, n.got))
    && (forall j | 0 <= j < |n.p2c| :: PeerSeg(p, n.p2c[j], base, n.got))
    && (if n.up then StartsAt(n, base) else n.got == [])
  }

  lemma PrefixSlice(got: seq<byte>, sent: seq<byte>, d: seq<byte>, a: nat, m: nat)
    requires got <= sent && a <= |got| <= a + m && m <= |d| && a + |d| <= |sent| && d == sent[a..a + |d|]
    ensures got + d[|got| - a..m] == sent[..a + m]
  {
    var x, y := got + d[|got| - a..m], sent[..a + m];
    forall i | 0 <= i < a + m ensures x[i] == y[i] {
      if i >= |got| { assert d[i - a] == sent[a..a + |d|][i - a]; }
    }
  }

  /** Plain arithmetic stands for 32-bit arithmetic where nothing wraps. */
  lemma OffsetIs(irs: nat, base: nat, k: nat, s: nat)
    requires Add32(irs, 1) == base && base + k < TWO32 && base <= s <= base + k
    ensures Sub32(Add32(irs, 1 + k), s) == base + k - s && Add32(irs, 1 + k) == base + k
  {
  }

  lemma TakeStep(p: Peer, n: Net, base: nat, sent: seq<byte>, j: nat, m: nat)
    requires NetOk(p, n, base, sent) && j < |n.c2p| && n.up && n.c2p[j].flags != SYN
    ensures var n2 := EnvStep(p, n, Take(j, m)); n.got <= n2.got <= sent
  {
    var g := n.c2p[j];
    assert ClientSeg(g, base, sent, n.got);
    OffsetIs(n.irs, base, |n.got|, g.num);
    var off, a := base + |n.got| - g.num, g.num - base;
    if off < m <= |g.data| {
      PrefixSlice(n.got, sent, g.data, a, m);
    }
  }

  lemma SayStep(p: Peer, n: Net, base: nat, i: nat, k: nat, fin: bool)
    requires p.iss < TWO32 && |p.out| + 1 < TWO32 && base + |n.got| < TWO32
    requires n.up && Add32(n.irs, 1) == base && i + k <= |p.out|
    ensures var flags: byte := if fin && i + k == |p.out| then ACK + FIN else PSH_ACK;
            PeerSeg(p, Seg(Add32(p.iss, 1 + i), Cumulative(n), flags, p.out[i..i + k]), base, n.got)
  {
    OffsetIs(n.irs, base, |n.got|, base);
    assert OutPos(p, Add32(p.iss, 1 + i)) == i;
  }

  /** The peer's side of it does not depend on what the client does. */
  lemma EnvKeepsIn(p: Peer, n: Net, e: Event)
    requires NetIn(p, n)
    ensures var n2 := EnvStep(p, n, e);
            NetIn(p, n2) && n.got <= n2.got && n2.c2p == n.c2p && (n.up ==> n2.up)
  {
    if e.Say? && n.up && e.i + e.n <= |p.out| {
      assert OutPos(p, Add32(p.iss, 1 + e.i)) == e.i;
    }
  }

  /** Whatever happens outside the client, the peer's bytes stay a prefix of what was
      sent, and only grow. */
  lemma EnvKeeps(p: Peer, n: Net, base: nat, sent: seq<byte>, e: Event)
    requires NetOk(p, n, base, sent)
    ensures var n2 := EnvStep(p, n, e);
            NetOk(p, n2, base, sent) && n.got <= n2.got && n2.c2p == n.c2p && (n.up ==> n2.up)
  {
    var n2 := EnvStep(p, n, e);
    match e
    case Take(j, m) =>
      if j < |n.c2p| {
        assert ClientSeg(n.c2p[j], base, sent, n.got);
        if n.up && n.c2p[j].flags != SYN { TakeStep(p, n, base, sent, j, m); }
      }
      hide EnvStep;
      GotGrew(p, n, n2.got, base, sent);
    case Say(i, k, fin) =>
      if n.up && i + k <= |p.out| { SayStep(p, n, base, i, k, fin); }
    case SynAck =>
      if n.up { OffsetIs(n.irs, base, |n.got|, base); }
    case Reset(_) =>
      if n.up { OffsetIs(n.irs, base, |n.got|, base); }
    case Deliver(_) =>
    case Timeout =>
  }

  function EnvRun(p: Peer, n: Net, es: seq<Event>): Net {
    if es == [] then n else EnvStep(p, EnvRun(p, n, es[..|es| - 1]), es[|es| - 1])
  }

  /** However long the network goes on delivering old segments, also after the client has
      given up, the peer never holds anything but a prefix of what was sent. */
  lemma {:induction false} EnvRunKeeps(p: Peer, n: Net, base: nat, sent: seq<byte>, es: seq<Event>)
    requires NetOk(p, n, base, sent)
    ensures var n2 := EnvRun(p, n, es); NetOk(p, n2, base, sent) && n.got <= n2.got <= sent
  {
    if es != [] {
      var k := |es| - 1;
      EnvRunKeeps(p, n, base, sent, es[..k]);
      EnvKeeps(p, EnvRun(p, n, es[..k]), base, sent, es[k]);
    }
  }

  lemma GotGrew(p: Peer, n: Net, got: seq<byte>, base: nat, sent: seq<byte>)
    requires NetOk(p, n, base, sent) && n.got <= got <= sent
    ensures forall j | 0 <= j < |n.c2p| :: ClientSeg(n.c2p[j], base, sent, got)
    ensures forall j | 0 <= j < |n.p2c| :: PeerSeg(p, n.p2c[j], base, got)
  {
    forall j | 0 <= j < |n.p2c| ensures PeerSeg(p, n.p2c[j], base, got) {
      assert PeerSeg(p, n.p2c[j], base, n.got);
    }
  }

  /** Committing to more bytes. */
  lemma SentGrew(p: Peer, n: Net, base: nat, sent: seq<byte>, more: seq<byte>)
    requires NetOk(p, n, base, sent) && base + |sent| + |more| < TWO32
    ensures NetOk(p, n, base, sent + more)
  {
    hide ClientSeg, PeerSeg;
    forall j | 0 <= j < |n.c2p| ensures ClientSeg(n.c2p[j], base, sent + more, n.got) {
      ClientSegGrew(n.c2p[j], base, sent, more, n.got);
    }
  }

  lemma ClientSegGrew(g: Seg, base: nat, sent: seq<byte>, more: seq<byte>, got: seq<byte>)
    requires ClientSeg(g, base, sent, got)
    ensures ClientSeg(g, base, sent + more, got)
  {
    if g.flags != SYN {
      var a := g.num - base;
      assert (sent + more)[a..a + |g.data|] == sent[a..a + |g.data|];
    }
  }

  lemma NothingSent(p: Peer, base: nat)
    requires p.iss < TWO32 && |p.out| + 1 < TWO32 && base < TWO32
    ensures NetIn(p, Net([], [], false, 0, [])) && NetOk(p, Net([], [], false, 0, []), base, [])
  {
  }

  /** The client sending a segment. */
  lemma ClientSent(p: Peer, n: Net, base: nat, sent: seq<byte>, g: Seg)
    requires NetOk(p, n, base, sent) && ClientSeg(g, base, sent, n.got)
    ensures NetOk(p, n.(c2p := n.c2p + [g]), base, sent)
  {
  }

  lemma ClientSentIn(p: Peer, n: Net, g: Seg)
    requires NetIn(p, n)
    ensures NetIn(p, n.(c2p := n.c2p + [g]))
  {
  }

  // ----- the acknowledgment test of tcp_send -----

  /** What tcp_send takes for an acknowledgment of its chunk, in 32-bit arithmetic. */
  predicate TakenForAck(sndNxt: nat, chunk: nat, ack: nat) { ack >= Add32(sndNxt, chunk) }

  /** Being a plain comparison, the test tells a full acknowledgment from an older one
      exactly as long as the sequence numbers have not wrapped: past that point, an old
      acknowledgment still under way counts for a chunk that nobody received. */
  lemma AckTestSoundIff(base: nat, pos: nat, chunk: nat)
    requires base < TWO32 && chunk > 0 && pos + chunk < TWO32
    ensures (forall k | 0 <= k <= pos + chunk && TakenForAck(Add32(base, pos), chunk, Add32(base, k)) ::
            k == pos + chunk)
            <==> base + pos + chunk < TWO32
  {
    if base + pos + chunk < TWO32 {
      forall k | 0 <= k <= pos + chunk && TakenForAck(Add32(base, pos), chunk, Add32(base, k))
        ensures k == pos + chunk
      {
      }
    } else {
      var k := if base + pos < TWO32 then pos else 0;
      assert TakenForAck(Add32(base, pos), chunk, Add32(base, k));
    }
  }
}
