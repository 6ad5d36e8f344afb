/** The segments of TcpNet as the frames that carry them. */
module SegFrames {
  import opened Bytes
  import opened Frames
  import opened TcpClient
  import opened TcpNet
  import opened Wrappers

  function FieldsOf(g: Seg): Fields { Fields(g.num, g.ack, g.flags, g.data) }

  /** The segment fits the fields of a header and the length of a frame. */
  predicate Fits(g: Seg) { FieldsOk(FieldsOf(g)) }

  /** The segment that tcp_wait finds in the receive buffer. */
  function SegIn(rx: Buffer, h: Heard): Seg
    requires h.off + h.len <= 2048
  {
    Seg(h.num, h.ack, h.flags, rx[h.off..h.off + h.len])
  }

  /** A receive buffer with `rl` bytes that is heard as segment `g` by the owner of `me` and `sport`. */
  predicate HeardAs(rx: Buffer, rl: nat, me: Addr, port: nat, sport: nat, g: Seg) {
    var s := IpAccept(rx, rl, 6, me);
    s.Some? && s.value.off <= 74 &&
    var h := TcpAccept(rx, s.value, port, sport);
    h.Some? && h.value.off + h.value.len <= 2048 && SegIn(rx, h.value) == g
  }

  /** A segment sent in a frame is heard as the same segment. */
  lemma SegIsHeard(rx: Buffer, to: Mac, from: Mac, id: nat, e: Ends, g: Seg, pad: nat, rest: seq<byte>)
    requires Fits(g) && EndsOk(e) && id < TWO16 && pad <= |rest|
    requires rx == Frame(to, from, id, e, FieldsOf(g)) + rest
    ensures HeardAs(rx, |Frame(to, from, id, e, FieldsOf(g))| + pad, e.dst, e.sport, e.dport, g)
  {
    hide IpAccept, TcpAccept, Frame;
    RoundTrip(rx, to, from, id, e, FieldsOf(g), pad, rest);
  }

  // ----- every segment of the client fits -----

  ghost predicate Fitting(c: Client) {
    && c.sndNxt < TWO32 && c.rcvNxt < TWO32
    && (forall j | 0 <= j < |c.net.c2p| :: Fits(c.net.c2p[j]))
    && (forall j | 0 <= j < |c.net.p2c| :: c.net.p2c[j].ack < TWO32)
  }

  lemma SentFits(c: Client, g: Seg)
    requires Fitting(c) && Fits(g)
    ensures Fitting(Sent(c, g))
  {
    hide Fits;
  }

  lemma {:induction false} WaitedFits(p: Peer, c: Client)
    requires Fitting(c)
    ensures var (g, c2) := Waited(p, c);
            Fitting(c2) && (g.Some? ==> g.value.ack < TWO32) && c2.sndNxt == c.sndNxt && c2.rcvNxt == c.rcvNxt
    decreases |c.script|
  {
    hide Fits, EnvStep;
    if c.script != [] {
      var e, rest := c.script[0], c.(script := c.script[1..]);
      if !e.Timeout? && !(e.Deliver? && e.j < |c.net.p2c|) {
        EnvFits(p, c.net, e);
        WaitedFits(p, rest.(net := EnvStep(p, c.net, e)));
      }
    }
  }

  lemma EnvFits(p: Peer, n: Net, e: Event)
    requires forall j | 0 <= j < |n.p2c| :: n.p2c[j].ack < TWO32
    ensures var n2 := EnvStep(p, n, e); n2.c2p == n.c2p && forall j | 0 <= j < |n2.p2c| :: n2.p2c[j].ack < TWO32
  {
    hide Add32, Sub32;
  }

  lemma {:induction false} ConnectedFits(p: Peer, c: Client, iss: nat, tries: nat)
    requires Fitting(c) && iss < TWO32
    ensures Fitting(Connected(p, c, iss, tries).1)
    decreases tries
  {
    hide Fitting, Waited, Answers, Add32;
    if tries > 0 {
      var syn := Seg(iss, 0, SYN, []);
      SentFits(c, syn);
      WaitedFits(p, Sent(c, syn));
      var (g, c1) := Waited(p, Sent(c, syn));
      NumbersFit(c1);
      if g.Some? && Answers(g.value, iss) {
        MovedFits(c1, c1.sndNxt, Add32(g.value.num, 1));
      } else {
        ConnectedFits(p, c1, iss, tries - 1);
      }
    }
  }

  lemma NumbersFit(c: Client)
    requires Fitting(c)
    ensures c.sndNxt < TWO32 && c.rcvNxt < TWO32
  {
  }

  /** Moving the counters and acknowledging. */
  lemma MovedFits(c: Client, snd: nat, rcv: nat)
    requires Fitting(c) && snd < TWO32 && rcv < TWO32
    ensures Fitting(Sent(c.(sndNxt := snd, rcvNxt := rcv), Seg(snd, rcv, ACK, [])))
  {
    hide Fits;
    AckFits(snd, rcv);
    SentFits(c.(sndNxt := snd, rcvNxt := rcv), Seg(snd, rcv, ACK, []));
  }

  lemma AckFits(snd: nat, rcv: nat)
    requires snd < TWO32 && rcv < TWO32
    ensures Fits(Seg(snd, rcv, ACK, []))
  {
  }

  lemma {:induction false} ChunkFits(p: Peer, c: Client, chunk: seq<byte>, tries: nat)
    requires Fitting(c) && |chunk| <= MSS
    ensures Fitting(SentChunk(p, c, chunk, tries).1)
    decreases tries
  {
    hide Fitting, Waited, TakenForAck, Add32;
    if tries > 0 {
      NumbersFit(c);
      var s := Seg(c.sndNxt, c.rcvNxt, PSH_ACK, chunk);
      SentFits(c, s);
      WaitedFits(p, Sent(c, s));
      var (g, c1) := Waited(p, Sent(c, s));
      NumbersFit(c1);
      if g.Some? && TakenForAck(c.sndNxt, |chunk|, g.value.ack) {
        var rcv := AckTaken(c1, g.value).rcvNxt;
        MovedFits(c1, g.value.ack, rcv);
      } else {
        ChunkFits(p, c1, chunk, tries - 1);
      }
    }
  }

  lemma {:induction false} AllFits(p: Peer, c: Client, data: seq<byte>, off: nat)
    requires Fitting(c)
    ensures Fitting(SentAll(p, c, data, off).1)
    decreases |data| - off
  {
    hide Fitting, SentChunk, Part;
    if off < |data| {
      ChunkFits(p, c, Part(data, off), 4);
      var (ok, c2) := SentChunk(p, c, Part(data, off), 4);
      if ok { AllFits(p, c2, data, off + PartSize(data, off)); }
    }
  }

  lemma {:induction false} RecvdFits(p: Peer, c: Client, cap: nat, budget: nat)
    requires Fitting(c)
    ensures Fitting(Recvd(p, c, cap, budget).2)
    decreases budget
  {
    hide Fitting, Waited, Has, Add32;
    if budget > 0 {
      WaitedFits(p, c);
      var (w, c1) := Waited(p, c);
      NumbersFit(c1);
      if w.None? {
        RecvdFits(p, c1, cap, budget - 1);
      } else {
        var g := w.value;
        MovedFits(c1, c1.sndNxt, Add32(c1.rcvNxt, 1));
        MovedFits(c1, c1.sndNxt, Add32(c1.rcvNxt, |g.data|));
        var c2 := TakenIn(c1, |g.data|);
        MovedFits(c2, c2.sndNxt, Add32(c2.rcvNxt, 1));
        MovedFits(c1, c1.sndNxt, c1.rcvNxt);
        if !Has(g.flags, RST) && (g.num != c1.rcvNxt || (g.data == [] && !Has(g.flags, FIN))) {
          RecvdFits(p, Sent(c1, Seg(c1.sndNxt, c1.rcvNxt, ACK, [])), cap, budget - 1);
        }
      }
    }
  }

  /** Connecting, sending and receiving send only segments that fit. */
  lemma StepsFit(p: Peer, c: Client, iss: nat, data: seq<byte>, cap: nat, budget: nat)
    requires Fitting(c) && iss < TWO32
    ensures Fitting(Connected(p, c, iss, 4).1) && Fitting(SentAll(p, c, data, 0).1)
    ensures Fitting(Recvd(p, c, cap, budget).2)
  {
    hide Fitting, Connected, SentAll, Recvd;
    ConnectedFits(p, c, iss, 4);
    AllFits(p, c, data, 0);
    RecvdFits(p, c, cap, budget);
  }
}
