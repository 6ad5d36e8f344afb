/** The stop-and-wait TCP client as functions of its counters and of what happens outside, and
    what its steps keep. */
module TcpClient {
  import opened Bytes
  import opened TcpNet
  import opened Wrappers

  /** The client's counters, and everything outside it: the network and what is going to happen. */
  datatype Client = Client(net: Net, script: seq<Event>, sndNxt: nat, rcvNxt: nat)

  // ----- the steps -----

  /** tcp_tx: the segment is sent and may or may not arrive, now or later. */
  function Sent(c: Client, g: Seg): Client { c.(net := c.net.(c2p := c.net.c2p + [g])) }

  /** tcp_wait: things happen until a segment reaches the client or time runs out. */
  function Waited(p: Peer, c: Client): (Option<Seg>, Client)
    decreases |c.script|
  {
    if c.script == [] then (None, c)
    else
      var e, rest := c.script[0], c.(script := c.script[1..]);
      if e.Timeout? then (None, rest)
      else if e.Deliver? && e.j < |c.net.p2c| then (Some(c.net.p2c[e.j]), rest)
      else Waited(p, rest.(net := EnvStep(p, c.net, e)))
  }

  /** The answer to this SYN. */
  predicate Answers(g: Seg, iss: nat) {
    Has(g.flags, SYN) && Has(g.flags, ACK) && g.ack == Add32(iss, 1)
  }

  function AnswerTaken(c: Client, g: Seg): Client {
    var rcv := Add32(g.num, 1);
    Sent(c.(rcvNxt := rcv), Seg(c.sndNxt, rcv, ACK, []))
  }

  function TriedSyn(p: Peer, c: Client, iss: nat): (bool, Client) {
    var (g, c1) := Waited(p, Sent(c, Seg(iss, 0, SYN, [])));
    if g.Some? && Answers(g.value, iss) then (true, AnswerTaken(c1, g.value)) else (false, c1)
  }

  /** tcp_connect's loop. */
  function Connected(p: Peer, c: Client, iss: nat, tries: nat): (bool, Client)
    decreases tries
  {
    if tries == 0 then (false, c)
    else
      var (ok, c2) := TriedSyn(p, c, iss);
      if ok then (true, c2) else Connected(p, c2, iss, tries - 1)
  }

  /** What an acknowledgment does: data that came along in order is swallowed. */
  function AckTaken(c: Client, g: Seg): Client {
    var rcv := if g.data != [] && g.num == c.rcvNxt then Add32(c.rcvNxt, |g.data|) else c.rcvNxt;
    Sent(c.(sndNxt := g.ack, rcvNxt := rcv), Seg(g.ack, rcv, ACK, []))
  }

  /** The chunk is taken for delivered when an acknowledgment passes the plain comparison. */
  function TriedChunk(p: Peer, c: Client, chunk: seq<byte>): (bool, Client) {
    var (g, c1) := Waited(p, Sent(c, Seg(c.sndNxt, c.rcvNxt, PSH_ACK, chunk)));
    if g.Some? && TakenForAck(c.sndNxt, |chunk|, g.value.ack) then (true, AckTaken(c1, g.value)) else (false, c1)
  }

  function SentChunk(p: Peer, c: Client, chunk: seq<byte>, tries: nat): (bool, Client)
    decreases tries
  {
    if tries == 0 then (false, c)
    else
      var (ok, c2) := TriedChunk(p, c, chunk);
      if ok then (true, c2) else SentChunk(p, c2, chunk, tries - 1)
  }

  /** A segment's worth of data, or what is left. */
  function PartSize(data: seq<byte>, off: nat): (n: nat)
    requires off < |data|
    ensures 0 < n <= MSS && off + n <= |data| && (off + n == |data| || n == MSS)
  {
    Min(MSS, |data| - off)
  }

  function Part(data: seq<byte>, off: nat): (c: seq<byte>)
    requires off < |data|
    ensures |c| == PartSize(data, off)
  {
    Piece(data, off, PartSize(data, off))
  }

  /** tcp_send's loop, from offset `off` on. */
  function SentAll(p: Peer, c: Client, data: seq<byte>, off: nat): (bool, Client)
    decreases |data| - off
  {
    if off >= |data| then (true, c)
    else
      var (ok, c2) := SentChunk(p, c, Part(data, off), 4);
      if ok then SentAll(p, c2, data, off + PartSize(data, off)) else (false, c2)
  }

  /** Moving on in the peer's stream, and saying so. */
  function TakenIn(c: Client, n: nat): Client {
    var rcv := Add32(c.rcvNxt, n);
    Sent(c.(rcvNxt := rcv), Seg(c.sndNxt, rcv, ACK, []))
  }

  /** Taking the next data, and a FIN that came along. */
  function DataTaken(c: Client, g: Seg): Client {
    var c2 := TakenIn(c, |g.data|);
    if Has(g.flags, FIN) then TakenIn(c2, 1) else c2
  }

  /** tcp_recv's loop, with so many waits left before its deadline. */
  function Recvd(p: Peer, c: Client, cap: nat, budget: nat): (int, seq<byte>, Client)
    decreases budget
  {
    if budget == 0 then (-1, [], c)
    else
      var (w, c1) := Waited(p, c);
      if w.None? then Recvd(p, c1, cap, budget - 1)
      else
        var g := w.value;
        if Has(g.flags, RST) then (-1, [], c1)
        else if g.num == c1.rcvNxt && g.data != [] then
          var n := Min(|g.data|, cap);
          (n, g.data[..n], DataTaken(c1, g))
        else if Has(g.flags, FIN) && g.num == c1.rcvNxt then (0, [], TakenIn(c1, 1))
        else Recvd(p, Sent(c1, Seg(c1.sndNxt, c1.rcvNxt, ACK, [])), cap, budget - 1)
  }

  // ----- what they keep -----

  /** The client stands at position `pos` of the peer's stream, one past its end once the FIN is
      taken, and has acknowledged no more than that. */
  ghost predicate Hears(p: Peer, c: Client, pos: nat) {
    NetIn(p, c.net) && pos <= |p.out| + 1 && AcksOk(p, c.net.c2p, pos) && c.net.up && NextIs(p, pos, c.rcvNxt)
  }

  /** A segment with these bytes is out there. */
  ghost predicate Pending(gs: seq<Seg>, num: nat, pend: seq<byte>) {
    pend == [] || (|pend| <= MSS && exists j :: 0 <= j < |gs| && IsPending(gs[j], num, pend))
  }

  predicate IsPending(g: Seg, num: nat, pend: seq<byte>) {
    g.num == num && g.flags == PSH_ACK && g.data == pend
  }

  /** The client knows `done` to be delivered; `pend` is what it sent last and gave up on, if
      anything. The peer holds `done` and maybe some of `pend`. */
  ghost predicate InStep(p: Peer, c: Client, base: nat, done: seq<byte>, pend: seq<byte>) {
    && NetOk(p, c.net, base, done + pend) && c.net.up && |done| <= |c.net.got|
    && c.sndNxt == base + |done| && Pending(c.net.c2p, c.sndNxt, pend)
  }

  /** The last segment sent acknowledges everything taken so far. */
  ghost predicate Acknowledged(c: Client) {
    c.net.c2p != [] && c.net.c2p[|c.net.c2p| - 1] == Seg(c.sndNxt, c.rcvNxt, ACK, [])
  }

  /** Waiting changes nothing but what the peer has sent and taken. */
  ghost predicate OnlyOutside(a: Client, b: Client) {
    && b.sndNxt == a.sndNxt && b.rcvNxt == a.rcvNxt && b.net.c2p == a.net.c2p
    && a.net.got <= b.net.got && (a.net.up ==> b.net.up)
  }

  lemma {:induction false} WaitedIn(p: Peer, c: Client)
    requires NetIn(p, c.net)
    ensures var (g, c2) := Waited(p, c);
            && NetIn(p, c2.net) && OnlyOutside(c, c2) && (g.Some? ==> PeerData(p, g.value) && c2.net.up)
    decreases |c.script|
  {
    hide NetIn, PeerData, EnvStep;
    if c.script != [] {
      var e, rest := c.script[0], c.(script := c.script[1..]);
      if e.Deliver? && e.j < |c.net.p2c| {
        ArrivesIn(p, c.net, e.j);
      } else if !e.Timeout? {
        EnvKeepsIn(p, c.net, e);
        WaitedIn(p, rest.(net := EnvStep(p, c.net, e)));
      }
    }
  }

  lemma ArrivesIn(p: Peer, n: Net, j: nat)
    requires NetIn(p, n) && j < |n.p2c|
    ensures PeerData(p, n.p2c[j]) && n.up
  {
  }

  lemma {:induction false} WaitedOk(p: Peer, c: Client, base: nat, sent: seq<byte>)
    requires NetOk(p, c.net, base, sent)
    ensures var (g, c2) := Waited(p, c);
            && NetOk(p, c2.net, base, sent) && OnlyOutside(c, c2) && (g.Some? ==> PeerSeg(p, g.value, base, c2.net.got))
    decreases |c.script|
  {
    hide NetOk, PeerSeg, EnvStep;
    if c.script != [] {
      var e, rest := c.script[0], c.(script := c.script[1..]);
      if e.Deliver? && e.j < |c.net.p2c| {
        ArrivesOk(p, c.net, base, sent, e.j);
      } else if !e.Timeout? {
        EnvKeeps(p, c.net, base, sent, e);
        WaitedOk(p, rest.(net := EnvStep(p, c.net, e)), base, sent);
      }
    }
  }

  lemma ArrivesOk(p: Peer, n: Net, base: nat, sent: seq<byte>, j: nat)
    requires NetOk(p, n, base, sent) && j < |n.p2c|
    ensures PeerSeg(p, n.p2c[j], base, n.got)
  {
  }

  // ----- hearing -----

  /** Sending a segment that acknowledges just what was taken. */
  lemma SentHears(p: Peer, c: Client, pos: nat, g: Seg)
    requires Hears(p, c, pos) && NextIs(p, pos, g.ack)
    ensures Hears(p, Sent(c, g), pos)
  {
    hide NextIs;
    NextAckOk(p, c.net.c2p, pos, pos, g);
    hide NetIn, AckOk;
    ClientSentIn(p, c.net, g);
  }

  lemma WaitedHears(p: Peer, c: Client, pos: nat)
    requires Hears(p, c, pos)
    ensures var (g, c2) := Waited(p, c);
            Hears(p, c2, pos) && OnlyOutside(c, c2) && (g.Some? ==> PeerData(p, g.value))
  {
    hide NetIn, NextIs, PeerData, AcksOk, Waited;
    WaitedIn(p, c);
  }

  /** Moving on by `n` to a position the next number stands for. */
  lemma TakenInHears(p: Peer, c: Client, pos: nat, n: nat)
    requires Hears(p, c, pos) && pos + n <= |p.out| + 1
    ensures Hears(p, TakenIn(c, n), pos + n) && Acknowledged(TakenIn(c, n)) && TakenIn(c, n).net.got == c.net.got
  {
    var g := Seg(c.sndNxt, Add32(c.rcvNxt, n), ACK, []);
    NextMoves(p, pos, c.rcvNxt, n);
    OutIsShort(p, c);
    hide NetIn, NextIs, Add32, AckOk;
    NextAckOk(p, c.net.c2p, pos, pos + n, g);
    ClientSentIn(p, c.net, g);
  }

  lemma NextMoves(p: Peer, pos: nat, num: nat, n: nat)
    requires NextIs(p, pos, num)
    ensures NextIs(p, pos + n, Add32(num, n))
  {
    AddAdd(p.iss, 1 + pos, n);
    hide Add32;
  }

  lemma OutIsShort(p: Peer, c: Client)
    requires NetIn(p, c.net)
    ensures |p.out| + 1 < TWO32
  {
  }

  /** A segment with the expected number carries the next piece of the stream, and a FIN only at its end. */
  lemma InOrder(p: Peer, c: Client, pos: nat, g: Seg)
    requires Hears(p, c, pos) && PeerData(p, g) && g.num == c.rcvNxt && (g.data != [] || Has(g.flags, FIN))
    ensures pos + |g.data| <= |p.out| && g.data == Piece(p.out, pos, |g.data|)
    ensures Has(g.flags, FIN) ==> pos + |g.data| == |p.out|
  {
    OutPosIs(p, pos);
    hide OutPos, Add32, Piece;
  }

  lemma AckTakenHears(p: Peer, c: Client, pos: nat, g: Seg) returns (pos2: nat)
    requires Hears(p, c, pos) && PeerData(p, g)
    ensures pos <= pos2 && (pos2 != pos ==> pos2 <= |p.out|) && Hears(p, AckTaken(c, g), pos2)
    ensures pos2 == pos + if g.num == c.rcvNxt then |g.data| else 0
    ensures Acknowledged(AckTaken(c, g)) && AckTaken(c, g).net.got == c.net.got
  {
    var c1 := c.(sndNxt := g.ack);
    pos2 := if g.data != [] && g.num == c.rcvNxt then pos + |g.data| else pos;
    assert Hears(p, c1, pos);
    hide NetIn, NextIs, PeerData, Add32, AcksOk;
    if g.data != [] && g.num == c.rcvNxt {
      InOrder(p, c, pos, g);
      TakenInHears(p, c1, pos, |g.data|);
    } else {
      StillNext(p, c, pos);
      SentHears(p, c1, pos, Seg(g.ack, c.rcvNxt, ACK, []));
    }
  }

  lemma StillNext(p: Peer, c: Client, pos: nat)
    requires Hears(p, c, pos)
    ensures NextIs(p, pos, c.rcvNxt)
  {
  }

  lemma TriedHears(p: Peer, c: Client, pos: nat, chunk: seq<byte>) returns (pos2: nat)
    requires Hears(p, c, pos)
    ensures var (ok, c2) := TriedChunk(p, c, chunk);
            && pos <= pos2 && (pos2 != pos ==> pos2 <= |p.out|) && Hears(p, c2, pos2)
            && c.net.got <= c2.net.got && (ok ==> Acknowledged(c2))
  {
    hide Hears, PeerData, Waited, AckTaken, Acknowledged;
    StillNext(p, c, pos);
    var g := Seg(c.sndNxt, c.rcvNxt, PSH_ACK, chunk);
    SentHears(p, c, pos, g);
    WaitedHears(p, Sent(c, g), pos);
    var (a, c1) := Waited(p, Sent(c, g));
    pos2 := pos;
    if a.Some? && TakenForAck(c.sndNxt, |chunk|, a.value.ack) {
      pos2 := AckTakenHears(p, c1, pos, a.value);
    }
  }

  lemma {:induction false} ChunkHears(p: Peer, c: Client, pos: nat, chunk: seq<byte>, tries: nat) returns (pos2: nat)
    requires Hears(p, c, pos)
    ensures var (ok, c2) := SentChunk(p, c, chunk, tries);
            && pos <= pos2 && (pos2 != pos ==> pos2 <= |p.out|) && Hears(p, c2, pos2)
            && c.net.got <= c2.net.got && (ok ==> Acknowledged(c2))
    decreases tries
  {
    hide Hears, TriedChunk, Acknowledged;
    pos2 := pos;
    if tries > 0 {
      pos2 := TriedHears(p, c, pos, chunk);
      var (ok, c2) := TriedChunk(p, c, chunk);
      if !ok { pos2 := ChunkHears(p, c2, pos2, chunk, tries - 1); }
    }
  }

  /** Whatever tcp_send does to the sending side, receiving stays right. */
  lemma {:induction false} AllHears(p: Peer, c: Client, pos: nat, data: seq<byte>, off: nat) returns (pos2: nat)
    requires Hears(p, c, pos)
    ensures var (ok, c2) := SentAll(p, c, data, off);
            && pos <= pos2 && (pos2 != pos ==> pos2 <= |p.out|) && Hears(p, c2, pos2)
            && c.net.got <= c2.net.got && (ok && off < |data| ==> Acknowledged(c2))
    decreases |data| - off
  {
    hide Hears, SentChunk, Acknowledged, Part;
    pos2 := pos;
    if off < |data| {
      pos2 := ChunkHears(p, c, pos, Part(data, off), 4);
      var (ok, c2) := SentChunk(p, c, Part(data, off), 4);
      if ok { pos2 := AllHears(p, c2, pos2, data, off + PartSize(data, off)); }
    }
  }

  // ----- sending -----

  /** The client is about to send `chunk`, everything before it being delivered. */
  ghost predicate Sending(p: Peer, c: Client, base: nat, done: seq<byte>, chunk: seq<byte>) {
    && NetOk(p, c.net, base, done + chunk) && c.net.up && |done| <= |c.net.got|
    && c.sndNxt == base + |done| && 0 < |chunk| <= MSS
  }

  /** Sending again what is outstanding, or data that begins with it, changes nothing that was said. */
  lemma Resumes(p: Peer, c: Client, base: nat, done: seq<byte>, pend: seq<byte>, chunk: seq<byte>)
    requires InStep(p, c, base, done, pend) && pend <= chunk && 0 < |chunk| <= MSS && base + |done| + |chunk| < TWO32
    ensures Sending(p, c, base, done, chunk)
  {
    hide NetOk, Pending;
    var more := chunk[|pend|..];
    assert done + chunk == (done + pend) + more;
    SentGrew(p, c.net, base, done + pend, more);
  }

  lemma ChunkIsOk(p: Peer, c: Client, base: nat, done: seq<byte>, chunk: seq<byte>)
    requires Sending(p, c, base, done, chunk)
    ensures ClientSeg(Seg(c.sndNxt, c.rcvNxt, PSH_ACK, chunk), base, done + chunk, c.net.got)
  {
    assert Piece(done + chunk, |done|, |chunk|) == chunk;
    hide NetIn, PeerSeg, ClientSeg;
    assert c.net.got <= done + chunk && base + |done + chunk| < TWO32;
    SegIsOk(Seg(c.sndNxt, c.rcvNxt, PSH_ACK, chunk), base, done + chunk, c.net.got);
  }

  lemma SegIsOk(g: Seg, base: nat, sent: seq<byte>, got: seq<byte>)
    requires g.flags != SYN && base <= g.num <= base + |got| && g.num - base + |g.data| <= |sent|
    requires Piece(sent, g.num - base, |g.data|) == g.data
    ensures ClientSeg(g, base, sent, got)
  {
  }

  /** With no wrap, an acknowledgment that passes the test covers the whole chunk. */
  lemma AckIsFull(p: Peer, c: Client, base: nat, done: seq<byte>, chunk: seq<byte>, g: Seg)
    requires Sending(p, c, base, done, chunk) && PeerSeg(p, g, base, c.net.got)
    requires TakenForAck(c.sndNxt, |chunk|, g.ack)
    ensures g.ack == base + |done + chunk| && c.net.got == done + chunk
  {
  }

  lemma EmptyIsOk(num: nat, rcv: nat, base: nat, sent: seq<byte>, got: seq<byte>)
    requires num == base + |got| && got <= sent
    ensures ClientSeg(Seg(num, rcv, ACK, []), base, sent, got)
  {
  }

  lemma AckTakenKeeps(p: Peer, c: Client, base: nat, done: seq<byte>, chunk: seq<byte>, g: Seg)
    requires Sending(p, c, base, done, chunk) && PeerSeg(p, g, base, c.net.got)
    requires TakenForAck(c.sndNxt, |chunk|, g.ack)
    ensures InStep(p, AckTaken(c, g), base, done + chunk, []) && AckTaken(c, g).net.got == done + chunk
  {
    hide NetOk, PeerSeg, ClientSeg, Add32, TakenForAck;
    AckIsFull(p, c, base, done, chunk, g);
    var rcv := AckTaken(c, g).rcvNxt;
    EmptyIsOk(g.ack, rcv, base, done + chunk, c.net.got);
    ClientSent(p, c.net, base, done + chunk, Seg(g.ack, rcv, ACK, []));
    assert done + chunk + [] == done + chunk;
  }

  /** One try: it ends with the chunk delivered, or with the chunk out there. */
  lemma TriedKeeps(p: Peer, c: Client, base: nat, done: seq<byte>, chunk: seq<byte>)
    requires Sending(p, c, base, done, chunk)
    ensures var (ok, c2) := TriedChunk(p, c, chunk);
            if ok then InStep(p, c2, base, done + chunk, []) && c2.net.got == done + chunk
            else InStep(p, c2, base, done, chunk) && Sending(p, c2, base, done, chunk)
  {
    hide NetOk, PeerSeg, ClientSeg, Waited, AckTaken, TakenForAck;
    var g := Seg(c.sndNxt, c.rcvNxt, PSH_ACK, chunk);
    ChunkIsOk(p, c, base, done, chunk);
    ClientSent(p, c.net, base, done + chunk, g);
    WaitedOk(p, Sent(c, g), base, done + chunk);
    var (a, c1) := Waited(p, Sent(c, g));
    assert c1.net.c2p[|c.net.c2p|] == g && IsPending(g, c.sndNxt, chunk);
    if a.Some? && TakenForAck(c.sndNxt, |chunk|, a.value.ack) {
      AckTakenKeeps(p, c1, base, done, chunk, a.value);
    }
  }

  lemma {:induction false} ChunkKeeps(p: Peer, c: Client, base: nat, done: seq<byte>, chunk: seq<byte>, tries: nat)
    requires Sending(p, c, base, done, chunk) && tries > 0
    ensures var (ok, c2) := SentChunk(p, c, chunk, tries);
            if ok then InStep(p, c2, base, done + chunk, []) && c2.net.got == done + chunk
            else InStep(p, c2, base, done, chunk)
    decreases tries
  {
    hide Sending, InStep, TriedChunk;
    TriedKeeps(p, c, base, done, chunk);
    var (ok, c2) := TriedChunk(p, c, chunk);
    if !ok && tries > 1 { ChunkKeeps(p, c2, base, done, chunk, tries - 1); }
  }

  /** The bytes outstanding are the beginning of what is sent next, and no number wraps. */
  predicate Ready(base: nat, done: seq<byte>, pend: seq<byte>, data: seq<byte>) {
    data == [] || (pend <= data && base + |done| + |data| < TWO32)
  }

  /** After `before` comes `data`; its first `off` bytes are delivered already. */
  predicate SoFar(before: seq<byte>, data: seq<byte>, off: nat, done: seq<byte>) {
    off <= |data| && done == before + data[..off]
  }

  lemma FarMore(before: seq<byte>, data: seq<byte>, off: nat, done: seq<byte>)
    requires SoFar(before, data, off, done) && off < |data|
    ensures var n := PartSize(data, off);
            SoFar(before, data, off + n, done + Part(data, off)) && done + Part(data, off) <= before + data
    ensures |done| == |before| + off
  {
    var n := PartSize(data, off);
    assert data[..off + n] == data[..off] + data[off..off + n];
    assert before + data == before + data[..off + n] + data[off + n..];
  }

  lemma FarAll(before: seq<byte>, data: seq<byte>, done: seq<byte>)
    requires SoFar(before, data, |data|, done)
    ensures done == before + data
  {
  }

  lemma FirstPart(pend: seq<byte>, data: seq<byte>)
    requires pend <= data && |pend| <= MSS && data != []
    ensures pend <= Part(data, 0)
  {
  }

  lemma PendingIsShort(p: Peer, c: Client, base: nat, done: seq<byte>, pend: seq<byte>)
    requires InStep(p, c, base, done, pend)
    ensures |pend| <= MSS
  {
  }

  /** tcp_send from a client that is ready for the data: success means the peer holds exactly
      what was delivered before and then the data; in any case it holds a beginning of that, and the
      client stays in step. */
  lemma {:induction false} AllKeeps(p: Peer, c: Client, base: nat, done: seq<byte>, pend: seq<byte>,
                                    before: seq<byte>, data: seq<byte>, off: nat)
    returns (done2: seq<byte>, pend2: seq<byte>)
    requires InStep(p, c, base, done, pend) && SoFar(before, data, off, done) && off < |data|
    requires base + |before| + |data| < TWO32 && (if off == 0 then pend <= data else pend == [])
    ensures var (ok, c2) := SentAll(p, c, data, off);
            && InStep(p, c2, base, done2, pend2) && done <= done2 && done2 + pend2 <= before + data
            && (ok ==> done2 == c2.net.got == before + data && pend2 == [])
    decreases |data| - off
  {
    hide InStep, Sending, SoFar, Part, SentChunk;
    var n, chunk := PartSize(data, off), Part(data, off);
    PendingIsShort(p, c, base, done, pend);
    if off == 0 { FirstPart(pend, data); }
    FarMore(before, data, off, done);
    Resumes(p, c, base, done, pend, chunk);
    ChunkKeeps(p, c, base, done, chunk, 4);
    var (ok, c2) := SentChunk(p, c, chunk, 4);
    if !ok {
      done2, pend2 := done, chunk;
    } else if off + n < |data| {
      done2, pend2 := AllKeeps(p, c2, base, done + chunk, [], before, data, off + n);
    } else {
      done2, pend2 := done + chunk, [];
      FarAll(before, data, done2);
    }
  }

  // ----- connecting -----

  lemma SynKeeps(p: Peer, c: Client, iss: nat)
    requires NetOk(p, c.net, c.sndNxt, []) && c.net.got == [] && c.sndNxt == Add32(iss, 1) && AcksOk(p, c.net.c2p, 0)
    ensures var (ok, c2) := TriedSyn(p, c, iss);
            && NetOk(p, c2.net, c.sndNxt, []) && c2.net.got == [] && c2.sndNxt == c.sndNxt && AcksOk(p, c2.net.c2p, 0)
            && (ok ==> InStep(p, c2, c.sndNxt, [], []) && Hears(p, c2, 0) && Acknowledged(c2))
  {
    hide NetOk, PeerSeg, ClientSeg, Waited, AnswerTaken, Answers, AckOk, Add32;
    var g := Seg(iss, 0, SYN, []);
    SynIsOk(p, c.sndNxt, iss);
    ClientSent(p, c.net, c.sndNxt, [], g);
    OkParts(p, Sent(c, g).net, c.sndNxt, []);
    WaitedIn(p, Sent(c, g));
    WaitedOk(p, Sent(c, g), c.sndNxt, []);
    var (a, c1) := Waited(p, Sent(c, g));
    OkParts(p, c1.net, c.sndNxt, []);
    if a.Some? && Answers(a.value, iss) {
      AnswerKeeps(p, c1, iss, a.value);
    }
  }

  lemma SynIsOk(p: Peer, base: nat, iss: nat)
    requires base == Add32(iss, 1)
    ensures ClientSeg(Seg(iss, 0, SYN, []), base, [], []) && AckOk(p, Seg(iss, 0, SYN, []), 0)
  {
  }

  lemma OkParts(p: Peer, n: Net, base: nat, sent: seq<byte>)
    requires NetOk(p, n, base, sent)
    ensures NetIn(p, n) && n.got <= sent
  {
  }

  lemma AnswerKeeps(p: Peer, c: Client, iss: nat, g: Seg)
    requires NetOk(p, c.net, c.sndNxt, []) && c.net.got == [] && c.sndNxt == Add32(iss, 1) && AcksOk(p, c.net.c2p, 0)
    requires Answers(g, iss) && PeerSeg(p, g, c.sndNxt, []) && c.net.up
    ensures var c2 := AnswerTaken(c, g);
            && NetOk(p, c2.net, c.sndNxt, []) && c2.net.got == [] && c2.sndNxt == c.sndNxt && AcksOk(p, c2.net.c2p, 0)
            && InStep(p, c2, c.sndNxt, [], []) && Hears(p, c2, 0) && Acknowledged(c2)
  {
    hide NetOk, NetIn, PeerSeg, ClientSeg, AckOk, Add32, NextIs, Answers;
    var rcv := Add32(g.num, 1);
    AnswerNext(p, iss, c.sndNxt, g);
    OkParts(p, c.net, c.sndNxt, []);
    OutIsShort(p, c);
    var a := Seg(c.sndNxt, rcv, ACK, []);
    EmptyIsOk(c.sndNxt, rcv, c.sndNxt, [], []);
    ClientSent(p, c.net, c.sndNxt, [], a);
    OkParts(p, Sent(c, a).net, c.sndNxt, []);
    NextAckOk(p, c.net.c2p, 0, 0, a);
    var none: seq<byte> := [];
    assert none + none == none;
  }

  lemma AnswerNext(p: Peer, iss: nat, base: nat, g: Seg)
    requires Answers(g, iss) && PeerSeg(p, g, base, [])
    ensures NextIs(p, 0, Add32(g.num, 1))
  {
  }

  /** The handshake: it ends with both sides agreed on where the streams start, or with nothing
      delivered. */
  lemma {:induction false} ConnectKeeps(p: Peer, c: Client, iss: nat, tries: nat)
    requires NetOk(p, c.net, c.sndNxt, []) && c.net.got == [] && c.sndNxt == Add32(iss, 1) && AcksOk(p, c.net.c2p, 0)
    ensures var (ok, c2) := Connected(p, c, iss, tries);
            && NetOk(p, c2.net, c.sndNxt, []) && c2.net.got == [] && c2.sndNxt == c.sndNxt
            && (ok ==> InStep(p, c2, c.sndNxt, [], []) && Hears(p, c2, 0) && Acknowledged(c2))
    decreases tries
  {
    hide NetOk, TriedSyn, AcksOk, InStep, Hears, Acknowledged, Add32;
    if tries > 0 {
      SynKeeps(p, c, iss);
      var (ok, c2) := TriedSyn(p, c, iss);
      if !ok { ConnectKeeps(p, c2, iss, tries - 1); }
    }
  }

  // ----- receiving -----

  /** How far a call of tcp_recv got: `pos` of the peer's stream was next, and a segment of `k` bytes
      there was taken; `pos2` past the end tells that the FIN was taken too. */
  ghost predicate Received(out: seq<byte>, pos: nat, pos2: nat, cap: nat, r: int, bytes: seq<byte>, k: nat) {
    if r < 0 then r == -1 && pos2 == pos && bytes == [] && k == 0
    else
      && pos + k <= |out| && r == |bytes| == Min(k, cap) && bytes == out[pos..pos + r]
      && (pos2 == pos + k || (pos + k == |out| && pos2 == |out| + 1))
      && (k == 0 ==> pos2 == |out| + 1)
  }

  lemma NothingReceived(out: seq<byte>, pos: nat, cap: nat)
    ensures Received(out, pos, pos, cap, -1, [], 0)
  {
  }

  lemma FinReceived(out: seq<byte>, pos: nat, cap: nat)
    ensures pos == |out| ==> Received(out, pos, pos + 1, cap, 0, [], 0)
  {
  }

  lemma DataReceived(out: seq<byte>, pos: nat, pos2: nat, cap: nat, data: seq<byte>)
    requires pos + |data| <= |out| && data == Piece(out, pos, |data|) && data != []
    requires pos2 == pos + |data| || (pos + |data| == |out| && pos2 == |out| + 1)
    ensures var n := Min(|data|, cap); Received(out, pos, pos2, cap, n, data[..n], |data|)
  {
    var n := Min(|data|, cap);
    assert data[..n] == out[pos..pos + n];
  }

  lemma DataTakenHears(p: Peer, c: Client, pos: nat, g: Seg) returns (pos2: nat)
    requires Hears(p, c, pos) && PeerData(p, g) && g.num == c.rcvNxt && g.data != []
    ensures pos + |g.data| <= |p.out| && g.data == Piece(p.out, pos, |g.data|)
    ensures pos2 == pos + |g.data| + if Has(g.flags, FIN) then 1 else 0
    ensures Has(g.flags, FIN) ==> pos + |g.data| == |p.out|
    ensures var c2 := DataTaken(c, g); Hears(p, c2, pos2) && Acknowledged(c2) && c2.net.got == c.net.got
  {
    hide Hears, PeerData, TakenIn, Has, Acknowledged, Piece;
    InOrder(p, c, pos, g);
    pos2 := pos + |g.data|;
    TakenInHears(p, c, pos, |g.data|);
    if Has(g.flags, FIN) {
      TakenInHears(p, TakenIn(c, |g.data|), pos2, 1);
      pos2 := pos2 + 1;
    }
  }

  /** Every result of tcp_recv. */
  lemma {:induction false} RecvdHears(p: Peer, c: Client, pos: nat, cap: nat, budget: nat) returns (pos2: nat, k: nat)
    requires Hears(p, c, pos)
    ensures var (r, bytes, c2) := Recvd(p, c, cap, budget);
            && Received(p.out, pos, pos2, cap, r, bytes, k) && Hears(p, c2, pos2)
            && c.net.got <= c2.net.got && (r >= 0 ==> Acknowledged(c2))
    decreases budget
  {
    hide Hears, Received, PeerData, Waited, TakenIn, DataTaken, Has, Acknowledged, Piece;
    NothingReceived(p.out, pos, cap);
    pos2, k := pos, 0;
    if budget > 0 {
      WaitedHears(p, c, pos);
      var (w, c1) := Waited(p, c);
      if w.None? {
        pos2, k := RecvdHears(p, c1, pos, cap, budget - 1);
      } else if !Has(w.value.flags, RST) {
        var g := w.value;
        if g.num == c1.rcvNxt && g.data != [] {
          pos2 := DataTakenHears(p, c1, pos, g);
          k := |g.data|;
          DataReceived(p.out, pos, pos2, cap, g.data);
        } else if Has(g.flags, FIN) && g.num == c1.rcvNxt {
          InOrder(p, c1, pos, g);
          FinReceived(p.out, pos, cap);
          TakenInHears(p, c1, pos, 1);
          pos2 := pos + 1;
        } else {
          StillNext(p, c1, pos);
          var a := Seg(c1.sndNxt, c1.rcvNxt, ACK, []);
          SentHears(p, c1, pos, a);
          pos2, k := RecvdHears(p, Sent(c1, a), pos, cap, budget - 1);
        }
      }
    }
  }

  /** Acknowledging something keeps the sending side in step. */
  lemma AckKeeps(p: Peer, c: Client, base: nat, done: seq<byte>, pend: seq<byte>, rcv: nat)
    requires InStep(p, c, base, done, pend)
    ensures InStep(p, Sent(c.(rcvNxt := rcv), Seg(c.sndNxt, rcv, ACK, [])), base, done, pend)
  {
    var g := Seg(c.sndNxt, rcv, ACK, []);
    OkParts(p, c.net, base, done + pend);
    ShortIsOk(c.sndNxt, rcv, base, done + pend, c.net.got);
    hide NetOk, ClientSeg, IsPending;
    ClientSent(p, c.net, base, done + pend, g);
    if pend != [] {
      var j :| 0 <= j < |c.net.c2p| && IsPending(c.net.c2p[j], c.sndNxt, pend);
      assert (c.net.c2p + [g])[j] == c.net.c2p[j];
    }
  }

  lemma ShortIsOk(num: nat, rcv: nat, base: nat, sent: seq<byte>, got: seq<byte>)
    requires base <= num <= base + |got| && got <= sent
    ensures ClientSeg(Seg(num, rcv, ACK, []), base, sent, got)
  {
  }

  lemma WaitedKeeps(p: Peer, c: Client, base: nat, done: seq<byte>, pend: seq<byte>)
    requires InStep(p, c, base, done, pend)
    ensures InStep(p, Waited(p, c).1, base, done, pend)
  {
    hide NetOk, PeerSeg, Waited;
    WaitedOk(p, c, base, done + pend);
  }

  /** tcp_recv keeps the sending side in step. */
  lemma {:induction false} RecvdKeeps(p: Peer, c: Client, base: nat, done: seq<byte>, pend: seq<byte>, cap: nat,
                                      budget: nat)
    requires InStep(p, c, base, done, pend)
    ensures InStep(p, Recvd(p, c, cap, budget).2, base, done, pend)
    decreases budget
  {
    hide InStep, Waited, Has, Add32;
    if budget > 0 {
      WaitedKeeps(p, c, base, done, pend);
      var (w, c1) := Waited(p, c);
      if w.None? {
        RecvdKeeps(p, c1, base, done, pend, cap, budget - 1);
      } else if !Has(w.value.flags, RST) {
        var g := w.value;
        AckKeeps(p, c1, base, done, pend, c1.rcvNxt);
        AckKeeps(p, c1, base, done, pend, Add32(c1.rcvNxt, 1));
        AckKeeps(p, c1, base, done, pend, Add32(c1.rcvNxt, |g.data|));
        var c2 := TakenIn(c1, |g.data|);
        AckKeeps(p, c2, base, done, pend, Add32(c2.rcvNxt, 1));
        if g.num != c1.rcvNxt || (g.data == [] && !Has(g.flags, FIN)) {
          RecvdKeeps(p, Sent(c1, Seg(c1.sndNxt, c1.rcvNxt, ACK, [])), base, done, pend, cap, budget - 1);
        }
      }
    }
  }
}
