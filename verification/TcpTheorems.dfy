/** The main results about the TCP client: when the success of a send means delivery, and what
    the results of receiving add up to. */
module TcpTheorems {
  import opened Bytes
  import opened TcpNet
  import opened TcpClient
  import opened Wrappers

  // ----- waiting for given events -----

  lemma WaitGoesOn(p: Peer, c: Client, e: Event, rest: seq<Event>)
    requires c.script == [e] + rest && !e.Timeout? && !e.Deliver?
    ensures Waited(p, c) == Waited(p, c.(net := EnvStep(p, c.net, e), script := rest))
  {
    assert c.script[0] == e && c.script[1..] == rest;
  }

  lemma WaitEnds(p: Peer, c: Client, e: Event, rest: seq<Event>)
    requires c.script == [e] + rest && (e.Timeout? || (e.Deliver? && e.j < |c.net.p2c|))
    ensures Waited(p, c) == (if e.Timeout? then None else Some(c.net.p2c[e.j]), c.(script := rest))
  {
    assert c.script[0] == e && c.script[1..] == rest;
  }

  /** The peer after segments have reached it, each up to some byte. */
  function Took(p: Peer, n: Net, takes: seq<Event>): Net
    decreases |takes|
  {
    if takes == [] then n else Took(p, EnvStep(p, n, takes[0]), takes[1..])
  }

  ghost predicate AllTakes(es: seq<Event>) { forall i | 0 <= i < |es| :: es[i].Take? }

  lemma {:induction false} TookKeeps(p: Peer, n: Net, takes: seq<Event>)
    requires n.up && AllTakes(takes)
    ensures var n2 := Took(p, n, takes); n2.up && n2.p2c == n.p2c && n2.c2p == n.c2p && n2.irs == n.irs
    decreases |takes|
  {
    if takes != [] {
      assert takes[0].Take?;
      TookKeeps(p, EnvStep(p, n, takes[0]), takes[1..]);
    }
  }

  lemma {:induction false} WaitTakes(p: Peer, c: Client, takes: seq<Event>, rest: seq<Event>)
    requires c.script == takes + rest && AllTakes(takes)
    ensures Waited(p, c) == Waited(p, c.(net := Took(p, c.net, takes), script := rest))
    decreases |takes|
  {
    hide Waited, EnvStep;
    if takes == [] {
      assert takes + rest == rest;
    } else {
      assert takes[0].Take? && takes + rest == [takes[0]] + (takes[1..] + rest);
      WaitGoesOn(p, c, takes[0], takes[1..] + rest);
      WaitTakes(p, c.(net := EnvStep(p, c.net, takes[0]), script := takes[1..] + rest), takes[1..], rest);
    }
  }

  /** The acknowledgment an honest peer gives now. */
  function AckOf(p: Peer, n: Net): Seg { Seg(Add32(p.iss, 1), Cumulative(n), PSH_ACK, []) }

  /** The peer acknowledges what it has, and that reaches the client. */
  function Answer(m: nat): seq<Event> { [Say(0, 0, false), Deliver(m)] }

  lemma WaitAnswer(p: Peer, c: Client, rest: seq<Event>)
    requires c.net.up && c.script == Answer(|c.net.p2c|) + rest
    ensures Waited(p, c) ==
            (Some(AckOf(p, c.net)), c.(net := c.net.(p2c := c.net.p2c + [AckOf(p, c.net)]), script := rest))
  {
    var m: nat := |c.net.p2c|;
    var n2 := c.net.(p2c := c.net.p2c + [AckOf(p, c.net)]);
    assert p.out[0..0] == [];
    assert EnvStep(p, c.net, Say(0, 0, false)) == n2;
    hide Waited, EnvStep, AckOf;
    assert c.script == [Say(0, 0, false)] + ([Deliver(m)] + rest);
    WaitGoesOn(p, c, Say(0, 0, false), [Deliver(m)] + rest);
    WaitEnds(p, c.(net := n2, script := [Deliver(m)] + rest), Deliver(m), rest);
  }

  /** Started with these events, the chunk is reported as delivered and leaves the client as `c2`,
      with whatever else is going to happen. */
  ghost predicate Leads(p: Peer, c: Client, es: seq<Event>, chunk: seq<byte>, c2: Client) {
    forall rest: seq<Event> :: SentChunk(p, c.(script := es + rest), chunk, 4) == (true, c2.(script := rest))
  }

  /** The client sends next what the peer takes next. */
  ghost predicate Level(c: Client) { c.net.up && c.sndNxt == Cumulative(c.net) }

  /** The segment of a chunk. */
  function ChunkSeg(c: Client, chunk: seq<byte>): Seg { Seg(c.sndNxt, c.rcvNxt, PSH_ACK, chunk) }

  /** The chunk is sent, the peer takes some segments and acknowledges, and that passes the test. */
  lemma Fetches(p: Peer, c: Client, chunk: seq<byte>, takes: seq<Event>, n1: Net) returns (c2: Client)
    requires c.net.up && AllTakes(takes) && n1 == Took(p, Sent(c, ChunkSeg(c, chunk)).net, takes)
    requires TakenForAck(c.sndNxt, |chunk|, Cumulative(n1))
    ensures Leads(p, c, takes + Answer(|c.net.p2c|), chunk, c2) && Level(c2)
    ensures c2.net.got == n1.got && c2.sndNxt == Cumulative(n1)
  {
    var a := AckOf(p, n1);
    TookKeeps(p, Sent(c, ChunkSeg(c, chunk)).net, takes);
    c2 := AckTaken(c.(net := n1.(p2c := n1.p2c + [a]), script := []), a);
    hide Waited, Took, TakenForAck, Cumulative;
    forall rest: seq<Event>
      ensures SentChunk(p, c.(script := takes + Answer(|c.net.p2c|) + rest), chunk, 4) == (true, c2.(script := rest))
    {
      var es := takes + Answer(|c.net.p2c|) + rest;
      var s := Sent(c.(script := es), ChunkSeg(c, chunk));
      assert es == takes + (Answer(|c.net.p2c|) + rest);
      WaitTakes(p, s, takes, Answer(|c.net.p2c|) + rest);
      WaitAnswer(p, s.(net := n1, script := Answer(|c.net.p2c|) + rest), rest);
      assert TriedChunk(p, c.(script := es), chunk) == (true, c2.(script := rest));
    }
    LevelAgain(n1, a, c2);
  }

  lemma LevelAgain(n1: Net, a: Seg, c2: Client)
    requires n1.up && a.ack == Cumulative(n1) && c2.sndNxt == a.ack
    requires c2.net.up && c2.net.got == n1.got && c2.net.irs == n1.irs
    ensures Level(c2)
  {
  }

  // ----- what the peer takes -----

  lemma SubAdd(s: nat, t: nat)
    requires t < TWO32
    ensures Sub32(Add32(s, t), s) == t
  {
  }

  /** The peer is `t` bytes into what the segment number `j` carries and takes the rest of it. */
  lemma TakesRest(p: Peer, n: Net, j: nat, num: nat, t: nat)
    requires n.up && j < |n.c2p| && n.c2p[j].num == num && n.c2p[j].flags == PSH_ACK && |n.c2p[j].data| <= MSS
    requires Cumulative(n) == Add32(num, t) && t <= |n.c2p[j].data|
    ensures var d := n.c2p[j].data;
            var n2 := EnvStep(p, n, Take(j, |d|));
            n2 == n.(got := n.got + d[t..]) && Cumulative(n2) == Add32(num, |d|)
  {
    var d := n.c2p[j].data;
    SubAdd(num, t);
    AddAdd(n.irs, 1 + |n.got|, |d| - t);
    AddAdd(num, t, |d| - t);
    hide Add32, Sub32;
    if t == |d| { assert n.got + d[t..] == n.got; }
    assert t < |d| ==> d[t..|d|] == d[t..];
  }

  /** An honest delivery, from wherever in the chunk the peer is. */
  lemma Honest(p: Peer, c: Client, chunk: seq<byte>, t: nat) returns (es: seq<Event>, c2: Client)
    requires c.net.up && Cumulative(c.net) == Add32(c.sndNxt, t) && t <= |chunk| <= MSS
    ensures Leads(p, c, es, chunk, c2) && Level(c2) && c2.net.got == c.net.got + chunk[t..]
    ensures c2.sndNxt == Add32(c.sndNxt, |chunk|)
  {
    var j, s := |c.net.c2p|, Sent(c, ChunkSeg(c, chunk));
    var takes := [Take(j, |chunk|)];
    assert s.net.c2p[j] == ChunkSeg(c, chunk) && takes[1..] == [];
    hide Add32, EnvStep;
    TakesRest(p, s.net, j, c.sndNxt, t);
    var n1 := EnvStep(p, s.net, Take(j, |chunk|));
    c2 := Fetches(p, c, chunk, takes, n1);
    es := takes + Answer(|c.net.p2c|);
  }

  /** A chunk that crosses the wrap: the peer takes nothing, acknowledges what it has, and the chunk
      counts as delivered. */
  lemma WrapFools(p: Peer, c: Client, chunk: seq<byte>, t: nat) returns (es: seq<Event>, c2: Client)
    requires c.net.up && Cumulative(c.net) == c.sndNxt + t < TWO32 <= c.sndNxt + |chunk| && |chunk| <= MSS
    ensures Leads(p, c, es, chunk, c2) && Level(c2) && c2.net.got == c.net.got
  {
    var s := Sent(c, ChunkSeg(c, chunk));
    var takes: seq<Event> := [];
    assert TakenForAck(c.sndNxt, |chunk|, Cumulative(s.net));
    c2 := Fetches(p, c, chunk, takes, s.net);
    es := takes + Answer(|c.net.p2c|);
  }

  /** What the peer ends up with when it takes `pend` first, where `chunk` was meant. */
  function Mixed(pend: seq<byte>, chunk: seq<byte>): seq<byte> {
    if |chunk| <= |pend| then pend else pend + chunk[|pend|..]
  }

  lemma TookTwo(p: Peer, n: Net, a: Event, b: Event)
    ensures Took(p, n, [a, b]) == EnvStep(p, EnvStep(p, n, a), b)
  {
    hide EnvStep;
    assert [a, b][1..] == [b] && [b][1..] == [];
    assert Took(p, EnvStep(p, n, a), [b]) == EnvStep(p, EnvStep(p, n, a), b);
  }

  lemma TookOne(p: Peer, n: Net, a: Event)
    ensures Took(p, n, [a]) == EnvStep(p, n, a)
  {
    hide EnvStep;
    assert [a][1..] == [];
  }

  lemma PendingAt(gs: seq<Seg>, num: nat, pend: seq<byte>) returns (j: nat)
    requires pend != [] && Pending(gs, num, pend)
    ensures j < |gs| && gs[j] == Seg(num, gs[j].ack, PSH_ACK, pend)
  {
    j :| j < |gs| && IsPending(gs[j], num, pend);
  }

  lemma SameTaken(a: Net, b: Net)
    requires b.irs == a.irs && b.got == a.got
    ensures Cumulative(b) == Cumulative(a)
  {
  }

  /** With no wrap, an acknowledgment of all that the peer took passes for the chunk. */
  lemma PendPasses(num: nat, pend: nat, chunk: nat)
    requires num + pend < TWO32 && num + chunk < TWO32
    ensures chunk <= pend ==> TakenForAck(num, chunk, Add32(num, pend))
    ensures TakenForAck(num, chunk, Add32(num, chunk))
  {
  }

  /** A chunk sent where other bytes are outstanding: the peer takes those, and what of the chunk
      reaches beyond them, and the chunk counts as delivered. */
  lemma PendFools(p: Peer, c: Client, chunk: seq<byte>, pend: seq<byte>, t: nat) returns (es: seq<Event>, c2: Client)
    requires c.net.up && Cumulative(c.net) == Add32(c.sndNxt, t) && t <= |pend| <= MSS && |chunk| <= MSS
    requires pend != [] && Pending(c.net.c2p, c.sndNxt, pend)
    requires c.sndNxt + |pend| < TWO32 && c.sndNxt + |chunk| < TWO32
    ensures Leads(p, c, es, chunk, c2) && Level(c2) && c2.net.got == c.net.got + Mixed(pend, chunk)[t..]
  {
    hide EnvStep, Cumulative, Pending, Add32, Leads, Level, Took;
    var j := PendingAt(c.net.c2p, c.sndNxt, pend);
    var s := Sent(c, ChunkSeg(c, chunk));
    var k := |c.net.c2p|;
    assert s.net.c2p[j] == c.net.c2p[j] && s.net.c2p[k] == ChunkSeg(c, chunk);
    SameTaken(c.net, s.net);
    TakesRest(p, s.net, j, c.sndNxt, t);
    var n1 := EnvStep(p, s.net, Take(j, |pend|));
    var takes := [Take(j, |pend|)];
    TookOne(p, s.net, takes[0]);
    PendPasses(c.sndNxt, |pend|, |chunk|);
    if |chunk| <= |pend| {
      c2 := Fetches(p, c, chunk, takes, n1);
    } else {
      TakesRest(p, n1, k, c.sndNxt, |pend|);
      takes := [Take(j, |pend|), Take(k, |chunk|)];
      TookTwo(p, s.net, Take(j, |pend|), Take(k, |chunk|));
      c2 := Fetches(p, c, chunk, takes, EnvStep(p, n1, Take(k, |chunk|)));
      assert pend[t..] + chunk[|pend|..] == (pend + chunk[|pend|..])[t..];
    }
    es := takes + Answer(|c.net.p2c|);
  }

  // ----- whole sends -----

  lemma AllStep(p: Peer, c: Client, data: seq<byte>, off: nat, es: seq<Event>, c2: Client, rest: seq<Event>)
    requires off < |data| && Leads(p, c, es, Part(data, off), c2)
    ensures SentAll(p, c.(script := es + rest), data, off)
            == SentAll(p, c2.(script := rest), data, off + PartSize(data, off))
  {
    hide SentChunk, Part;
    assert SentChunk(p, c.(script := es + rest), Part(data, off), 4) == (true, c2.(script := rest));
  }

  lemma LevelStart(c: Client)
    requires Level(c)
    ensures c.sndNxt < TWO32 && Cumulative(c.net) == Add32(c.sndNxt, 0) == c.sndNxt
  {
  }

  lemma PartThenRest(data: seq<byte>, off: nat)
    requires off < |data|
    ensures Part(data, off) + data[off + PartSize(data, off)..] == data[off..]
  {
  }

  /** From a level start everything can be delivered. */
  lemma {:induction false} HonestRest(p: Peer, c: Client, data: seq<byte>, off: nat) returns (es: seq<Event>)
    requires Level(c) && off <= |data|
    ensures var (ok, c2) := SentAll(p, c.(script := es), data, off); ok && c2.net.got == c.net.got + data[off..]
    decreases |data| - off
  {
    hide Level, Leads, SentChunk, Part;
    if off == |data| {
      es := [];
      assert c.net.got + data[off..] == c.net.got;
    } else {
      LevelStart(c);
      LevelIsUp(c);
      var first, c2 := Honest(p, c, Part(data, off), 0);
      var more := HonestRest(p, c2, data, off + PartSize(data, off));
      es := first + more;
      AllStep(p, c, data, off, first, c2, more);
      PartThenRest(data, off);
      Joined(c.net.got, Part(data, off), data[off + PartSize(data, off)..]);
    }
  }

  lemma LevelIsUp(c: Client)
    requires Level(c)
    ensures c.net.up
  {
  }

  lemma Joined(a: seq<byte>, b: seq<byte>, d: seq<byte>)
    ensures a + b[0..] + d == a + (b + d)
  {
  }

  /** From a level start, when the sequence numbers wrap before the end of the data: a run in which
      all of it is reported as delivered and some of it is not. */
  lemma {:induction false} WrapLater(p: Peer, c: Client, data: seq<byte>, off: nat) returns (es: seq<Event>)
    requires Level(c) && off < |data| && c.sndNxt + (|data| - off) >= TWO32
    ensures var (ok, c2) := SentAll(p, c.(script := es), data, off); ok && |c2.net.got| < |c.net.got| + |data| - off
    decreases |data| - off
  {
    hide Level, Leads, SentChunk, Part, SentAll;
    LevelStart(c);
    LevelIsUp(c);
    var n, chunk := PartSize(data, off), Part(data, off);
    var first, c2, more;
    if c.sndNxt + n >= TWO32 {
      first, c2 := WrapFools(p, c, chunk, 0);
      more := HonestRest(p, c2, data, off + n);
    } else {
      first, c2 := Honest(p, c, chunk, 0);
      more := WrapLater(p, c2, data, off + n);
    }
    es := first + more;
    AllStep(p, c, data, off, first, c2, more);
  }

  // ----- when success means delivery -----

  /** If tcp_send reports success, the peer holds `before` and then the data. */
  ghost predicate Truthful(p: Peer, c: Client, before: seq<byte>, data: seq<byte>) {
    var (ok, c2) := SentAll(p, c, data, 0);
    ok && data != [] ==> c2.net.got == before + data
  }

  lemma StepTaken(p: Peer, c: Client, base: nat, done: seq<byte>, pend: seq<byte>) returns (t: nat)
    requires InStep(p, c, base, done, pend)
    ensures |c.net.got| == |done| + t && t <= |pend| <= MSS && c.net.got <= done + pend
    ensures base + |done| + |pend| < TWO32
  {
    hide NetIn, ClientSeg, PeerSeg, StartsAt, IsPending;
    t := |c.net.got| - |done|;
  }

  lemma StepNumber(p: Peer, c: Client, base: nat, done: seq<byte>, pend: seq<byte>)
    requires InStep(p, c, base, done, pend)
    ensures Cumulative(c.net) == base + |c.net.got| < TWO32
    ensures Add32(base + |done|, |c.net.got| - |done|) == base + |c.net.got|
  {
    hide NetIn, ClientSeg, PeerSeg, Pending;
    OffsetIs(c.net.irs, base, |c.net.got|, base);
  }

  /** How far into the outstanding bytes the peer is. */
  lemma StepFacts(p: Peer, c: Client, base: nat, done: seq<byte>, pend: seq<byte>) returns (t: nat)
    requires InStep(p, c, base, done, pend)
    ensures t <= |pend| <= MSS && c.net.got == done + pend[..t] && c.net.up && c.sndNxt == base + |done|
    ensures Cumulative(c.net) == c.sndNxt + t == Add32(c.sndNxt, t) && c.sndNxt + |pend| < TWO32
    ensures Pending(c.net.c2p, c.sndNxt, pend)
  {
    hide NetOk, Cumulative, Add32, Pending;
    t := StepTaken(p, c, base, done, pend);
    StepNumber(p, c, base, done, pend);
    var g := c.net.got;
    assert g == (done + pend)[..|g|];
  }

  /** A client that is ready is told the truth. */
  lemma ReadyIsTruthful(p: Peer, c: Client, base: nat, done: seq<byte>, pend: seq<byte>, data: seq<byte>)
    requires InStep(p, c, base, done, pend) && Ready(base, done, pend, data)
    ensures Truthful(p, c, done, data)
  {
    hide InStep, SentAll;
    if data != [] {
      assert done + data[..0] == done;
      var d2, p2 := AllKeeps(p, c, base, done, pend, done, data, 0);
    }
  }

  /** From the first chunk on, in a run that delivers the rest honestly. */
  lemma ThenHonest(p: Peer, c: Client, data: seq<byte>, first: seq<Event>, c2: Client) returns (es: seq<Event>)
    requires data != [] && Leads(p, c, first, Part(data, 0), c2) && Level(c2)
    ensures var (ok, c3) := SentAll(p, c.(script := es), data, 0);
            ok && c3.net.got == c2.net.got + data[PartSize(data, 0)..]
  {
    hide Level, Leads, SentAll, Part;
    var more := HonestRest(p, c2, data, PartSize(data, 0));
    es := first + more;
    AllStep(p, c, data, 0, first, c2, more);
  }

  lemma MixedDiffers(done: seq<byte>, pend: seq<byte>, chunk: seq<byte>, t: nat, rest: seq<byte>)
    requires !(pend <= chunk) && t <= |pend|
    ensures done + pend[..t] + Mixed(pend, chunk)[t..] + rest != done + (chunk + rest)
  {
    var m := Mixed(pend, chunk);
    assert pend <= m && pend[..t] == m[..t];
    assert done + pend[..t] + m[t..] == done + m;
    if |m| == |chunk| { OnlyMiddle(done, m, chunk, rest); }
  }

  lemma OnlyMiddle(a: seq<byte>, x: seq<byte>, y: seq<byte>, r: seq<byte>)
    requires |x| == |y|
    ensures a + x + r == a + (y + r) <==> x == y
  {
    var n := |a| + |x|;
    assert (a + x + r)[|a|..n] == x && (a + (y + r))[|a|..n] == y;
  }

  lemma DataSplits(data: seq<byte>)
    requires data != []
    ensures var n := PartSize(data, 0);
            data == Part(data, 0) + data[n..] && |data[n..]| == |data| - n && Part(data, 0) == data[..n]
  {
  }

  /** In every other case there is a run in which the send reports success and the peer does not
      hold what it should. */
  lemma UnreadyIsFooled(p: Peer, c: Client, base: nat, done: seq<byte>, pend: seq<byte>, data: seq<byte>)
    returns (es: seq<Event>)
    requires InStep(p, c, base, done, pend) && !Ready(base, done, pend, data)
    ensures !Truthful(p, c.(script := es), done, data)
  {
    hide InStep, Level, Leads, SentAll, Part, Pending, Mixed, Cumulative, Add32;
    var t := StepFacts(p, c, base, done, pend);
    var n, chunk := PartSize(data, 0), Part(data, 0);
    DataSplits(data);
    if c.sndNxt + n >= TWO32 {
      var first, c2 := WrapFools(p, c, chunk, t);
      es := ThenHonest(p, c, data, first, c2);
    } else if !(pend <= chunk) {
      var first, c2 := PendFools(p, c, chunk, pend, t);
      es := ThenHonest(p, c, data, first, c2);
      MixedDiffers(done, pend, chunk, t, data[n..]);
    } else {
      var first, c2 := Honest(p, c, chunk, t);
      AddIsPlain(c.sndNxt, n);
      var more := WrapLater(p, c2, data, n);
      es := first + more;
      AllStep(p, c, data, 0, first, c2, more);
    }
  }

  lemma AddIsPlain(a: nat, k: nat)
    requires a + k < TWO32
    ensures Add32(a, k) == a + k
  {
  }

  /** For every client in step and all data: whatever the network and the peer do, success means
      delivery, if and only if the data begins with the bytes outstanding from a failed send and no
      sequence number wraps. */
  lemma SuccessMeansDeliveryIff(p: Peer, c: Client, base: nat, done: seq<byte>, pend: seq<byte>, data: seq<byte>)
    requires InStep(p, c, base, done, pend)
    ensures (forall es: seq<Event> :: Truthful(p, c.(script := es), done, data)) <==> Ready(base, done, pend, data)
  {
    hide Truthful, Ready, NetOk, Pending;
    if Ready(base, done, pend, data) {
      forall es: seq<Event> ensures Truthful(p, c.(script := es), done, data) {
        ReadyIsTruthful(p, c.(script := es), base, done, pend, data);
      }
    } else {
      var es := UnreadyIsFooled(p, c, base, done, pend, data);
    }
  }

  // ----- two such runs -----

  /** A run in which the sequence numbers wrap: connected with initial number 2^32 - 3, the client
      sends two bytes, and a copy of the answer to its SYN arrives. The test passes, tcp_send
      reports success, and the peer has received nothing. */
  lemma WrappedSendIsFooled(a: byte, b: byte)
    ensures var p := Peer([], 0);
            var c := Client(Net([], [], false, 0, []), [Take(0, 0), SynAck, Deliver(0), Deliver(0)], TWO32 - 2, 0);
            var (up, c1) := Connected(p, c, TWO32 - 3, 4);
            var (ok, c2) := SentAll(p, c1, [a, b], 0);
            up && ok && c2.net.got == []
  {
    var p := Peer([], 0);
    var c := Client(Net([], [], false, 0, []), [Take(0, 0), SynAck, Deliver(0), Deliver(0)], TWO32 - 2, 0);
    var c1 := ConnectsNearWrap(p, c);
    OldAnswerPasses(p, c1, [a, b]);
    assert Part([a, b], 0) == [a, b];
    hide Connected, SentChunk;
  }

  lemma SynIsAnswered(p: Peer, n0: Net, n1: Net, answer: Seg)
    requires p == Peer([], 0) && n0 == Net([Seg(TWO32 - 3, 0, SYN, [])], [], false, 0, [])
    requires n1 == n0.(up := true, irs := TWO32 - 3) && answer == Seg(0, TWO32 - 2, SYN + ACK, [])
    ensures EnvStep(p, n0, Take(0, 0)) == n1 && EnvStep(p, n1, SynAck) == n1.(p2c := [answer])
    ensures Answers(answer, TWO32 - 3) && Add32(answer.num, 1) == 1
  {
  }

  lemma ConnectsNearWrap(p: Peer, c: Client) returns (c1: Client)
    requires p == Peer([], 0)
    requires c == Client(Net([], [], false, 0, []), [Take(0, 0), SynAck, Deliver(0), Deliver(0)], TWO32 - 2, 0)
    ensures Connected(p, c, TWO32 - 3, 4) == (true, c1) && c1.script == [Deliver(0)] && c1.sndNxt == TWO32 - 2
    ensures c1.rcvNxt == 1
    ensures c1.net == Net(c1.net.c2p, [Seg(0, TWO32 - 2, SYN + ACK, [])], true, TWO32 - 3, [])
  {
    hide Waited, EnvStep, Answers, Add32;
    var n0 := Net([Seg(TWO32 - 3, 0, SYN, [])], [], false, 0, []);
    var n1 := n0.(up := true, irs := TWO32 - 3);
    var answer := Seg(0, TWO32 - 2, SYN + ACK, []);
    SynIsAnswered(p, n0, n1, answer);
    var n2 := n1.(p2c := [answer]);
    var s := Sent(c, n0.c2p[0]);
    assert s.net == n0;
    var w := Client(n2, [Deliver(0)], TWO32 - 2, 0);
    WaitGoesOn(p, s, Take(0, 0), [SynAck, Deliver(0), Deliver(0)]);
    WaitGoesOn(p, s.(net := n1, script := [SynAck, Deliver(0), Deliver(0)]), SynAck, [Deliver(0), Deliver(0)]);
    WaitEnds(p, w.(script := [Deliver(0), Deliver(0)]), Deliver(0), [Deliver(0)]);
    c1 := Sent(w.(rcvNxt := 1), Seg(TWO32 - 2, 1, ACK, []));
    assert TriedSyn(p, c, TWO32 - 3) == (true, c1);
  }

  lemma OldAnswerPasses(p: Peer, c: Client, chunk: seq<byte>)
    requires |chunk| == 2 && c.script == [Deliver(0)] && c.sndNxt == TWO32 - 2 && c.net.got == []
    requires c.net.p2c == [Seg(0, TWO32 - 2, SYN + ACK, [])]
    ensures SentChunk(p, c, chunk, 4).0 && SentChunk(p, c, chunk, 4).1.net.got == []
  {
    var s := Sent(c, Seg(c.sndNxt, c.rcvNxt, PSH_ACK, chunk));
    hide Waited;
    WaitEnds(p, s, Deliver(0), []);
    assert TriedChunk(p, c, chunk).0 && TriedChunk(p, c, chunk).1.net.got == [];
  }

  /** A try whose wait runs out. */
  lemma TryTimesOut(p: Peer, c: Client, chunk: seq<byte>, rest: seq<Event>)
    requires c.script == [Timeout] + rest
    ensures TriedChunk(p, c, chunk) == (false, Sent(c, Seg(c.sndNxt, c.rcvNxt, PSH_ACK, chunk)).(script := rest))
  {
    WaitEnds(p, Sent(c, Seg(c.sndNxt, c.rcvNxt, PSH_ACK, chunk)), Timeout, rest);
  }

  /** Three tries that run out one after the other. */
  lemma ThreeTimeOut(p: Peer, c: Client, chunk: seq<byte>, rest: seq<Event>) returns (c2: Client)
    requires c.script == [Timeout, Timeout, Timeout] + rest
    ensures SentChunk(p, c, chunk, 3) == (false, c2)
    ensures c2.script == rest && c2.sndNxt == c.sndNxt && c2.rcvNxt == c.rcvNxt
    ensures c2.net == c.net.(c2p := c2.net.c2p)
  {
    var g := Seg(c.sndNxt, c.rcvNxt, PSH_ACK, chunk);
    var a := Sent(c, g).(script := [Timeout, Timeout] + rest);
    var b := Sent(a, g).(script := [Timeout] + rest);
    c2 := Sent(b, g).(script := rest);
    assert c.script == [Timeout] + a.script && a.script == [Timeout] + b.script;
    TryTimesOut(p, c, chunk, a.script);
    TryTimesOut(p, a, chunk, b.script);
    TryTimesOut(p, b, chunk, rest);
    hide TriedChunk;
    assert SentChunk(p, b, chunk, 1) == SentChunk(p, c2, chunk, 0);
    assert SentChunk(p, a, chunk, 2) == SentChunk(p, b, chunk, 1);
  }

  /** And one after a send that failed: its byte `a` was taken in, but no acknowledgment came back
      in time. The next send of one byte reports success on that late acknowledgment, and its
      byte `b` is never received. */
  lemma RetriedSendIsFooled(a: byte, b: byte)
    ensures var p := Peer([], 0);
            var script := [Take(1, 1), Timeout, Timeout, Timeout, Timeout, Say(0, 0, false), Deliver(0)];
            var c := Client(Net([Seg(0, 0, SYN, [])], [], true, 0, []), script, 1, 1);
            var (first, c1) := SentAll(p, c, [a], 0);
            var (second, c2) := SentAll(p, c1, [b], 0);
            !first && second && c2.net.got == [a]
  {
    var p := Peer([], 0);
    var late := [Say(0, 0, false), Deliver(0)];
    var script := [Take(1, 1), Timeout, Timeout, Timeout, Timeout] + late;
    var c := Client(Net([Seg(0, 0, SYN, [])], [], true, 0, []), script, 1, 1);
    var c1 := FirstFails(p, c, a, late);
    SecondPasses(p, c1, a, b);
    assert c.script == [Take(1, 1), Timeout, Timeout, Timeout, Timeout, Say(0, 0, false), Deliver(0)];
    assert Part([a], 0) == [a] && Part([b], 0) == [b];
    hide SentChunk;
  }

  lemma FirstFails(p: Peer, c: Client, a: byte, late: seq<Event>) returns (c1: Client)
    requires c == Client(Net([Seg(0, 0, SYN, [])], [], true, 0, []),
             [Take(1, 1), Timeout, Timeout, Timeout, Timeout] + late, 1, 1)
    ensures SentChunk(p, c, [a], 4) == (false, c1) && c1.script == late && c1.sndNxt == c1.rcvNxt == 1
    ensures c1.net == Net(c1.net.c2p, [], true, 0, [a])
  {
    var n0 := Net([Seg(0, 0, SYN, []), Seg(1, 1, PSH_ACK, [a])], [], true, 0, []);
    var s := Sent(c, Seg(1, 1, PSH_ACK, [a]));
    assert n0.c2p[1] == Seg(1, 1, PSH_ACK, [a]) && [a][0..1] == [a];
    assert s.net == n0 && EnvStep(p, n0, Take(1, 1)) == n0.(got := [a]);
    var t := Client(n0.(got := [a]), [Timeout, Timeout, Timeout] + late, 1, 1);
    assert c.script == [Take(1, 1)] + ([Timeout] + t.script);
    hide Waited, EnvStep;
    WaitGoesOn(p, s, Take(1, 1), [Timeout] + t.script);
    WaitEnds(p, t.(script := [Timeout] + t.script), Timeout, t.script);
    assert TriedChunk(p, c, [a]) == (false, t);
    c1 := ThreeTimeOut(p, t, [a], late);
  }

  lemma SecondPasses(p: Peer, c: Client, a: byte, b: byte)
    requires p == Peer([], 0) && c.script == [Say(0, 0, false), Deliver(0)] && c.sndNxt == c.rcvNxt == 1
    requires c.net == Net(c.net.c2p, [], true, 0, [a])
    ensures SentChunk(p, c, [b], 4).0 && SentChunk(p, c, [b], 4).1.net.got == [a]
  {
    var s := Sent(c, Seg(1, 1, PSH_ACK, [b]));
    var n := s.net.(p2c := [Seg(1, 2, PSH_ACK, [])]);
    assert EnvStep(p, s.net, Say(0, 0, false)) == n;
    hide Waited, EnvStep;
    WaitGoesOn(p, s, Say(0, 0, false), [Deliver(0)]);
    WaitEnds(p, s.(net := n, script := [Deliver(0)]), Deliver(0), []);
    assert TriedChunk(p, c, [b]).0 && TriedChunk(p, c, [b]).1.net.got == [a];
  }

  // ----- whole runs of receiving -----

  /** One result of tcp_recv: what it returned, with what room, and from where to where. */
  datatype Got = Got(pos: nat, pos2: nat, cap: nat, r: int, bytes: seq<byte>, k: nat)

  function AllBytes(rs: seq<Got>): seq<byte> {
    if rs == [] then [] else AllBytes(rs[..|rs| - 1]) + rs[|rs| - 1].bytes
  }

  function EndOf(from: nat, rs: seq<Got>): nat { if rs == [] then from else rs[|rs| - 1].pos2 }

  /** Each result starts where the one before left off. */
  ghost predicate Reading(out: seq<byte>, from: nat, rs: seq<Got>) {
    if rs == [] then from <= |out| + 1
    else
      var x := rs[|rs| - 1];
      && Reading(out, from, rs[..|rs| - 1]) && x.pos == EndOf(from, rs[..|rs| - 1])
      && Received(out, x.pos, x.pos2, x.cap, x.r, x.bytes, x.k)
  }

  /** What a reader that started at `from` and is now at `pos` should have. */
  function Between(out: seq<byte>, from: nat, pos: nat): seq<byte> {
    if from <= pos <= |out| then out[from..pos] else if from <= |out| then out[from..] else []
  }

  lemma OneMore(out: seq<byte>, from: nat, x: Got)
    requires Received(out, x.pos, x.pos2, x.cap, x.r, x.bytes, x.k) && from <= x.pos <= |out| + 1 && x.k <= x.cap
    ensures x.pos <= x.pos2 <= |out| + 1 && Between(out, from, x.pos) + x.bytes == Between(out, from, x.pos2)
    ensures x.r == 0 && x.cap > 0 ==> x.pos == |out| && x.pos2 == |out| + 1
  {
    if x.r >= 0 {
      assert out[from..x.pos + x.k] == out[from..x.pos] + out[x.pos..x.pos + x.k];
      assert out[from..|out|] == out[from..];
    }
  }

  /** Successive results, each with room for its segment, put together are a gap-free piece
      of the peer's stream from where reading started. */
  lemma {:induction false} ReadingIsStream(out: seq<byte>, from: nat, rs: seq<Got>)
    requires Reading(out, from, rs) && forall i | 0 <= i < |rs| :: rs[i].k <= rs[i].cap
    ensures from <= EndOf(from, rs) <= |out| + 1 && AllBytes(rs) == Between(out, from, EndOf(from, rs))
  {
    if rs != [] {
      ReadingIsStream(out, from, rs[..|rs| - 1]);
      OneMore(out, from, rs[|rs| - 1]);
    }
  }

  /** A result of 0, with room, means the whole stream was delivered. */
  lemma ZeroMeansAll(out: seq<byte>, from: nat, rs: seq<Got>)
    requires Reading(out, from, rs) && rs != [] && forall i | 0 <= i < |rs| :: rs[i].k <= rs[i].cap
    requires rs[|rs| - 1].r == 0 && rs[|rs| - 1].cap > 0
    ensures from <= |out| && AllBytes(rs) == out[from..]
  {
    ReadingIsStream(out, from, rs);
    ReadingIsStream(out, from, rs[..|rs| - 1]);
    OneMore(out, from, rs[|rs| - 1]);
  }

  /** Once the FIN was taken, alone or along with data, no later call returns 0 or data:
      where it came with data, the reader never sees the clean end of the stream. */
  lemma {:induction false} NothingAfterFin(out: seq<byte>, from: nat, rs: seq<Got>, i: nat, j: nat)
    requires Reading(out, from, rs) && i < j < |rs| && rs[i].pos2 == |out| + 1
    ensures rs[j].r == -1 && rs[j].pos2 == |out| + 1
    decreases |rs|
  {
    var n := |rs| - 1;
    if j < n {
      NothingAfterFin(out, from, rs[..n], i, j);
    } else if i < n - 1 {
      NothingAfterFin(out, from, rs[..n], i, n - 1);
    }
  }

  lemma {:induction false} ReadingAt(out: seq<byte>, from: nat, rs: seq<Got>, i: nat)
    requires Reading(out, from, rs) && i < |rs|
    ensures var x := rs[i]; Received(out, x.pos, x.pos2, x.cap, x.r, x.bytes, x.k)
    decreases |rs|
  {
    hide Received;
    if i < |rs| - 1 { ReadingAt(out, from, rs[..|rs| - 1], i); }
  }

  /** What the result that takes the FIN looks like, and that it is the only one that can be 0. */
  lemma OneEnd(out: seq<byte>, from: nat, rs: seq<Got>, i: nat, j: nat)
    requires Reading(out, from, rs) && i < |rs| && j < |rs| && rs[j].k <= rs[j].cap
    requires rs[i].pos <= |out| && rs[i].pos2 == |out| + 1
    ensures rs[j].r == 0 ==> j == i && rs[i].k == 0
    ensures rs[i].k == 0 ==> rs[i].r == 0
  {
    hide Reading;
    ReadingAt(out, from, rs, i);
    ReadingAt(out, from, rs, j);
    if rs[j].r == 0 {
      if i < j { NothingAfterFin(out, from, rs, i, j); }
      if j < i { NothingAfterFin(out, from, rs, j, i); }
    }
  }

  /** In a reading with room in which result `i` took the FIN, every byte was delivered, and the end
      of the stream was reported if and only if no data came along with the FIN. */
  lemma EndReportedIff(out: seq<byte>, from: nat, rs: seq<Got>, i: nat)
    requires Reading(out, from, rs) && i < |rs| && forall j | 0 <= j < |rs| :: rs[j].k <= rs[j].cap
    requires rs[i].pos <= |out| && rs[i].pos2 == |out| + 1
    ensures from <= |out| && AllBytes(rs) == out[from..]
    ensures (exists j :: 0 <= j < |rs| && rs[j].r == 0) <==> rs[i].k == 0
  {
    hide Reading, AllBytes;
    forall j | 0 <= j < |rs| ensures rs[j].r == 0 ==> rs[i].k == 0 { OneEnd(out, from, rs, i, j); }
    OneEnd(out, from, rs, i, i);
    ReadingIsStream(out, from, rs);
    if i < |rs| - 1 { NothingAfterFin(out, from, rs, i, |rs| - 1); }
    StartedBefore(out, from, rs, i);
  }

  lemma StartedBefore(out: seq<byte>, from: nat, rs: seq<Got>, i: nat)
    requires Reading(out, from, rs) && i < |rs| && forall j | 0 <= j < |rs| :: rs[j].k <= rs[j].cap
    ensures from <= rs[i].pos
    decreases |rs|
  {
    if i < |rs| - 1 {
      StartedBefore(out, from, rs[..|rs| - 1], i);
    } else {
      ReadingIsStream(out, from, rs[..i]);
    }
  }

  // ----- runs of single receives -----

  /** The peer's next `k` bytes reach the client, with the FIN if they are the last and it is sent along. */
  lemma NextHeard(p: Peer, c: Client, pos: nat, k: nat, fin: bool, rest: seq<Event>) returns (g: Seg, c1: Client)
    requires Hears(p, c, pos) && pos + k <= |p.out|
    requires c.script == [Say(pos, k, fin), Deliver(|c.net.p2c|)] + rest
    ensures Waited(p, c) == (Some(g), c1) && Hears(p, c1, pos) && c1.script == rest
    ensures PeerData(p, g) && g.num == c1.rcvNxt && g.data == p.out[pos..pos + k]
    ensures g.flags == if fin && pos + k == |p.out| then ACK + FIN else PSH_ACK
  {
    var m: nat := |c.net.p2c|;
    var flags: byte := if fin && pos + k == |p.out| then ACK + FIN else PSH_ACK;
    g := Seg(Add32(p.iss, 1 + pos), Cumulative(c.net), flags, p.out[pos..pos + k]);
    var n := c.net.(p2c := c.net.p2c + [g]);
    assert EnvStep(p, c.net, Say(pos, k, fin)) == n;
    WaitedHears(p, c, pos);
    c1 := c.(net := n, script := rest);
    hide Waited, EnvStep, PeerData;
    assert c.script == [Say(pos, k, fin)] + ([Deliver(m)] + rest);
    WaitGoesOn(p, c, Say(pos, k, fin), [Deliver(m)] + rest);
    WaitEnds(p, c.(net := n, script := [Deliver(m)] + rest), Deliver(m), rest);
  }

  lemma FlagsAre(fin: bool)
    ensures var flags: byte := if fin then ACK + FIN else PSH_ACK; Has(flags, FIN) == fin && !Has(flags, RST)
  {
  }

  lemma StartOf(s: seq<byte>, a: nat, k: nat, n: nat)
    requires n <= k && a + k <= |s|
    ensures s[a..a + k][..n] == s[a..a + n]
  {
  }

  /** A receive that gets the next `k` bytes. */
  lemma DataRun(p: Peer, c: Client, pos: nat, k: nat, fin: bool, cap: nat, budget: nat, rest: seq<Event>)
    returns (c2: Client)
    requires Hears(p, c, pos) && 0 < k && pos + k <= |p.out| && budget > 0
    requires c.script == [Say(pos, k, fin), Deliver(|c.net.p2c|)] + rest
    ensures var n := Min(k, cap); Recvd(p, c, cap, budget) == (n, p.out[pos..pos + n], c2) && c2.script == rest
    ensures Hears(p, c2, pos + k + if fin && pos + k == |p.out| then 1 else 0)
  {
    hide Hears, Has, Waited, TakenIn, PeerData;
    var g, c1 := NextHeard(p, c, pos, k, fin, rest);
    FlagsAre(fin && pos + k == |p.out|);
    c2 := DataTaken(c1, g);
    var pos2 := DataTakenHears(p, c1, pos, g);
    StartOf(p.out, pos, k, Min(k, cap));
    ScriptStays(c1, k);
    ScriptStays(TakenIn(c1, k), 1);
  }

  lemma ScriptStays(c: Client, n: nat)
    ensures TakenIn(c, n).script == c.script
  {
  }

  /** Past the FIN every receive times out or is reset. */
  lemma AfterFin(p: Peer, c: Client, cap: nat, budget: nat)
    requires Hears(p, c, |p.out| + 1)
    ensures Recvd(p, c, cap, budget).0 == -1 && Hears(p, Recvd(p, c, cap, budget).2, |p.out| + 1)
  {
    hide Hears, Recvd;
    var pos2, k := RecvdHears(p, c, |p.out| + 1, cap, budget);
  }

  /** For every client with bytes still to come, a run in which they come together with the FIN:
      they are returned, and from then on, whatever happens, a receive gives -1 and never 0. */
  lemma EndIsMissed(p: Peer, c: Client, pos: nat, cap: nat, budget: nat, rest: seq<Event>, cap2: nat, budget2: nat)
    requires Hears(p, c, pos) && pos < |p.out| <= pos + cap && budget > 0
    requires c.script == [Say(pos, |p.out| - pos, true), Deliver(|c.net.p2c|)] + rest
    ensures var (r, bytes, c2) := Recvd(p, c, cap, budget);
            && r == |p.out| - pos && bytes == p.out[pos..] && c2.script == rest
            && Hears(p, c2, |p.out| + 1) && Recvd(p, c2, cap2, budget2).0 == -1
  {
    hide Hears, Recvd;
    var c2 := DataRun(p, c, pos, |p.out| - pos, true, cap, budget, rest);
    AfterFin(p, c2, cap2, budget2);
  }

  /** With no room, bytes that come are reported as 0 and are gone. */
  lemma NoRoomLooksLikeEnd(p: Peer, c: Client, pos: nat, k: nat, budget: nat, rest: seq<Event>)
    requires Hears(p, c, pos) && 0 < k && pos + k <= |p.out| && budget > 0
    requires c.script == [Say(pos, k, false), Deliver(|c.net.p2c|)] + rest
    ensures var (r, bytes, c2) := Recvd(p, c, 0, budget); r == 0 && bytes == [] && Hears(p, c2, pos + k)
  {
    hide Hears, Recvd;
    var c2 := DataRun(p, c, pos, k, false, 0, budget, rest);
  }
}
