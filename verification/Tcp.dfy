/** The TCP client with its fields and loops: each method does what TcpClient says, run against
    the peer and the network of TcpNet. */
module Tcp {
  import opened Bytes
  import opened TcpNet
  import opened TcpClient
  import opened Wrappers

  class Socket {
    const peer: Peer

    var sndNxt: nat
    var rcvNxt: nat
    var open: bool

    var net: Net
    /** What is going to happen outside, in order. */
    var script: seq<Event>

    /** First sequence number after the SYN, the bytes known to be delivered, and those that were
        sent last and given up on. */
    ghost var base: nat
    ghost var done: seq<byte>
    ghost var pend: seq<byte>
    /** The position in the peer's stream (one past its end once the FIN is taken). */
    ghost var pos: nat
    /** Every send so far began with the bytes outstanding and wrapped no sequence number. */
    ghost var sound: bool

    function Now(): Client
      reads this
    {
      Client(net, script, sndNxt, rcvNxt)
    }

    ghost predicate Valid()
      reads this
    {
      open ==> Hears(peer, Now(), pos) && (sound ==> InStep(peer, Now(), base, done, pend))
    }

    constructor (p: Peer, events: seq<Event>)
      ensures peer == p && script == events && !open && net == Net([], [], false, 0, [])
    {
      peer, script, open := p, events, false;
      net := Net([], [], false, 0, []);
      sndNxt, rcvNxt, base, done, pend, pos, sound := 0, 0, 0, [], [], 0, true;
    }

    method Tx(g: Seg)
      modifies this`net
      ensures Now() == Sent(old(Now()), g)
    {
      net := net.(c2p := net.c2p + [g]);
    }

    method Wait() returns (g: Option<Seg>)
      modifies this`net, this`script
      ensures (g, Now()) == Waited(peer, old(Now()))
    {
      hide EnvStep;
      while script != []
        invariant Waited(peer, Now()) == Waited(peer, old(Now()))
        decreases |script|
      {
        var e := script[0];
        script := script[1..];
        if e.Timeout? {
          return None;
        }
        if e.Deliver? && e.j < |net.p2c| {
          return Some(net.p2c[e.j]);
        }
        net := EnvStep(peer, net, e);
      }
      return None;
    }

    // ----- connecting -----

    /** The three-way handshake. On success both sides agree where the streams start. */
    method Connect(iss: nat) returns (r: int)
      requires peer.iss < TWO32 && |peer.out| + 1 < TWO32 && iss < TWO32 && net == Net([], [], false, 0, [])
      modifies this
      ensures (r == 0 || r == -1) && (r == 0 <==> open)
      ensures (open, Now()) == Connected(peer, old(Now()).(sndNxt := Add32(iss, 1)), iss, 4)
      ensures Valid() && sound && base == Add32(iss, 1) && done == pend == net.got == [] && pos == 0
      ensures r == 0 ==> Acknowledged(Now()) && sndNxt == base && net.up && StartsAt(net, base)
    {
      hide NetOk, TriedSyn, InStep, Hears, Acknowledged, StartsAt, Add32;
      NothingSent(peer, Add32(iss, 1));
      sndNxt, open := Add32(iss, 1), false;
      base, done, pend, pos, sound := Add32(iss, 1), [], [], 0, true;
      ghost var start := Now();
      ConnectKeeps(peer, start, iss, 4);
      var try := 0;
      while try < 4 && !open
        invariant 0 <= try <= 4 && base == start.sndNxt && done == pend == [] && pos == 0 && sound
        invariant Connected(peer, start, iss, 4) == if open then (true, Now()) else Connected(peer, Now(), iss, 4 - try)
      {
        open := Handshake(iss);
        try := try + 1;
      }
      if open { Agreed(peer, Now(), base); }
      return if open then 0 else -1;
    }

    static lemma Agreed(p: Peer, c: Client, base: nat)
      requires InStep(p, c, base, [], [])
      ensures c.sndNxt == base && c.net.up && StartsAt(c.net, base)
    {
    }

    /** One SYN and one wait for its answer. */
    method Handshake(iss: nat) returns (ok: bool)
      modifies this`net, this`script, this`rcvNxt
      ensures (ok, Now()) == TriedSyn(peer, old(Now()), iss)
    {
      hide Waited, Answers, Add32;
      Tx(Seg(iss, 0, SYN, []));
      var g := Wait();
      if g.Some? && Answers(g.value, iss) {
        rcvNxt := Add32(g.value.num, 1);
        Tx(Seg(sndNxt, rcvNxt, ACK, []));
        return true;
      }
      return false;
    }

    // ----- sending -----

    /** Sends `data`. As long as every send begins with the bytes outstanding from a failed one, if
        any, and wraps no sequence number, success means the peer holds exactly what was delivered
        before and then the data, once each; in any case it holds a beginning of that. Receiving
        stays right either way. */
    method Send(data: seq<byte>) returns (r: int)
      requires Valid()
      modifies this
      ensures Valid() && open == old(open) && base == old(base) && (r == 0 || r == -1)
      ensures if old(open) then (r == 0, Now()) == SentAll(peer, old(Now()), data, 0)
              else r == -1 && Now() == old(Now())
      ensures sound == (old(sound) && (old(open) ==> Ready(base, old(done), old(pend), data)))
      ensures open && sound && data != [] ==> old(done) <= done && done + pend <= old(done) + data
      ensures open && sound ==> done <= net.got <= done + pend
      ensures open && sound && data != [] && r == 0 ==> done == net.got == old(done) + data && pend == []
      ensures data == [] ==> Now() == old(Now()) && done == old(done) && pend == old(pend)
      ensures old(net).got <= net.got && (r == 0 && data != [] ==> Acknowledged(Now()))
      ensures old(pos) <= pos && (pos != old(pos) ==> pos <= |peer.out|)
    {
      hide InStep, Hears, Acknowledged, SentAll, Ready;
      if !open {
        return -1;
      }
      EmptyIsReady(base, done, pend);
      sound := sound && Ready(base, done, pend, data);
      if data != [] {
        ghost var start := Now();
        pos := AllHears(peer, start, pos, data, 0);
        if sound { done, pend := ReadyKeeps(peer, start, base, done, pend, data); }
      }
      var ok := SendParts(data);
      NothingToSend(peer, old(Now()), data);
      if sound { HoldsBetween(peer, Now(), base, done, pend); }
      return if ok then 0 else -1;
    }

    static lemma EmptyIsReady(base: nat, done: seq<byte>, pend: seq<byte>)
      ensures Ready(base, done, pend, [])
    {
    }

    static lemma NothingToSend(p: Peer, c: Client, data: seq<byte>)
      ensures data == [] ==> SentAll(p, c, data, 0) == (true, c)
    {
    }

    static lemma ReadyKeeps(p: Peer, c: Client, base: nat, done: seq<byte>, pend: seq<byte>, data: seq<byte>)
      returns (done2: seq<byte>, pend2: seq<byte>)
      requires InStep(p, c, base, done, pend) && Ready(base, done, pend, data) && data != []
      ensures var (ok, c2) := SentAll(p, c, data, 0);
              && InStep(p, c2, base, done2, pend2) && done <= done2 && done2 + pend2 <= done + data
              && (ok ==> done2 == c2.net.got == done + data && pend2 == [])
    {
      hide InStep, SentAll;
      assert done + data[..0] == done;
      done2, pend2 := AllKeeps(p, c, base, done, pend, done, data, 0);
    }

    static lemma HoldsBetween(p: Peer, c: Client, base: nat, done: seq<byte>, pend: seq<byte>)
      requires InStep(p, c, base, done, pend)
      ensures done <= c.net.got <= done + pend
    {
    }

    /** The loop over the chunks. */
    method SendParts(data: seq<byte>) returns (ok: bool)
      modifies this`net, this`script, this`sndNxt, this`rcvNxt
      ensures (ok, Now()) == SentAll(peer, old(Now()), data, 0)
    {
      hide SentChunk, Part;
      var off := 0;
      while off < |data|
        invariant off <= |data| && SentAll(peer, Now(), data, off) == SentAll(peer, old(Now()), data, 0)
      {
        ok := SendChunk(Part(data, off));
        if !ok {
          return false;
        }
        off := off + PartSize(data, off);
      }
      return true;
    }

    /** One chunk, sent up to four times. */
    method SendChunk(c: seq<byte>) returns (ok: bool)
      modifies this`net, this`script, this`sndNxt, this`rcvNxt
      ensures (ok, Now()) == SentChunk(peer, old(Now()), c, 4)
    {
      hide TriedChunk;
      ok := false;
      var try := 0;
      while try < 4 && !ok
        invariant 0 <= try <= 4
        invariant SentChunk(peer, old(Now()), c, 4) == if ok then (true, Now()) else SentChunk(peer, Now(), c, 4 - try)
      {
        ok := TryChunk(c);
        try := try + 1;
      }
    }

    /** Sends the chunk once and waits once for its acknowledgment. */
    method TryChunk(c: seq<byte>) returns (ok: bool)
      modifies this`net, this`script, this`sndNxt, this`rcvNxt
      ensures (ok, Now()) == TriedChunk(peer, old(Now()), c)
    {
      hide Waited, Add32;
      Tx(Seg(sndNxt, rcvNxt, PSH_ACK, c));
      var w := Wait();
      if w.Some? && w.value.ack >= Add32(sndNxt, |c|) {
        var g := w.value;
        sndNxt := g.ack;
        if |g.data| > 0 && g.num == rcvNxt {
          rcvNxt := Add32(rcvNxt, |g.data|);
        }
        Tx(Seg(sndNxt, rcvNxt, ACK, []));
        return true;
      }
      return false;
    }

    // ----- receiving -----

    /** Receives the next bytes of the peer's stream; `budget` is how many waits fit before
        the deadline. 0 is the end of the stream. */
    method Recv(buf: array<byte>, cap: nat, budget: nat) returns (r: int, ghost k: nat)
      requires Valid() && cap <= buf.Length
      modifies this`net, this`script, this`rcvNxt, this`pos, buf
      ensures Valid() && r <= cap && old(net).got <= net.got
      ensures var got := if r > 0 then buf[..r] else [];
              && Received(peer.out, old(pos), pos, cap, r, got, k)
              && if open then (r, got, Now()) == Recvd(peer, old(Now()), cap, budget)
                 else r == -1 && Now() == old(Now())
      ensures open && r >= 0 ==> Acknowledged(Now())
    {
      hide InStep, Hears, Acknowledged, Received, Recvd;
      NothingReceived(peer.out, pos, cap);
      if !open {
        return -1, 0;
      }
      ghost var start := Now();
      pos, k := RecvdHears(peer, start, pos, cap, budget);
      if sound { RecvdKeeps(peer, start, base, done, pend, cap, budget); }
      r := Take(buf, cap, budget);
      FitsRoom(peer.out, old(pos), pos, cap, r, if r > 0 then buf[..r] else [], k);
    }

    static lemma FitsRoom(out: seq<byte>, pos: nat, pos2: nat, cap: nat, r: int, bytes: seq<byte>, k: nat)
      requires Received(out, pos, pos2, cap, r, bytes, k)
      ensures r <= cap
    {
    }

    /** The loop of waits. */
    method Take(buf: array<byte>, cap: nat, budget: nat) returns (r: int)
      requires cap <= buf.Length
      modifies this`net, this`script, this`rcvNxt, buf
      ensures r <= cap && (r, if r > 0 then buf[..r] else [], Now()) == Recvd(peer, old(Now()), cap, budget)
    {
      hide Waited, Has, TakenIn, DataTaken;
      for t := 0 to budget
        invariant Recvd(peer, Now(), cap, budget - t) == Recvd(peer, old(Now()), cap, budget)
      {
        var w := Wait();
        if w.None? {
          continue;
        }
        var g := w.value;
        if Has(g.flags, RST) {
          return -1;
        }
        if g.num == rcvNxt && |g.data| > 0 {
          var n := Min(|g.data|, cap);
          CopyTo(buf, g.data, n);
          TakeData(g);
          return n;
        }
        if Has(g.flags, FIN) && g.num == rcvNxt && |g.data| == 0 {
          TakeIn(1);
          return 0;
        }
        Tx(Seg(sndNxt, rcvNxt, ACK, []));
      }
      return -1;
    }

    /** Moves on past the segment's data, and past a FIN that came along. */
    method TakeData(g: Seg)
      modifies this`net, this`rcvNxt
      ensures Now() == DataTaken(old(Now()), g)
    {
      hide Has, TakenIn;
      TakeIn(|g.data|);
      if Has(g.flags, FIN) {
        TakeIn(1);
      }
    }

    /** Moves on in the peer's stream and says so. */
    method TakeIn(n: nat)
      modifies this`rcvNxt, this`net
      ensures Now() == TakenIn(old(Now()), n)
    {
      hide Add32;
      rcvNxt := Add32(rcvNxt, n);
      Tx(Seg(sndNxt, rcvNxt, ACK, []));
    }

    method CopyTo(buf: array<byte>, data: seq<byte>, n: nat)
      requires n <= buf.Length && n <= |data|
      modifies buf
      ensures buf[..n] == data[..n]
    {
      for i := 0 to n
        invariant buf[..i] == data[..i]
      {
        buf[i] := data[i];
      }
    }
  }
}
