/** TCP segments in IPv4 packets in Ethernet frames, as the client builds and reads them. */
module Frames {
  import opened Bytes
  import opened Checksum
  import opened Wrappers

  type Addr = a: seq<byte> | |a| == 4 witness [0, 0, 0, 0]
  type Mac = a: seq<byte> | |a| == 6 witness [0, 0, 0, 0, 0, 0]
  type Buffer = a: seq<byte> | |a| == 2048 witness seq(2048, _ => 0)

  const ETH := 14
  const IP_HEADER := 20
  const TCP_HEADER := 20

  /** Who sends to whom. */
  datatype Ends = Ends(src: Addr, dst: Addr, sport: nat, dport: nat)

  predicate EndsOk(e: Ends) { e.sport < TWO16 && e.dport < TWO16 }

  datatype Fields = Fields(num: nat, ack: nat, flags: byte, data: seq<byte>)

  predicate FieldsOk(f: Fields) { f.num < TWO32 && f.ack < TWO32 && |f.data| <= 1460 }

  // ----- layout -----

  function EthHeader(dst: Mac, src: Mac, kind: nat): (h: seq<byte>)
    requires kind < TWO16
    ensures |h| == ETH
  {
    dst + src + ToBe16(kind)
  }

  /** The first ten bytes of an IPv4 header without options (RFC 791, section 3.1). */
  function IpFront(total: nat, id: nat, proto: byte): (h: seq<byte>)
    requires total < TWO16 && id < TWO16
    ensures |h| == 10
  {
    [0x45, 0] + ToBe16(total) + ToBe16(id) + ToBe16(0x4000) + [64, proto]
  }

  function IpHeader(total: nat, id: nat, proto: byte, src: Addr, dst: Addr): (h: seq<byte>)
    requires total < TWO16 && id < TWO16
    ensures |h| == IP_HEADER
  {
    var front := IpFront(total, id, proto);
    front + ToBe16(Sum(front + [0, 0] + (src + dst))) + (src + dst)
  }

  function IpPacket(id: nat, proto: byte, src: Addr, dst: Addr, payload: seq<byte>): seq<byte>
    requires IP_HEADER + |payload| < TWO16 && id < TWO16
  {
    IpHeader(IP_HEADER + |payload|, id, proto, src, dst) + payload
  }

  /** The first sixteen bytes of a TCP header without options (RFC 9293, section 3.1). */
  function TcpFront(e: Ends, f: Fields): (h: seq<byte>)
    requires EndsOk(e) && FieldsOk(f)
    ensures |h| == 16
  {
    ToBe16(e.sport) + ToBe16(e.dport) + ToBe32(f.num) + ToBe32(f.ack) + [0x50, f.flags] + ToBe16(0xFFFF)
  }

  function TcpSegment(e: Ends, f: Fields): (s: seq<byte>)
    requires EndsOk(e) && FieldsOk(f)
    ensures |s| == TCP_HEADER + |f.data|
  {
    var front, pseudo := TcpFront(e, f), Pseudo(e.src, e.dst, TCP_HEADER + |f.data|);
    front + ToBe16(Sum(pseudo + (front + [0, 0] + ([0, 0] + f.data)))) + ([0, 0] + f.data)
  }

  function Frame(to: Mac, from: Mac, id: nat, e: Ends, f: Fields): seq<byte>
    requires EndsOk(e) && FieldsOk(f) && id < TWO16
  {
    EthHeader(to, from, 0x0800) + IpPacket(id, 6, e.src, e.dst, TcpSegment(e, f))
  }

  // ----- checksums -----

  /** A receiver that checks the IP header finds zero. */
  lemma IpHeaderChecks(total: nat, id: nat, proto: byte, src: Addr, dst: Addr)
    requires total < TWO16 && id < TWO16
    ensures Sum(IpHeader(total, id, proto, src, dst)) == 0
  {
    FilledChecks(IpFront(total, id, proto), src + dst);
  }

  /** And so does one that checks the segment with its pseudo-header. */
  lemma SegmentChecks(e: Ends, f: Fields)
    requires EndsOk(e) && FieldsOk(f)
    ensures Sum(Pseudo(e.src, e.dst, TCP_HEADER + |f.data|) + TcpSegment(e, f)) == 0
  {
    var front, pseudo := TcpFront(e, f), Pseudo(e.src, e.dst, TCP_HEADER + |f.data|);
    hide Sum, TcpFront, Pseudo;
    var rest: seq<byte> := [0, 0] + f.data;
    FilledChecks(pseudo + front, rest);
    assert pseudo + (front + [0, 0] + rest) == pseudo + front + [0, 0] + rest;
    var c := ToBe16(Sum(pseudo + front + [0, 0] + rest));
    assert pseudo + (front + c + rest) == pseudo + front + c + rest;
  }

  // ----- bytes on the wire -----

  /** Big-endian words at an offset. */
  predicate Word(f: seq<byte>, o: nat, v: nat) {
    o + 2 <= |f| && 0x100 * (f[o] as int) + f[o + 1] as int == v
  }

  predicate Long(f: seq<byte>, o: nat, v: nat) {
    && o + 4 <= |f|
    && 0x100_0000 * (f[o] as int) + 0x1_0000 * (f[o + 1] as int) + 0x100 * (f[o + 2] as int) + f[o + 3] as int == v
  }

  /** An Ethernet frame with an IPv4 packet, by its bytes: destination and source first, then the type;
      no options, not to be fragmented, 64 hops. */
  predicate IpBytes(f: seq<byte>, to: Mac, from: Mac, id: nat, proto: byte, src: Addr, dst: Addr, payload: seq<byte>) {
    && |f| >= 34 && f[0..6] == to && f[6..12] == from && f[12] == 0x08 && f[13] == 0
    && f[14] == 0x45 && f[15] == 0 && Word(f, 16, 20 + |payload|) && Word(f, 18, id)
    && f[20] == 0x40 && f[21] == 0 && f[22] == 64 && f[23] == proto && Sum(f[14..34]) == 0
    && f[26..30] == src && f[30..34] == dst && f[34..] == payload
  }

  /** The TCP segment in it: ports, numbers, flags, the largest window, nothing urgent, and the data. */
  predicate TcpBytes(f: seq<byte>, e: Ends, num: nat, ack: nat, flags: byte, data: seq<byte>) {
    && |f| == 54 + |data| < TWO16 && Word(f, 34, e.sport) && Word(f, 36, e.dport)
    && Long(f, 38, num) && Long(f, 42, ack)
    && f[46] == 0x50 && f[47] == flags && f[48] == 0xFF && f[49] == 0xFF && f[52] == 0 && f[53] == 0
    && f[54..] == data
    && Sum(e.src + e.dst + [0, 6, (20 + |data|) / 256, (20 + |data|) % 256] + f[34..]) == 0
  }

  lemma TailIs(f: seq<byte>, to: Mac, from: Mac, id: nat, src: Addr, dst: Addr, payload: seq<byte>)
    requires IpBytes(f, to, from, id, 6, src, dst, payload)
    ensures |f| >= 34 && f[34..] == payload
  {
  }

  /** What stands in the parts of a frame. */
  lemma IpFrameBytes(to: Mac, from: Mac, id: nat, proto: byte, src: Addr, dst: Addr, payload: seq<byte>)
    requires IP_HEADER + |payload| < TWO16 && id < TWO16
    ensures IpBytes(EthHeader(to, from, 0x0800) + IpPacket(id, proto, src, dst, payload),
                    to, from, id, proto, src, dst, payload)
  {
    hide Sum;
    var total := IP_HEADER + |payload|;
    var eth, h := EthHeader(to, from, 0x0800), IpHeader(total, id, proto, src, dst);
    var f := eth + (h + payload);
    EthBytes(to, from);
    IpHeaderBytes(total, id, proto, src, dst);
    IpHeaderChecks(total, id, proto, src, dst);
    hide EthHeader, IpHeader;
    Inside(eth, h, payload);
    assert f[0..6] == eth[0..6] && f[6..12] == eth[6..12] && f[12] == eth[12] && f[13] == eth[13];
    assert forall i | 0 <= i < 20 :: f[14 + i] == h[i];
    assert f[26..30] == h[12..16] && f[30..34] == h[16..20];
  }

  lemma Inside(a: seq<byte>, b: seq<byte>, c: seq<byte>)
    ensures (a + (b + c))[|a|..|a| + |b|] == b && (a + (b + c))[|a| + |b|..] == c
    ensures forall i | 0 <= i < |b| :: (a + (b + c))[|a| + i] == b[i]
  {
  }

  lemma EthBytes(to: Mac, from: Mac)
    ensures var h := EthHeader(to, from, 0x0800); h[0..6] == to && h[6..12] == from && h[12] == 0x08 && h[13] == 0
  {
  }

  lemma IpHeaderBytes(total: nat, id: nat, proto: byte, src: Addr, dst: Addr)
    requires total < TWO16 && id < TWO16
    ensures var h := IpHeader(total, id, proto, src, dst);
            && h[0] == 0x45 && h[1] == 0 && Word(h, 2, total) && Word(h, 4, id) && h[6] == 0x40 && h[7] == 0
            && h[8] == 64 && h[9] == proto && h[12..16] == src && h[16..20] == dst
  {
    hide Sum;
    ToBe16Bytes(total);
    ToBe16Bytes(id);
    var front, h := IpFront(total, id, proto), IpHeader(total, id, proto, src, dst);
    assert front[2] == ToBe16(total)[0] && front[3] == ToBe16(total)[1];
    assert front[4] == ToBe16(id)[0] && front[5] == ToBe16(id)[1];
    assert forall i | 0 <= i < 10 :: h[i] == front[i];
  }

  lemma TcpSegmentBytes(e: Ends, f: Fields)
    requires EndsOk(e) && FieldsOk(f)
    ensures var s := TcpSegment(e, f);
            && Word(s, 0, e.sport) && Word(s, 2, e.dport) && Long(s, 4, f.num) && Long(s, 8, f.ack)
            && s[12] == 0x50 && s[13] == f.flags && s[14] == 0xFF && s[15] == 0xFF && s[18] == 0 && s[19] == 0
            && s[20..] == f.data
  {
    hide Sum, Pseudo;
    ToBe16Bytes(e.sport);
    ToBe16Bytes(e.dport);
    ToBe32Bytes(f.num);
    ToBe32Bytes(f.ack);
    var front, s := TcpFront(e, f), TcpSegment(e, f);
    assert front[0] == ToBe16(e.sport)[0] && front[1] == ToBe16(e.sport)[1];
    assert front[2] == ToBe16(e.dport)[0] && front[3] == ToBe16(e.dport)[1];
    assert forall i | 0 <= i < 4 :: front[4 + i] == ToBe32(f.num)[i] && front[8 + i] == ToBe32(f.ack)[i];
    assert front[14] == ToBe16(0xFFFF)[0] && front[15] == ToBe16(0xFFFF)[1];
    hide TcpFront;
    assert forall i | 0 <= i < 16 :: s[i] == front[i];
  }

  lemma TcpFrameBytes(to: Mac, from: Mac, id: nat, e: Ends, f: Fields)
    requires EndsOk(e) && FieldsOk(f) && id < TWO16
    ensures IpBytes(Frame(to, from, id, e, f), to, from, id, 6, e.src, e.dst, TcpSegment(e, f))
    ensures TcpBytes(Frame(to, from, id, e, f), e, f.num, f.ack, f.flags, f.data)
  {
    hide Sum, EthHeader, IpPacket, TcpSegment, Pseudo;
    var s, w := TcpSegment(e, f), Frame(to, from, id, e, f);
    IpFrameBytes(to, from, id, 6, e.src, e.dst, s);
    TcpSegmentBytes(e, f);
    SegmentChecks(e, f);
    PseudoBytes(e, TCP_HEADER + |f.data|);
    assert w == w[..34] + s;
    assert forall i | 0 <= i < |s| :: w[34 + i] == s[i];
    assert w[54..] == s[20..];
  }

  lemma PseudoBytes(e: Ends, len: nat)
    requires len < TWO16
    ensures Pseudo(e.src, e.dst, len) == e.src + e.dst + [0, 6, len / 256, len % 256]
  {
  }

  // ----- reading -----

  /** Where the payload of an IP packet for us lies in the receive buffer. */
  datatype Span = Span(off: nat, len: nat)

  /** ip_recv, for one received frame of `rl` bytes; bytes past them are left over from earlier ones. */
  function IpAccept(rx: Buffer, rl: nat, proto: byte, me: Addr): Option<Span> {
    if Be16(rx, 12) == 0x0800 && rl >= ETH + IP_HEADER then
      var ihl, total := (rx[14] as int % 16) * 4, Be16(rx, 16);
      if rx[23] == proto && rx[30..34] == me && ihl >= 20 && total <= rl - ETH
      then Some(Span(ETH + ihl, (total - ihl) % TWO16))
      else None
    else None
  }

  datatype Heard = Heard(num: nat, ack: nat, flags: byte, off: nat, len: nat)

  /** tcp_wait, for one packet: from the peer's port to ours, with a sane header. */
  function TcpAccept(rx: Buffer, s: Span, port: nat, sport: nat): Option<Heard>
    requires s.off <= 74
  {
    if s.len < TCP_HEADER then None
    else
      var hlen := (rx[s.off + 12] as int / 16) * 4;
      if hlen >= 20 && Be16(rx, s.off) == port && Be16(rx, s.off + 2) == sport && hlen <= s.len
      then Some(Heard(Be32(rx, s.off + 4), Be32(rx, s.off + 8), rx[s.off + 13], s.off + hlen, s.len - hlen))
      else None
  }

  lemma Be16In(s: seq<byte>, a: nat, t: seq<byte>, o: nat)
    requires a + |t| <= |s| && s[a..a + |t|] == t && o + 2 <= |t|
    ensures Be16(s, a + o) == Be16(t, o)
  {
    assert s[a + o] == s[a..a + |t|][o] && s[a + o + 1] == s[a..a + |t|][o + 1];
  }

  lemma Be32In(s: seq<byte>, a: nat, t: seq<byte>, o: nat)
    requires a + |t| <= |s| && s[a..a + |t|] == t && o + 4 <= |t|
    ensures Be32(s, a + o) == Be32(t, o)
  {
    Be16In(s, a, t, o);
    Be16In(s, a, t, o + 2);
  }

  /** The parts of a received frame. */
  lemma Parts(rx: seq<byte>, e: seq<byte>, h: seq<byte>, front: seq<byte>, mid: seq<byte>, data: seq<byte>,
              rest: seq<byte>)
    requires |e| == 14 && |h| == 20 && |front| == 16 && |mid| == 4
    requires rx == e + (h + (front + mid + data)) + rest
    ensures rx[..14] == e && rx[14..34] == h && rx[34..50] == front && rx[54..54 + |data|] == data
  {
    var x := 54 + |data|;
    assert rx[..x] == e + (h + (front + mid + data));
    assert rx[14..x] == h + (front + mid + data);
    assert rx[34..x] == front + mid + data;
  }

  lemma ReadEth(rx: Buffer, to: Mac, from: Mac)
    requires rx[..14] == EthHeader(to, from, 0x0800)
    ensures Be16(rx, 12) == 0x0800
  {
    var h := EthHeader(to, from, 0x0800);
    assert h[12..14] == ToBe16(0x0800);
    Be16In(h, 12, ToBe16(0x0800), 0);
    Be16In(rx, 0, h, 12);
  }

  lemma ReadIp(rx: Buffer, total: nat, id: nat, proto: byte, src: Addr, dst: Addr)
    requires total < TWO16 && id < TWO16 && rx[14..34] == IpHeader(total, id, proto, src, dst)
    ensures rx[14] == 0x45 && Be16(rx, 16) == total && rx[23] == proto && rx[30..34] == dst
  {
    var h, front := IpHeader(total, id, proto, src, dst), IpFront(total, id, proto);
    assert h[..10] == front && h[16..20] == dst;
    assert front[2..4] == ToBe16(total);
    hide Sum;
    Be16In(front, 2, ToBe16(total), 0);
    Be16In(h, 0, front, 2);
    Be16In(rx, 14, h, 2);
    assert rx[14] == h[0] == front[0] && rx[23] == h[9] == front[9];
    assert rx[30..34] == rx[14..34][16..20];
  }

  lemma ReadTcp(rx: Buffer, e: Ends, f: Fields)
    requires EndsOk(e) && FieldsOk(f) && rx[34..50] == TcpFront(e, f)
    ensures Be16(rx, 34) == e.sport && Be16(rx, 36) == e.dport && Be32(rx, 38) == f.num && Be32(rx, 42) == f.ack
    ensures rx[46] == 0x50 && rx[47] == f.flags
  {
    var h := TcpFront(e, f);
    assert h[0..2] == ToBe16(e.sport) && h[2..4] == ToBe16(e.dport);
    assert h[4..8] == ToBe32(f.num) && h[8..12] == ToBe32(f.ack) && h[12] == 0x50 && h[13] == f.flags;
    hide TcpFront;
    Be16In(h, 0, ToBe16(e.sport), 0);
    Be16In(h, 2, ToBe16(e.dport), 0);
    Be32In(h, 4, ToBe32(f.num), 0);
    Be32In(h, 8, ToBe32(f.ack), 0);
    Be16In(rx, 34, h, 0);
    Be16In(rx, 34, h, 2);
    Be32In(rx, 34, h, 4);
    Be32In(rx, 34, h, 8);
    assert rx[46] == rx[34..50][12] && rx[47] == rx[34..50][13];
  }

  /** A frame is read back to exactly what it was built from, by the one it is addressed
      to, whatever padding Ethernet added and whatever the buffer held before. */
  lemma RoundTrip(rx: Buffer, to: Mac, from: Mac, id: nat, e: Ends, f: Fields, pad: nat, rest: seq<byte>)
    requires EndsOk(e) && FieldsOk(f) && id < TWO16 && pad <= |rest|
    requires rx == Frame(to, from, id, e, f) + rest
    ensures var rl := |Frame(to, from, id, e, f)| + pad;
            var s := IpAccept(rx, rl, 6, e.dst);
            && s == Some(Span(34, TCP_HEADER + |f.data|))
            && TcpAccept(rx, s.value, e.sport, e.dport) == Some(Heard(f.num, f.ack, f.flags, 54, |f.data|))
            && rx[54..54 + |f.data|] == f.data
  {
    var total := IP_HEADER + TCP_HEADER + |f.data|;
    var eth, h, front := EthHeader(to, from, 0x0800), IpHeader(total, id, 6, e.src, e.dst), TcpFront(e, f);
    var seg := TcpSegment(e, f);
    var mid := seg[16..20];
    assert seg == front + mid + f.data;
    hide EthHeader, IpHeader, TcpFront, TcpSegment, Be16, Be32, IpAccept, TcpAccept;
    assert |Frame(to, from, id, e, f)| == ETH + total;
    Parts(rx, eth, h, front, mid, f.data, rest);
    ReadEth(rx, to, from);
    ReadIp(rx, total, id, 6, e.src, e.dst);
    ReadTcp(rx, e, f);
    IpTaken(rx, ETH + total + pad, total, e.dst);
    TcpTaken(rx, e, f);
  }

  /** A packet with options in either header, by its bytes: they are skipped, and what follows is heard. */
  lemma OptionsSkipped(rx: Buffer, rl: nat, n: nat, m: nat, total: nat, me: Addr, e: Ends, num: nat, ack: nat)
    requires n <= 10 && m <= 10 && 40 + 4 * n + 4 * m <= total < TWO16 && 14 + total <= rl <= 2048
    requires rx[12] == 0x08 && rx[13] == 0 && rx[14] == 0x45 + n && Word(rx, 16, total)
    requires rx[23] == 6 && rx[30..34] == me
    requires var o := 34 + 4 * n;
             && Word(rx, o, e.sport) && Word(rx, o + 2, e.dport) && Long(rx, o + 4, num) && Long(rx, o + 8, ack)
             && 0x50 + 0x10 * m <= rx[o + 12] as int < 0x60 + 0x10 * m
    ensures var o := 34 + 4 * n;
            && IpAccept(rx, rl, 6, me) == Some(Span(o, total - 20 - 4 * n))
            && TcpAccept(rx, Span(o, total - 20 - 4 * n), e.sport, e.dport)
               == Some(Heard(num, ack, rx[o + 13], o + 20 + 4 * m, total - 40 - 4 * n - 4 * m))
  {
    var o := 34 + 4 * n;
    assert Be16(rx, 12) == 0x0800 && Be16(rx, 16) == total;
    assert IpAccept(rx, rl, 6, me) == Some(Span(o, total - 20 - 4 * n));
    assert (rx[o + 12] as int / 16) == 5 + m;
    assert Be16(rx, o) == e.sport && Be16(rx, o + 2) == e.dport && Be32(rx, o + 4) == num && Be32(rx, o + 8) == ack;
  }

  /** Nobody else hears it: not another protocol, address or port, and not when it is cut short. */
  lemma HeardOnlyBy(rx: Buffer, to: Mac, from: Mac, id: nat, e: Ends, f: Fields, rest: seq<byte>, rl: nat, proto: byte,
                    me: Addr, port: nat, sport: nat)
    requires EndsOk(e) && FieldsOk(f) && id < TWO16 && rl <= 2048
    requires rx == Frame(to, from, id, e, f) + rest
    ensures IpAccept(rx, rl, proto, me).Some? <==>
            rl >= |Frame(to, from, id, e, f)| && proto == 6 && me == e.dst
    ensures TcpAccept(rx, Span(34, TCP_HEADER + |f.data|), port, sport).Some? <==> port == e.sport && sport == e.dport
  {
    var total := IP_HEADER + TCP_HEADER + |f.data|;
    var eth, h, front := EthHeader(to, from, 0x0800), IpHeader(total, id, 6, e.src, e.dst), TcpFront(e, f);
    var seg := TcpSegment(e, f);
    var mid := seg[16..20];
    assert seg == front + mid + f.data;
    hide EthHeader, IpHeader, TcpFront, TcpSegment, Be16, Be32;
    assert |Frame(to, from, id, e, f)| == ETH + total;
    Parts(rx, eth, h, front, mid, f.data, rest);
    ReadEth(rx, to, from);
    ReadIp(rx, total, id, 6, e.src, e.dst);
    ReadTcp(rx, e, f);
  }

  lemma IpTaken(rx: Buffer, rl: nat, total: nat, me: Addr)
    requires 20 <= total < TWO16 && total <= rl - ETH && rl >= ETH + IP_HEADER
    requires Be16(rx, 12) == 0x0800 && rx[14] == 0x45 && Be16(rx, 16) == total && rx[23] == 6 && rx[30..34] == me
    ensures IpAccept(rx, rl, 6, me) == Some(Span(34, total - IP_HEADER))
  {
    hide Be16;
  }

  lemma TcpTaken(rx: Buffer, e: Ends, f: Fields)
    requires EndsOk(e) && FieldsOk(f)
    requires Be16(rx, 34) == e.sport && Be16(rx, 36) == e.dport && Be32(rx, 38) == f.num && Be32(rx, 42) == f.ack
    requires rx[46] == 0x50 && rx[47] == f.flags
    ensures TcpAccept(rx, Span(34, TCP_HEADER + |f.data|), e.sport, e.dport)
            == Some(Heard(f.num, f.ack, f.flags, 54, |f.data|))
  {
    hide Be16, Be32;
  }

  // ----- building -----

  lemma Regroup(eth: seq<byte>, front: seq<byte>, z: seq<byte>, addrs: seq<byte>, payload: seq<byte>)
    ensures eth + (front + z + addrs) + payload == (eth + front) + z + (addrs + payload)
    ensures eth + (front + z + addrs + payload) == (eth + front) + z + (addrs + payload)
  {
  }

  function Patched(b: seq<byte>, o: nat, s: seq<byte>): (r: seq<byte>)
    requires o + |s| <= |b|
    ensures |r| == |b|
  {
    b[..o] + s + b[o + |s|..]
  }

  /** Writing a field in the middle of what is there. */
  lemma PatchField(b: seq<byte>, pre: seq<byte>, z: seq<byte>, post: seq<byte>, c: seq<byte>)
    requires |z| == |c| && |pre| + |z| + |post| <= |b| && b[..|pre| + |z| + |post|] == pre + z + post
    ensures Patched(b, |pre|, c)[..|pre| + |z| + |post|] == pre + c + post
  {
    var n := |pre| + |z| + |post|;
    var r := Patched(b, |pre|, c);
    assert b[..|pre|] == b[..n][..|pre|] == pre;
    assert b[|pre| + |z|..n] == b[..n][|pre| + |z|..] == post;
    assert r[..n] == pre + c + b[|pre| + |z|..n];
  }

  /** Writing right behind what is there. */
  lemma PatchNext(b: seq<byte>, pre: seq<byte>, s: seq<byte>)
    requires |pre| + |s| <= |b| && b[..|pre|] == pre
    ensures Patched(b, |pre|, s)[..|pre| + |s|] == pre + s
  {
  }

  /** The transmit side: the frame buffer, the segment buffer and the packet counter. */
  class Sender {
    const tx: array<byte>
    const seg: array<byte>
    const mac: Mac
    const gateway: Mac
    const me: Addr
    var ipId: nat

    ghost predicate Valid()
      reads this
    {
      tx.Length == 2048 && seg.Length == 1500 && tx != seg && ipId < TWO16
    }

    constructor (mac: Mac, gateway: Mac, me: Addr)
      ensures Valid() && this.mac == mac && this.gateway == gateway && this.me == me
    {
      tx, seg := new byte[2048](_ => 0), new byte[1500](_ => 0);
      this.mac, this.gateway, this.me, ipId := mac, gateway, me, 0;
    }

    /** Writes `s` into a buffer at `o`. */
    static method Put(a: array<byte>, o: nat, s: seq<byte>)
      requires o + |s| <= a.Length
      modifies a
      ensures a[..] == Patched(old(a[..]), o, s)
    {
      for i := 0 to |s|
        invariant a[..o] == old(a[..o]) && a[o..o + i] == s[..i] && a[o + i..] == old(a[o + i..])
      {
        a[o + i] := s[i];
      }
      assert a[..] == a[..o] + a[o..o + |s|] + a[o + |s|..];
    }

    /** Writes right behind what is there. */
    static method Next(a: array<byte>, o: nat, s: seq<byte>)
      requires o + |s| <= a.Length
      modifies a
      ensures a[..o + |s|] == old(a[..o]) + s
    {
      PatchNext(a[..], a[..o], s);
      Put(a, o, s);
    }

    /** eth_build */
    method EthBuild(kind: nat)
      requires Valid() && kind < TWO16
      modifies tx
      ensures tx[..14] == EthHeader(gateway, mac, kind)
    {
      Put(tx, 0, gateway);
      Put(tx, 6, mac);
      Put(tx, 12, ToBe16(kind));
    }

    /** The header as first written, its checksum field zero. */
    method IpBlank(total: nat, id: nat, proto: byte, dst: Addr)
      requires Valid() && total < TWO16 && id < TWO16
      modifies tx
      ensures tx[..14] == old(tx[..14])
      ensures tx[14..34] == IpFront(total, id, proto) + [0, 0] + (me + dst)
    {
      ghost var e := tx[..14];
      Next(tx, 14, [0x45, 0]);
      Next(tx, 16, ToBe16(total));
      Next(tx, 18, ToBe16(id));
      Next(tx, 20, ToBe16(0x4000));
      Next(tx, 22, [64, proto]);
      ghost var front := IpFront(total, id, proto);
      assert tx[..24] == e + front;
      hide IpFront;
      Next(tx, 24, ToBe16(0));
      Next(tx, 26, me);
      Next(tx, 30, dst);
      assert tx[..34] == e + (front + [0, 0] + (me + dst));
      assert tx[..14] == tx[..34][..14] && tx[14..34] == tx[..34][14..];
    }

    /** ip_send: what is handed to the network card, or nothing if it is too long for it. */
    method IpSend(dst: Addr, proto: byte, payload: seq<byte>) returns (sent: Option<seq<byte>>)
      requires Valid() && |payload| < TWO16
      modifies tx, this`ipId
      ensures Valid()
      ensures sent.Some? <==> ETH + IP_HEADER + |payload| <= 1514
      ensures sent.Some? ==>
                && sent.value == EthHeader(gateway, mac, 0x0800) + IpPacket(old(ipId), proto, me, dst, payload)
                && IpBytes(sent.value, gateway, mac, old(ipId), proto, me, dst, payload)
      ensures ipId == if ETH + IP_HEADER + |payload| <= 2048 then (old(ipId) + 1) % TWO16 else old(ipId)
    {
      hide EthHeader, Sum, IpFront, Patched, IpBytes;
      if IP_HEADER + |payload| + ETH > 2048 {
        return None;
      }
      var total := IP_HEADER + |payload|;
      var id := ipId;
      EthBuild(0x0800);
      ipId := (ipId + 1) % TWO16;
      IpBlank(total, id, proto, dst);
      ghost var eth := EthHeader(gateway, mac, 0x0800);
      ghost var front := IpFront(total, id, proto);
      ghost var h := front + [0, 0] + (me + dst);
      assert tx[..34] == eth + h by {
        assert tx[..34] == tx[..14] + tx[14..34];
      }
      PatchNext(tx[..], eth + h, payload);
      Put(tx, 34, payload);
      assert tx[14..34] == tx[..34 + |payload|][14..34];
      var c := ChecksumOf(tx[14..34]);
      Regroup(eth, front, [0, 0], me + dst, payload);
      PatchField(tx[..], eth + front, [0, 0], (me + dst) + payload, ToBe16(c));
      Put(tx, 24, ToBe16(c));
      Regroup(eth, front, ToBe16(c), me + dst, payload);
      if 14 + total > 1514 {
        return None;
      }
      IpFrameBytes(gateway, mac, id, proto, me, dst, payload);
      return Some(tx[..14 + total]);
    }

    /** The segment header as first written. */
    method TcpBlank(sport: nat, dport: nat, num: nat, ack: nat, flags: byte)
      requires Valid() && sport < TWO16 && dport < TWO16 && num < TWO32 && ack < TWO32
      modifies seg
      ensures seg[..20] == ToBe16(sport) + ToBe16(dport) + ToBe32(num) + ToBe32(ack) + [0x50, flags] + ToBe16(0xFFFF)
              + [0, 0] + [0, 0]
    {
      Next(seg, 0, ToBe16(sport));
      Next(seg, 2, ToBe16(dport));
      Next(seg, 4, ToBe32(num));
      Next(seg, 8, ToBe32(ack));
      Next(seg, 12, [0x50, flags]);
      Next(seg, 14, ToBe16(0xFFFF));
      Next(seg, 16, [0, 0]);
      Next(seg, 18, [0, 0]);
    }

    /** tcp_tx: the segment leaves as one frame, for any payload up to 1460 bytes. */
    method TcpTx(dst: Addr, sport: nat, dport: nat, num: nat, ack: nat, flags: byte, data: seq<byte>)
      returns (sent: Option<seq<byte>>)
      requires Valid() && sport < TWO16 && dport < TWO16 && num < TWO32 && ack < TWO32 && |data| < TWO16
      modifies tx, seg, this`ipId
      ensures Valid()
      ensures sent.Some? <==> |data| <= 1460
      ensures sent.Some? ==>
                && sent.value
                   == Frame(gateway, mac, old(ipId), Ends(me, dst, sport, dport), Fields(num, ack, flags, data))
                && IpBytes(sent.value, gateway, mac, old(ipId), 6, me, dst, sent.value[34..])
                && TcpBytes(sent.value, Ends(me, dst, sport, dport), num, ack, flags, data)
      ensures ipId == if |data| <= 1480 then (old(ipId) + 1) % TWO16 else old(ipId)
    {
      hide Patched, TcpFront, Pseudo, Sum, TcpSegment, IpPacket, EthHeader, IpBytes, TcpBytes;
      if |data| + TCP_HEADER > 1500 {
        return None;
      }
      var len := TCP_HEADER + |data|;
      TcpBlank(sport, dport, num, ack, flags);
      ghost var front := seg[..16];
      assert seg[..20] == front + [0, 0] + [0, 0];
      FrontIs(Ends(me, dst, sport, dport), Fields(num, ack, flags, if |data| <= 1460 then data else []), seg[..20]);
      PatchNext(seg[..], front + [0, 0] + [0, 0], data);
      Put(seg, 20, data);
      ghost var rest := [0, 0] + data;
      assert front + [0, 0] + [0, 0] + data == front + [0, 0] + rest;
      var c := TcpSum(me, dst, seg[..len]);
      PatchField(seg[..], front, [0, 0], rest, ToBe16(c));
      Put(seg, 16, ToBe16(c));
      if |data| <= 1460 {
        SegmentIs(Ends(me, dst, sport, dport), Fields(num, ack, flags, data), front, seg[..len], c);
      }
      ghost var id := ipId;
      sent := IpSend(dst, 6, seg[..len]);
      if |data| <= 1460 {
        TcpFrameBytes(gateway, mac, id, Ends(me, dst, sport, dport), Fields(num, ack, flags, data));
        TailIs(sent.value, gateway, mac, id, me, dst, seg[..len]);
      }
    }

    lemma SegmentIs(e: Ends, f: Fields, front: seq<byte>, s: seq<byte>, c: nat)
      requires EndsOk(e) && FieldsOk(f) && front == TcpFront(e, f)
      requires c == Sum(Pseudo(e.src, e.dst, TCP_HEADER + |f.data|) + (front + [0, 0] + ([0, 0] + f.data)))
      requires s == front + ToBe16(c) + ([0, 0] + f.data)
      ensures s == TcpSegment(e, f)
    {
    }

    lemma FrontIs(e: Ends, f: Fields, h: seq<byte>)
      requires EndsOk(e) && FieldsOk(f)
      requires h == ToBe16(e.sport) + ToBe16(e.dport) + ToBe32(f.num) + ToBe32(f.ack) + [0x50, f.flags] + ToBe16(0xFFFF)
               + [0, 0] + [0, 0]
      ensures h[..16] == TcpFront(e, f)
    {
    }
  }
}
