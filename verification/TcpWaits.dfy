/** What the TCP client's waits bring, said over the script, and what its loops make of them: when
    connecting, sending a chunk and receiving succeed and when they give up. */
module TcpWaits {
  import opened Bytes
  import opened TcpNet
  import opened TcpClient
  import opened Wrappers

  // ----- one wait -----

  /** Nothing among these events ends a wait. */
  ghost predicate Uneventful(p: Peer, n: Net, es: seq<Event>) {
    forall i | 0 <= i < |es| :: !Ends(es[i], EnvRun(p, n, es[..i]))
  }

  /** The wait is over: time has run out, or a segment that was sent reaches the client. */
  predicate Ends(e: Event, n: Net) { e.Timeout? || (e.Deliver? && e.j < |n.p2c|) }

  /** The first `k` events pass, and the next one ends the wait. */
  ghost predicate BringsAt(p: Peer, c: Client, k: nat, g: Option<Seg>, c2: Client) {
    && k <= |c.script| && Uneventful(p, c.net, c.script[..k])
    && var n := EnvRun(p, c.net, c.script[..k]);
       if k == |c.script| then g == None && c2 == c.(net := n, script := [])
       else
         var e := c.script[k];
         && Ends(e, n) && c2 == c.(net := n, script := c.script[k + 1..])
         && g == if e.Timeout? then None else Some(n.p2c[e.j])
  }

  /** A wait from `c` brings `g`, or nothing, and leaves things as in `c2`. */
  ghost predicate Brings(p: Peer, c: Client, g: Option<Seg>, c2: Client) {
    exists k: nat :: BringsAt(p, c, k, g, c2)
  }

  lemma {:induction false} RunFromFront(p: Peer, n: Net, e: Event, es: seq<Event>)
    ensures EnvRun(p, n, [e] + es) == EnvRun(p, EnvStep(p, n, e), es)
    decreases |es|
  {
    hide EnvStep;
    if es == [] {
      assert [e] + es == [e] && [e][..0] == [];
    } else {
      var k := |es| - 1;
      assert ([e] + es)[..k + 1] == [e] + es[..k];
      RunFromFront(p, n, e, es[..k]);
    }
  }

  lemma FrontPasses(p: Peer, n: Net, e: Event, es: seq<Event>)
    requires !Ends(e, n)
    ensures Uneventful(p, n, [e] + es) <==> Uneventful(p, EnvStep(p, n, e), es)
  {
    hide EnvRun, EnvStep, Ends;
    var m := EnvStep(p, n, e);
    RunNothing(p, n);
    forall i | 0 <= i < |es| ensures EnvRun(p, n, ([e] + es)[..i + 1]) == EnvRun(p, m, es[..i]) {
      assert ([e] + es)[..i + 1] == [e] + es[..i];
      RunFromFront(p, n, e, es[..i]);
    }
    assert forall i | 0 <= i < |es| :: ([e] + es)[i + 1] == es[i];
    if Uneventful(p, n, [e] + es) {
      forall i | 0 <= i < |es| ensures !Ends(es[i], EnvRun(p, m, es[..i])) {
        assert !Ends(([e] + es)[i + 1], EnvRun(p, n, ([e] + es)[..i + 1]));
      }
    }
    if Uneventful(p, m, es) {
      forall i | 0 <= i < |[e] + es| ensures !Ends(([e] + es)[i], EnvRun(p, n, ([e] + es)[..i])) {
        if i == 0 {
          assert ([e] + es)[..0] == [];
        } else {
          assert !Ends(es[i - 1], EnvRun(p, m, es[..i - 1]));
        }
      }
    }
  }

  lemma RunNothing(p: Peer, n: Net)
    ensures EnvRun(p, n, []) == n
  {
  }

  lemma {:induction false} WaitedBrings(p: Peer, c: Client) returns (k: nat)
    ensures BringsAt(p, c, k, Waited(p, c).0, Waited(p, c).1)
    decreases |c.script|
  {
    hide EnvStep, EnvRun, Uneventful;
    RunNothing(p, c.net);
    assert c.script[..0] == [];
    NothingPasses(p, c.net);
    k := 0;
    if c.script != [] {
      var e, rest := c.script[0], c.script[1..];
      if !Ends(e, c.net) {
        var c1 := c.(net := EnvStep(p, c.net, e), script := rest);
        var m := WaitedBrings(p, c1);
        k := m + 1;
        assert c.script[..k] == [e] + rest[..m];
        RunFromFront(p, c.net, e, rest[..m]);
        FrontPasses(p, c.net, e, rest[..m]);
        assert m < |rest| ==> rest[m + 1..] == c.script[k + 1..];
      }
    }
  }

  lemma NothingPasses(p: Peer, n: Net)
    ensures Uneventful(p, n, [])
  {
  }

  lemma BringsOnce(p: Peer, c: Client, k: nat, g: Option<Seg>, c2: Client, m: nat, h: Option<Seg>, d2: Client)
    requires BringsAt(p, c, k, g, c2) && BringsAt(p, c, m, h, d2) && k <= m
    ensures g == h && c2 == d2
  {
    hide EnvRun, Ends, Uneventful;
    if k < m { StillPasses(p, c.net, c.script, m, k); }
  }

  lemma StillPasses(p: Peer, n: Net, es: seq<Event>, m: nat, k: nat)
    requires k < m <= |es| && Uneventful(p, n, es[..m])
    ensures !Ends(es[k], EnvRun(p, n, es[..k]))
  {
    hide EnvRun, Ends;
    assert es[..m][..k] == es[..k] && es[..m][k] == es[k];
  }

  /** What tcp_wait delivers. */
  lemma WaitedIff(p: Peer, c: Client, g: Option<Seg>, c2: Client)
    ensures Waited(p, c) == (g, c2) <==> Brings(p, c, g, c2)
  {
    hide Waited, BringsAt;
    var k := WaitedBrings(p, c);
    if m: nat :| BringsAt(p, c, m, g, c2) {
      if k <= m {
        BringsOnce(p, c, k, Waited(p, c).0, Waited(p, c).1, m, g, c2);
      } else {
        BringsOnce(p, c, m, g, c2, k, Waited(p, c).0, Waited(p, c).1);
      }
    }
  }

  // ----- receiving -----

  /** A segment that a receive passes over. */
  predicate OutOfOrder(g: Seg, rcvNxt: nat) {
    !Has(g.flags, RST) && (g.num != rcvNxt || (g.data == [] && !Has(g.flags, FIN)))
  }

  /** One wait of a receive that brings nothing, or a segment out of order, which is answered by an
      acknowledgment of the current position. */
  ghost predicate Idle(p: Peer, a: Client, b: Client) {
    exists g, m ::
      && Brings(p, a, g, m)
      && (g.Some? ==> OutOfOrder(g.value, a.rcvNxt))
      && b == if g.None? then m else m.(net := m.net.(c2p := a.net.c2p + [Seg(a.sndNxt, a.rcvNxt, ACK, [])]))
  }

  function Last(cs: seq<Client>): Client
    requires cs != []
  {
    cs[|cs| - 1]
  }

  ghost predicate IdleRun(p: Peer, cs: seq<Client>)
    ensures IdleRun(p, cs) ==> cs != []
  {
    cs != [] && forall i | 0 <= i < |cs| - 1 :: Idle(p, cs[i], cs[i + 1])
  }

  lemma {:induction false} WaitedLeaves(p: Peer, c: Client)
    ensures var c2 := Waited(p, c).1; c2.sndNxt == c.sndNxt && c2.rcvNxt == c.rcvNxt && c2.net.c2p == c.net.c2p
    decreases |c.script|
  {
    hide EnvStep;
    if c.script != [] {
      var e := c.script[0];
      if !Ends(e, c.net) {
        StepLeaves(p, c.net, e);
        WaitedLeaves(p, c.(net := EnvStep(p, c.net, e), script := c.script[1..]));
      }
    }
  }

  lemma StepLeaves(p: Peer, n: Net, e: Event)
    ensures EnvStep(p, n, e).c2p == n.c2p
  {
  }

  /** An idle wait is one round of tcp_recv's loop. */
  lemma IdleIsRound(p: Peer, a: Client, b: Client, cap: nat, budget: nat)
    requires Idle(p, a, b) && budget > 0
    ensures Recvd(p, a, cap, budget) == Recvd(p, b, cap, budget - 1)
  {
    hide Waited, Brings, Has, DataTaken, TakenIn;
    var g, m :| && Brings(p, a, g, m) && (g.Some? ==> OutOfOrder(g.value, a.rcvNxt))
                && b == if g.None? then m else m.(net := m.net.(c2p := a.net.c2p + [Seg(a.sndNxt, a.rcvNxt, ACK, [])]));
    WaitedIff(p, a, g, m);
    WaitedLeaves(p, a);
  }

  lemma RestRuns(p: Peer, cs: seq<Client>)
    requires IdleRun(p, cs) && |cs| > 1
    ensures IdleRun(p, cs[1..])
  {
    hide Idle;
    var r := cs[1..];
    forall i | 0 <= i < |r| - 1 ensures Idle(p, r[i], r[i + 1]) {
      assert Idle(p, cs[i + 1], cs[i + 1 + 1]);
    }
  }

  /** A receive goes on waiting through idle waits. */
  lemma {:induction false} RecvdWaits(p: Peer, cs: seq<Client>, cap: nat, budget: nat)
    requires IdleRun(p, cs) && |cs| - 1 <= budget
    ensures Recvd(p, cs[0], cap, budget) == Recvd(p, Last(cs), cap, budget - (|cs| - 1))
    decreases |cs|
  {
    hide Recvd, Idle;
    if |cs| > 1 {
      IdleIsRound(p, cs[0], cs[1], cap, budget);
      RestRuns(p, cs);
      RecvdWaits(p, cs[1..], cap, budget - 1);
    }
  }

  lemma {:induction false} IdleHears(p: Peer, cs: seq<Client>, pos: nat)
    requires IdleRun(p, cs) && Hears(p, cs[0], pos)
    ensures Hears(p, Last(cs), pos)
    decreases |cs|
  {
    hide Hears, Idle;
    if |cs| > 1 {
      IdleHears(p, cs[..|cs| - 1], pos);
      IdleStepHears(p, cs[|cs| - 2], Last(cs), pos);
    }
  }

  lemma IdleStepHears(p: Peer, a: Client, b: Client, pos: nat)
    requires Idle(p, a, b) && Hears(p, a, pos)
    ensures Hears(p, b, pos) && b.rcvNxt == a.rcvNxt && b.sndNxt == a.sndNxt
  {
    hide Hears, Waited, Brings, OutOfOrder, PeerData;
    var g, m :| && Brings(p, a, g, m) && (g.Some? ==> OutOfOrder(g.value, a.rcvNxt))
                && b == if g.None? then m else m.(net := m.net.(c2p := a.net.c2p + [Seg(a.sndNxt, a.rcvNxt, ACK, [])]));
    WaitedIff(p, a, g, m);
    WaitedLeaves(p, a);
    WaitedHears(p, a, pos);
    StillNext(p, m, pos);
    SentHears(p, m, pos, Seg(a.sndNxt, a.rcvNxt, ACK, []));
  }

  /** After fewer idle waits than there is time for, the next piece of the stream is returned when a
      wait brings it. */
  lemma RecvdGets(p: Peer, cs: seq<Client>, pos: nat, g: Seg, m: Client, cap: nat, budget: nat) returns (c2: Client)
    requires IdleRun(p, cs) && |cs| - 1 < budget && Hears(p, cs[0], pos)
    requires Brings(p, Last(cs), Some(g), m) && !Has(g.flags, RST) && NextIs(p, pos, g.num) && g.data != []
    ensures pos + |g.data| <= |p.out| && g.data == p.out[pos..pos + |g.data|]
    ensures var n := Min(|g.data|, cap); Recvd(p, cs[0], cap, budget) == (n, p.out[pos..pos + n], c2)
    ensures Hears(p, c2, pos + |g.data| + if Has(g.flags, FIN) then 1 else 0)
  {
    hide Hears, IdleRun, Waited, Brings, Has, DataTaken, PeerData, NextIs;
    var c := Last(cs);
    RecvdWaits(p, cs, cap, budget);
    IdleHears(p, cs, pos);
    WaitedIff(p, c, Some(g), m);
    WaitedHears(p, c, pos);
    SameNext(p, m, pos, g.num);
    var pos2 := DataTakenHears(p, m, pos, g);
    c2 := DataTaken(m, g);
    DataReceived(p.out, pos, pos + |g.data|, cap, g.data);
  }

  lemma SameNext(p: Peer, c: Client, pos: nat, num: nat)
    requires Hears(p, c, pos)
    ensures NextIs(p, pos, num) <==> num == c.rcvNxt
  {
  }

  /** And so is the end of the stream. */
  lemma RecvdEnds(p: Peer, cs: seq<Client>, pos: nat, g: Seg, m: Client, cap: nat, budget: nat) returns (c2: Client)
    requires IdleRun(p, cs) && |cs| - 1 < budget && Hears(p, cs[0], pos)
    requires Brings(p, Last(cs), Some(g), m) && !Has(g.flags, RST) && NextIs(p, pos, g.num)
    requires g.data == [] && Has(g.flags, FIN)
    ensures pos == |p.out| && Recvd(p, cs[0], cap, budget) == (0, [], c2) && Hears(p, c2, pos + 1)
  {
    hide Hears, IdleRun, Waited, Brings, Has, TakenIn, PeerData, NextIs;
    var c := Last(cs);
    RecvdWaits(p, cs, cap, budget);
    IdleHears(p, cs, pos);
    WaitedIff(p, c, Some(g), m);
    WaitedHears(p, c, pos);
    SameNext(p, m, pos, g.num);
    InOrder(p, m, pos, g);
    TakenInHears(p, m, pos, 1);
    c2 := TakenIn(m, 1);
  }

  /** Time runs out in idle waits, or a reset is heard before that. */
  ghost predicate GivesUp(p: Peer, c: Client, budget: nat) {
    exists cs :: GivesUpAfter(p, c, budget, cs)
  }

  ghost predicate HearsReset(p: Peer, c: Client) {
    exists g, m :: Brings(p, c, Some(g), m) && Has(g.flags, RST)
  }

  ghost predicate GivesUpAfter(p: Peer, c: Client, budget: nat, cs: seq<Client>) {
    && IdleRun(p, cs) && cs[0] == c && |cs| - 1 <= budget
    && (|cs| - 1 == budget || HearsReset(p, Last(cs)))
  }

  /** That is exactly when tcp_recv returns -1. */
  lemma RecvdFailsIff(p: Peer, c: Client, cap: nat, budget: nat)
    ensures Recvd(p, c, cap, budget).0 == -1 <==> GivesUp(p, c, budget)
  {
    hide Recvd, GivesUpAfter;
    if Recvd(p, c, cap, budget).0 == -1 {
      var cs := FailedRun(p, c, cap, budget);
    }
    if cs :| GivesUpAfter(p, c, budget, cs) {
      GaveUp(p, c, cap, budget, cs);
    }
  }

  lemma GaveUp(p: Peer, c: Client, cap: nat, budget: nat, cs: seq<Client>)
    requires GivesUpAfter(p, c, budget, cs)
    ensures Recvd(p, c, cap, budget).0 == -1
  {
    hide IdleRun, Waited, Brings, DataTaken, TakenIn, Has;
    RecvdWaits(p, cs, cap, budget);
    if |cs| - 1 < budget {
      var g, m :| Brings(p, Last(cs), Some(g), m) && Has(g.flags, RST);
      WaitedIff(p, Last(cs), Some(g), m);
    }
  }

  lemma {:induction false} FailedRun(p: Peer, c: Client, cap: nat, budget: nat) returns (cs: seq<Client>)
    requires Recvd(p, c, cap, budget).0 == -1
    ensures GivesUpAfter(p, c, budget, cs)
    decreases budget
  {
    hide Waited, Brings, DataTaken, TakenIn, Has, Idle, HearsReset;
    cs := [c];
    if budget > 0 {
      var (g, m) := Waited(p, c);
      WaitedIff(p, c, g, m);
      WaitedLeaves(p, c);
      if g.None? || !Has(g.value.flags, RST) {
        var b := if g.None? then m else Sent(m, Seg(m.sndNxt, m.rcvNxt, ACK, []));
        IsIdle(p, c, g, m, b);
        var more := FailedRun(p, b, cap, budget - 1);
        cs := [c] + more;
        LongerRun(p, c, more);
        assert Last(cs) == Last(more);
      } else {
        ResetHeard(p, c, g.value, m);
      }
    }
  }

  lemma ResetHeard(p: Peer, c: Client, g: Seg, m: Client)
    requires Brings(p, c, Some(g), m) && Has(g.flags, RST)
    ensures HearsReset(p, c)
  {
  }

  lemma IsIdle(p: Peer, a: Client, g: Option<Seg>, m: Client, b: Client)
    requires Brings(p, a, g, m) && m.net.c2p == a.net.c2p && (g.Some? ==> OutOfOrder(g.value, a.rcvNxt))
    requires b == if g.None? then m else m.(net := m.net.(c2p := a.net.c2p + [Seg(a.sndNxt, a.rcvNxt, ACK, [])]))
    ensures Idle(p, a, b)
  {
    hide Brings, OutOfOrder;
  }

  lemma LongerRun(p: Peer, c: Client, cs: seq<Client>)
    requires IdleRun(p, cs) && Idle(p, c, cs[0])
    ensures IdleRun(p, [c] + cs)
  {
    hide Idle;
    var r := [c] + cs;
    forall i | 0 <= i < |r| - 1 ensures Idle(p, r[i], r[i + 1]) {
      if i > 0 { assert Idle(p, cs[i - 1], cs[i - 1 + 1]); }
    }
  }

  // ----- tries -----

  /** What a try waits for: the answer to a SYN, or an acknowledgment that is not below the end of a
      chunk. */
  datatype Wanted = Answer(iss: nat) | Covering(num: nat, len: nat)

  predicate Meets(g: Seg, w: Wanted) {
    match w
    case Answer(iss) => Has(g.flags, SYN) && Has(g.flags, ACK) && g.ack == (iss + 1) % TWO32
    case Covering(num, len) => g.ack >= (num + len) % TWO32
  }

  /** The segment is sent, and the wait that follows brings what is wanted. */
  ghost predicate Succeeds(p: Peer, c: Client, s: Seg, w: Wanted) {
    exists g, m :: Brings(p, Sent(c, s), Some(g), m) && Meets(g, w)
  }

  /** The segment is sent, and the wait that follows brings nothing or something else. */
  ghost predicate Misses(p: Peer, a: Client, b: Client, s: Seg, w: Wanted) {
    exists g :: Brings(p, Sent(a, s), g, b) && (g.Some? ==> !Meets(g.value, w))
  }

  ghost predicate SucceedsAfter(p: Peer, s: Seg, w: Wanted, cs: seq<Client>) {
    && cs != [] && (forall i | 0 <= i < |cs| - 1 :: Misses(p, cs[i], cs[i + 1], s, w))
    && Succeeds(p, Last(cs), s, w)
  }

  /** One of the first `tries` waits, each after sending the segment once more, brings it. */
  ghost predicate SucceedsWithin(p: Peer, c: Client, s: Seg, w: Wanted, tries: nat) {
    exists cs :: SucceedsAfter(p, s, w, cs) && cs[0] == c && |cs| <= tries
  }

  lemma TryStep(p: Peer, c: Client, s: Seg, w: Wanted, tries: nat, g: Option<Seg>, m: Client)
    requires Brings(p, Sent(c, s), g, m) && tries > 0
    ensures SucceedsWithin(p, c, s, w, tries) <==>
            (g.Some? && Meets(g.value, w)) || SucceedsWithin(p, m, s, w, tries - 1)
  {
    hide Brings, Meets, Waited;
    if g.Some? && Meets(g.value, w) {
      OneTry(p, c, s, w, g.value, m);
    } else {
      if cs :| SucceedsAfter(p, s, w, cs) && cs[0] == c && |cs| <= tries {
        FirstMissed(p, c, s, w, g, m, cs);
      }
      if cs :| SucceedsAfter(p, s, w, cs) && cs[0] == m && |cs| <= tries - 1 {
        MissBefore(p, c, s, w, g, m, cs);
      }
    }
  }

  lemma OneTry(p: Peer, c: Client, s: Seg, w: Wanted, g: Seg, m: Client)
    requires Brings(p, Sent(c, s), Some(g), m) && Meets(g, w)
    ensures SucceedsAfter(p, s, w, [c])
  {
    hide Brings, Meets;
    assert Succeeds(p, c, s, w);
  }

  lemma FirstMissed(p: Peer, c: Client, s: Seg, w: Wanted, g: Option<Seg>, m: Client, cs: seq<Client>)
    requires Brings(p, Sent(c, s), g, m) && (g.Some? ==> !Meets(g.value, w))
    requires SucceedsAfter(p, s, w, cs) && cs[0] == c
    ensures |cs| > 1 && SucceedsAfter(p, s, w, cs[1..]) && cs[1] == m
  {
    hide Brings, Meets, Waited, Succeeds;
    WaitedIff(p, Sent(c, s), g, m);
    if |cs| == 1 {
      NoSuccess(p, c, s, w, g, m);
    } else {
      var h :| Brings(p, Sent(c, s), h, cs[1]) && (h.Some? ==> !Meets(h.value, w));
      WaitedIff(p, Sent(c, s), h, cs[1]);
      var r := cs[1..];
      forall i | 0 <= i < |r| - 1 ensures Misses(p, r[i], r[i + 1], s, w) {
        assert Misses(p, cs[i + 1], cs[i + 1 + 1], s, w);
      }
    }
  }

  lemma NoSuccess(p: Peer, c: Client, s: Seg, w: Wanted, g: Option<Seg>, m: Client)
    requires Brings(p, Sent(c, s), g, m) && (g.Some? ==> !Meets(g.value, w))
    ensures !Succeeds(p, c, s, w)
  {
    hide Brings, Meets, Waited;
    WaitedIff(p, Sent(c, s), g, m);
    forall h, d | Brings(p, Sent(c, s), Some(h), d) ensures !Meets(h, w) {
      WaitedIff(p, Sent(c, s), Some(h), d);
    }
  }

  lemma MissBefore(p: Peer, c: Client, s: Seg, w: Wanted, g: Option<Seg>, m: Client, cs: seq<Client>)
    requires Brings(p, Sent(c, s), g, m) && (g.Some? ==> !Meets(g.value, w))
    requires SucceedsAfter(p, s, w, cs) && cs[0] == m
    ensures SucceedsAfter(p, s, w, [c] + cs) && ([c] + cs)[0] == c
  {
    hide Brings, Meets, Succeeds;
    var r := [c] + cs;
    assert Last(r) == Last(cs) && Misses(p, c, m, s, w);
    forall i | 0 <= i < |r| - 1 ensures Misses(p, r[i], r[i + 1], s, w) {
      if i > 0 { assert Misses(p, cs[i - 1], cs[i - 1 + 1], s, w); }
    }
  }

  /** tcp_connect succeeds exactly when one of its waits, each after one more SYN, brings the answer. */
  lemma {:induction false} ConnectedIff(p: Peer, c: Client, iss: nat, tries: nat)
    ensures Connected(p, c, iss, tries).0 <==> SucceedsWithin(p, c, Seg(iss, 0, SYN, []), Answer(iss), tries)
    decreases tries
  {
    hide Waited, Brings, Has, AnswerTaken, SucceedsWithin;
    var s := Seg(iss, 0, SYN, []);
    if tries == 0 {
      NoTries(p, c, s, Answer(iss));
    } else {
      var (g, m) := Waited(p, Sent(c, s));
      WaitedIff(p, Sent(c, s), g, m);
      TryStep(p, c, s, Answer(iss), tries, g, m);
      if !(g.Some? && Meets(g.value, Answer(iss))) { ConnectedIff(p, m, iss, tries - 1); }
    }
  }

  lemma NoTries(p: Peer, c: Client, s: Seg, w: Wanted)
    ensures !SucceedsWithin(p, c, s, w, 0)
  {
  }

  /** A chunk counts as delivered exactly when one of its waits, each after sending it once more, brings
      an acknowledgment that passes; tcp_send allows four. */
  lemma {:induction false} SentChunkIff(p: Peer, c: Client, chunk: seq<byte>, tries: nat)
    ensures SentChunk(p, c, chunk, tries).0 <==>
            SucceedsWithin(p, c, Seg(c.sndNxt, c.rcvNxt, PSH_ACK, chunk), Covering(c.sndNxt, |chunk|), tries)
    decreases tries
  {
    hide Waited, Brings, AckTaken, SucceedsWithin;
    var s, w := Seg(c.sndNxt, c.rcvNxt, PSH_ACK, chunk), Covering(c.sndNxt, |chunk|);
    if tries == 0 {
      NoTries(p, c, s, w);
    } else {
      var (g, m) := Waited(p, Sent(c, s));
      WaitedIff(p, Sent(c, s), g, m);
      WaitedLeaves(p, Sent(c, s));
      TryStep(p, c, s, w, tries, g, m);
      if !(g.Some? && Meets(g.value, w)) { SentChunkIff(p, m, chunk, tries - 1); }
    }
  }

  /** Data in order that comes along with the acknowledgment is passed over, other data is not; the
      client goes on from the number acknowledged. */
  lemma AckSwallows(p: Peer, c: Client, pos: nat, chunk: seq<byte>, g: Seg, m: Client) returns (c2: Client)
    requires Hears(p, c, pos) && Brings(p, Sent(c, Seg(c.sndNxt, c.rcvNxt, PSH_ACK, chunk)), Some(g), m)
    requires g.ack >= (c.sndNxt + |chunk|) % TWO32
    ensures TriedChunk(p, c, chunk) == (true, c2) && c2.sndNxt == g.ack && Acknowledged(c2)
    ensures Hears(p, c2, pos + if NextIs(p, pos, g.num) then |g.data| else 0)
  {
    hide Hears, Waited, Brings, AckTaken, Acknowledged, NextIs, PeerData;
    var s := Seg(c.sndNxt, c.rcvNxt, PSH_ACK, chunk);
    WaitedIff(p, Sent(c, s), Some(g), m);
    StillNext(p, c, pos);
    SentHears(p, c, pos, s);
    WaitedHears(p, Sent(c, s), pos);
    SameNext(p, m, pos, g.num);
    var pos2 := AckTakenHears(p, m, pos, g);
    c2 := AckTaken(m, g);
    AckNumber(m, g);
  }

  lemma AckNumber(c: Client, g: Seg)
    ensures AckTaken(c, g).sndNxt == g.ack
  {
  }
}
