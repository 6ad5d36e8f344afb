/** The blocks of the kernel heap as a sequence: how a request splits a block, how a
    release merges them, and what that means for the bytes of the pool. */
module HeapBlocks {

  const HEAP_START := 0x400000
  const HEAP_END := 0x800000
  /** sizeof(struct block) */
  const HEADER := 24
  const TWO64 := 0x1_0000_0000_0000_0000

  /** A block: address of its header, usable bytes after it, and its mark. */
  datatype Blk = Blk(addr: nat, size: nat, free: bool) {
    function End(): nat { addr + HEADER + size }
    function Payload(): nat { addr + HEADER }
  }

  /** align16, in 64-bit arithmetic. */
  function Align16(n: nat): nat { (n + 15) % TWO64 / 16 * 16 }

  /** What kmalloc asks the pool for. */
  function Wanted(n: nat): nat { Align16(if n == 0 then 1 else n) }

  /** A request gets what it asks for exactly when the rounding does not wrap. */
  lemma WantedIsEnough(n: nat)
    requires n < TWO64
    ensures n <= Wanted(n) <==> n <= TWO64 - 16
    ensures Wanted(n) % 16 == 0 && (n <= TWO64 - 16 ==> 1 <= Wanted(n) < n + 16 + (if n == 0 then 1 else 0))
  {
  }

  // ----- the pool -----

  /** The blocks lie end to end from `lo` to `hi`, on multiples of 8. */
  ghost predicate Spans(bs: seq<Blk>, lo: nat, hi: nat) {
    && (if bs == [] then lo == hi else bs[0].addr == lo && bs[|bs| - 1].End() == hi)
    && (forall i | 0 <= i < |bs| - 1 :: bs[i].End() == bs[i + 1].addr)
    && (forall i | 0 <= i < |bs| :: bs[i].addr % 8 == 0)
  }

  ghost predicate Tiles(bs: seq<Blk>) { Spans(bs, HEAP_START, HEAP_END) }

  ghost predicate NoTwoFree(bs: seq<Blk>) {
    forall i | 0 <= i < |bs| - 1 :: !(bs[i].free && bs[i + 1].free)
  }

  ghost predicate Good(bs: seq<Blk>) { Tiles(bs) && NoTwoFree(bs) }

  function Initial(): seq<Blk> { [Blk(HEAP_START, HEAP_END - HEAP_START - HEADER, true)] }

  lemma SpansJoin(a: seq<Blk>, b: seq<Blk>, lo: nat, mid: nat, hi: nat)
    requires Spans(a, lo, mid) && Spans(b, mid, hi) && NoTwoFree(a) && NoTwoFree(b)
    requires a != [] && b != [] ==> !a[|a| - 1].free || !b[0].free
    ensures Spans(a + b, lo, hi) && NoTwoFree(a + b)
  {
    if a == [] {
      assert a + b == b;
    } else if b == [] {
      assert a + b == a;
    } else {
      var c, k := a + b, |a|;
      assert forall i | 0 <= i < k :: c[i] == a[i];
      assert forall i | k <= i < |c| :: c[i] == b[i - k];
      forall i | 0 <= i < |c| - 1 ensures c[i].End() == c[i + 1].addr && !(c[i].free && c[i + 1].free) {
        if i >= k { assert b[i - k].End() == b[i - k + 1].addr; }
      }
    }
  }

  lemma SpansSplit(bs: seq<Blk>, lo: nat, hi: nat, i: nat)
    requires Spans(bs, lo, hi) && NoTwoFree(bs) && i < |bs|
    ensures Spans(bs[..i], lo, bs[i].addr) && Spans(bs[i + 1..], bs[i].End(), hi)
    ensures NoTwoFree(bs[..i]) && NoTwoFree(bs[i + 1..])
    ensures bs == bs[..i] + [bs[i]] + bs[i + 1..]
  {
    var t := bs[i + 1..];
    forall j | 0 <= j < |t| - 1 ensures t[j].End() == t[j + 1].addr && !(t[j].free && t[j + 1].free) {
      assert bs[i + 1 + j].End() == bs[i + 1 + j + 1].addr;
    }
  }

  lemma LiveJoin(a: seq<Blk>, b: seq<Blk>)
    ensures Live(a + b) == Live(a) + Live(b)
  {
    var c, k := a + b, |a|;
    forall x | x in Live(c) ensures x in Live(a) + Live(b) {
      var j :| 0 <= j < |c| && c[j] == x && !c[j].free;
      assert j < k ==> a[j] == x;
      assert j >= k ==> b[j - k] == x;
    }
    forall x | x in Live(a) ensures x in Live(c) {
      var j :| 0 <= j < |a| && a[j] == x && !a[j].free;
      assert c[j] == x;
    }
    forall x | x in Live(b) ensures x in Live(c) {
      var j :| 0 <= j < |b| && b[j] == x && !b[j].free;
      assert c[j + k] == x;
    }
  }

  lemma InOrder(bs: seq<Blk>, i: nat, j: nat)
    requires Tiles(bs) && i < j < |bs|
    ensures bs[i].End() <= bs[j].addr
    decreases j
  {
    if i < j - 1 { InOrder(bs, i, j - 1); }
  }

  lemma InPool(bs: seq<Blk>, i: nat)
    requires Tiles(bs) && i < |bs|
    ensures HEAP_START <= bs[i].addr && bs[i].End() <= HEAP_END
  {
    if i > 0 { InOrder(bs, 0, i); }
    if i < |bs| - 1 { InOrder(bs, i, |bs| - 1); }
  }

  /** The blocks handed out. */
  ghost function Live(bs: seq<Blk>): set<Blk> {
    set i | 0 <= i < |bs| && !bs[i].free :: bs[i]
  }

  /** Bytes from `lo` up to `hi` of the pool, none of them in a block handed out,
      whether in its header or its payload. */
  ghost predicate FreeRun(bs: seq<Blk>, lo: nat, hi: nat) {
    HEAP_START <= lo < hi <= HEAP_END && forall b | b in Live(bs) :: b.End() <= lo || hi <= b.addr
  }

  /** Blocks handed out do not overlap. */
  lemma LiveApart(bs: seq<Blk>, a: Blk, b: Blk)
    requires Tiles(bs) && a in Live(bs) && b in Live(bs) && a != b
    ensures a.End() <= b.addr || b.End() <= a.addr
  {
    var i :| 0 <= i < |bs| && bs[i] == a;
    var j :| 0 <= j < |bs| && bs[j] == b;
    if i < j { InOrder(bs, i, j); } else { InOrder(bs, j, i); }
  }

  lemma Covered(bs: seq<Blk>, x: nat) returns (i: nat)
    requires Tiles(bs) && HEAP_START <= x < HEAP_END
    ensures i < |bs| && bs[i].addr <= x < bs[i].End()
  {
    i := 0;
    while x >= bs[i].End()
      invariant i < |bs| && bs[i].addr <= x
      decreases |bs| - i
    {
      i := i + 1;
    }
  }

  /** Since free blocks never touch, a free run lies inside one free block. */
  lemma RunInOneBlock(bs: seq<Blk>, lo: nat, hi: nat) returns (i: nat)
    requires Good(bs) && FreeRun(bs, lo, hi)
    ensures i < |bs| && bs[i].free && bs[i].addr <= lo && hi <= bs[i].End()
  {
    assert forall j | 0 <= j < |bs| && !bs[j].free :: bs[j] in Live(bs);
    i := Covered(bs, lo);
    assert i < |bs| - 1 ==> bs[i].End() == bs[i + 1].addr;
  }

  lemma FreeBlockIsRun(bs: seq<Blk>, i: nat)
    requires Tiles(bs) && i < |bs| && bs[i].free
    ensures FreeRun(bs, bs[i].addr, bs[i].End())
  {
    InPool(bs, i);
    forall b | b in Live(bs) ensures b.End() <= bs[i].addr || bs[i].End() <= b.addr {
      var j :| 0 <= j < |bs| && bs[j] == b;
      if i < j { InOrder(bs, i, j); } else { InOrder(bs, j, i); }
    }
  }

  // ----- handing out -----

  predicate Fits(b: Blk, need: nat) { b.free && b.size >= need }

  function FirstFit(bs: seq<Blk>, need: nat): (i: nat)
    ensures i <= |bs| && (i < |bs| ==> Fits(bs[i], need)) && forall j | 0 <= j < i :: !Fits(bs[j], need)
  {
    if bs == [] || Fits(bs[0], need) then 0 else 1 + FirstFit(bs[1..], need)
  }

  /** Split when the leftover holds a header and 16 bytes, then mark. */
  function Taken(b: Blk, need: nat): seq<Blk>
    requires Fits(b, need)
  {
    if b.size >= need + HEADER + 16 then
      [Blk(b.addr, need, false), Blk(b.addr + HEADER + need, b.size - need - HEADER, true)]
    else [b.(free := false)]
  }

  function Alloc(bs: seq<Blk>, need: nat): seq<Blk> {
    var i := FirstFit(bs, need);
    if i == |bs| then bs else bs[..i] + Taken(bs[i], need) + bs[i + 1..]
  }

  /** The block handed out for a request that fits. */
  function Got(bs: seq<Blk>, need: nat): Blk
    requires FirstFit(bs, need) < |bs|
  {
    Taken(bs[FirstFit(bs, need)], need)[0]
  }

  lemma TakenGood(b: Blk, need: nat)
    requires Fits(b, need) && need % 8 == 0 && b.addr % 8 == 0
    ensures var t := Taken(b, need);
            && t != [] && Spans(t, b.addr, b.End()) && NoTwoFree(t) && !t[0].free
            && Live(t) == {t[0]} && t[0].addr == b.addr && need <= t[0].size && t[0].End() <= b.End()
  {
    var t := Taken(b, need);
    assert t[0] in Live(t);
  }

  lemma AllocGood(bs: seq<Blk>, need: nat)
    requires Good(bs) && need % 8 == 0
    ensures Good(Alloc(bs, need))
  {
    hide Taken, Spans, NoTwoFree;
    var i := FirstFit(bs, need);
    if i < |bs| {
      var t := Taken(bs[i], need);
      AddrOk(bs, i);
      TakenGood(bs[i], need);
      SpansSplit(bs, HEAP_START, HEAP_END, i);
      EndsApart(bs, t, i);
      SpansJoin(bs[..i], t, HEAP_START, bs[i].addr, bs[i].End());
      LastOf(bs[..i], t);
      SpansJoin(bs[..i] + t, bs[i + 1..], HEAP_START, bs[i].End(), HEAP_END);
    }
  }

  lemma AddrOk(bs: seq<Blk>, i: nat)
    requires Tiles(bs) && i < |bs|
    ensures bs[i].addr % 8 == 0
  {
  }

  lemma LastOf(a: seq<Blk>, t: seq<Blk>)
    requires t != []
    ensures (a + t)[|a + t| - 1] == t[|t| - 1]
  {
  }

  /** What replaces a free block meets its neighbours, which are not free. */
  lemma EndsApart(bs: seq<Blk>, t: seq<Blk>, i: nat)
    requires NoTwoFree(bs) && i < |bs| && bs[i].free && t != []
    ensures bs[..i] != [] ==> !bs[..i][|bs[..i]| - 1].free
    ensures bs[i + 1..] != [] ==> !bs[i + 1..][0].free
  {
    var j := i - 1;
    assert i > 0 ==> bs[j + 1] == bs[i];
  }

  /** Exactly one more block is handed out; every other stays where and as large as it was. */
  lemma AllocLive(bs: seq<Blk>, need: nat)
    requires Good(bs) && need % 8 == 0 && FirstFit(bs, need) < |bs|
    ensures var b := Got(bs, need);
            && Live(Alloc(bs, need)) == Live(bs) + {b} && b !in Live(bs) && need <= b.size
            && FreeRun(bs, b.addr, b.End())
  {
    hide Taken, Spans, NoTwoFree, Live;
    var i := FirstFit(bs, need);
    AddrOk(bs, i);
    TakenGood(bs[i], need);
    FreeBlockIsRun(bs, i);
    SpansSplit(bs, HEAP_START, HEAP_END, i);
    var t := Taken(bs[i], need);
    LiveJoin(bs[..i], t);
    LiveJoin(bs[..i] + t, bs[i + 1..]);
    LiveJoin(bs[..i], [bs[i]]);
    LiveJoin(bs[..i] + [bs[i]], bs[i + 1..]);
    FreeIsNotLive(bs[i]);
  }

  lemma FreeIsNotLive(b: Blk)
    requires b.free
    ensures Live([b]) == {}
  {
  }

  /** A request uses up what it asks for, or a little more where what would be left over could not
      hold a header and 16 bytes; all that was free elsewhere still is. */
  lemma AllocUses(bs: seq<Blk>, need: nat)
    requires Good(bs) && need % 8 == 0 && FirstFit(bs, need) < |bs|
    ensures var b := Got(bs, need);
            && need <= b.size < need + HEADER + 16
            && (b.size == need || !FreeRun(Alloc(bs, need), b.End(), b.End() + 1))
            && forall lo: nat, hi: nat | FreeRun(bs, lo, hi) && (hi <= b.addr || b.End() <= lo) ::
                 FreeRun(Alloc(bs, need), lo, hi)
  {
    hide Good, FirstFit, Alloc, Live;
    AllocLive(bs, need);
    var i := FirstFit(bs, need);
    if Got(bs, need).size != need { TakenBehind(bs, i); }
  }

  /** Behind a free block lies one that is handed out, or the end of the pool. */
  lemma TakenBehind(bs: seq<Blk>, i: nat)
    requires Good(bs) && i < |bs| && bs[i].free
    ensures !FreeRun(bs, bs[i].End(), bs[i].End() + 1)
  {
    if i + 1 < |bs| {
      assert bs[i + 1] in Live(bs);
      assert bs[i].End() == bs[i + 1].addr;
    } else {
      InPool(bs, i);
    }
  }

  /** A request is refused only when it must be: when no free run anywhere in the pool
      holds a header and the payload. */
  lemma RefusedIff(bs: seq<Blk>, need: nat)
    requires Good(bs)
    ensures FirstFit(bs, need) == |bs| <==> forall lo: nat, hi: nat | FreeRun(bs, lo, hi) :: hi - lo < HEADER + need
  {
    var i := FirstFit(bs, need);
    if i < |bs| {
      FreeBlockIsRun(bs, i);
    } else {
      forall lo: nat, hi: nat | FreeRun(bs, lo, hi) ensures hi - lo < HEADER + need {
        var j := RunInOneBlock(bs, lo, hi);
        assert !Fits(bs[j], need);
      }
    }
  }

  /** Otherwise the lowest run that fits is used, from its start. */
  lemma LowestFit(bs: seq<Blk>, need: nat, lo: nat, hi: nat)
    requires Good(bs) && FirstFit(bs, need) < |bs| && FreeRun(bs, lo, hi) && hi - lo >= HEADER + need
    ensures Got(bs, need).addr <= lo
  {
    var i := FirstFit(bs, need);
    var j := RunInOneBlock(bs, lo, hi);
    assert Fits(bs[j], need);
    if i < j { InOrder(bs, i, j); }
  }

  /** How many of the first `i` blocks have a multiple of 16 for their size. */
  function WholeBefore(bs: seq<Blk>, i: nat): nat
    requires i <= |bs|
  {
    if i == 0 then 0 else WholeBefore(bs, i - 1) + if bs[i - 1].size % 16 == 0 then 1 else 0
  }

  lemma {:induction false} AddrParity(bs: seq<Blk>, i: nat)
    requires Tiles(bs) && i < |bs|
    ensures bs[i].addr % 16 == WholeBefore(bs, i) % 2 * 8
    decreases i
  {
    hide Spans;
    if i == 0 {
      FirstAddr(bs);
    } else {
      AddrParity(bs, i - 1);
      AddrOk(bs, i);
      NextAddr(bs, i - 1);
      ParityMoves(bs[i - 1].addr, bs[i - 1].size, WholeBefore(bs, i - 1));
    }
  }

  lemma FirstAddr(bs: seq<Blk>)
    requires Tiles(bs) && bs != []
    ensures bs[0].addr == HEAP_START
  {
  }

  lemma ParityMoves(addr: nat, size: nat, n: nat)
    requires addr % 16 == n % 2 * 8 && (addr + HEADER + size) % 8 == 0
    ensures (addr + HEADER + size) % 16 == (n + if size % 16 == 0 then 1 else 0) % 2 * 8
  {
    var q, i, j := addr / 16 + size / 16 + 1, addr % 16, size % 16;
    var end := addr + HEADER + size;
    assert end == 16 * q + i + j + 8;
    Mod8(end, 2 * q + i / 8 + 1 + j / 8, j % 8);
    if i + j == 0 {
      Mod16(end, q, 8);
    } else if i + j == 8 {
      Mod16(end, q + 1, 0);
    } else {
      Mod16(end, q + 1, 8);
    }
  }

  lemma Mod8(x: nat, q: nat, r: nat)
    requires x == 8 * q + r && r < 8
    ensures x % 8 == r
  {
  }

  lemma Mod16(x: nat, q: nat, r: nat)
    requires x == 16 * q + r && r < 16
    ensures x % 16 == r
  {
  }

  lemma NextAddr(bs: seq<Blk>, i: nat)
    requires Tiles(bs) && i + 1 < |bs|
    ensures bs[i + 1].addr == bs[i].addr + HEADER + bs[i].size
  {
    assert bs[i].End() == bs[i + 1].addr;
  }

  /** A payload lies on a multiple of 8, and on a multiple of 16 exactly when an odd number of the
      blocks below it have a multiple of 16 for their size: each of those shifts what follows by its
      24-byte header. */
  lemma PayloadAligned16Iff(bs: seq<Blk>, need: nat)
    requires Good(bs) && FirstFit(bs, need) < |bs|
    ensures Got(bs, need).Payload() % 8 == 0
    ensures Got(bs, need).Payload() % 16 == 0 <==> WholeBefore(bs, FirstFit(bs, need)) % 2 == 1
  {
    hide Good, FirstFit, WholeBefore;
    GoodTiles(bs);
    AddrParity(bs, FirstFit(bs, need));
    PayloadIs(bs, need);
    BehindHeader(bs[FirstFit(bs, need)].addr, WholeBefore(bs, FirstFit(bs, need)));
  }

  lemma BehindHeader(addr: nat, n: nat)
    requires addr % 16 == n % 2 * 8
    ensures (addr + HEADER) % 8 == 0 && ((addr + HEADER) % 16 == 0 <==> n % 2 == 1)
  {
    var q, p := addr / 16, addr + HEADER;
    if n % 2 == 0 {
      Mod8(p, 2 * q + 3, 0);
      Mod16(p, q + 1, 8);
    } else {
      Mod8(p, 2 * q + 4, 0);
      Mod16(p, q + 2, 0);
    }
  }

  lemma GoodTiles(bs: seq<Blk>)
    requires Good(bs)
    ensures Tiles(bs)
  {
  }

  lemma PayloadIs(bs: seq<Blk>, need: nat)
    requires FirstFit(bs, need) < |bs|
    ensures Got(bs, need).Payload() == bs[FirstFit(bs, need)].addr + HEADER
  {
  }

  /** So the first block handed out never lies on a multiple of 16. */
  lemma FirstIsMisaligned(need: nat)
    ensures FirstFit(Initial(), need) < |Initial()| ==> Got(Initial(), need).Payload() % 16 == 8
  {
    if FirstFit(Initial(), need) < |Initial()| {
      assert Initial()[FirstFit(Initial(), need)].addr == HEAP_START;
    }
  }

  // ----- taking back -----

  /** kfree's pass: every stretch of free blocks becomes one. */
  function Coalesce(bs: seq<Blk>): seq<Blk>
    decreases |bs|
  {
    if |bs| < 2 then bs
    else if bs[0].free && bs[1].free then Coalesce([Merged(bs[0], bs[1])] + bs[2..])
    else [bs[0]] + Coalesce(bs[1..])
  }

  function Merged(a: Blk, b: Blk): Blk { a.(size := a.size + HEADER + b.size) }

  function Release(bs: seq<Blk>, i: nat): seq<Blk>
    requires i < |bs|
  {
    Coalesce(bs[i := bs[i].(free := true)])
  }

  lemma {:induction false} CoalesceGood(bs: seq<Blk>, lo: nat, hi: nat)
    requires Spans(bs, lo, hi)
    ensures Spans(Coalesce(bs), lo, hi) && NoTwoFree(Coalesce(bs))
    ensures bs != [] ==> Coalesce(bs) != [] && Coalesce(bs)[0].free == bs[0].free
    decreases |bs|
  {
    if |bs| >= 2 {
      FirstTwo(bs, lo, hi);
      hide Spans, NoTwoFree;
      if bs[0].free && bs[1].free {
        CoalesceGood([Merged(bs[0], bs[1])] + bs[2..], lo, hi);
      } else {
        CoalesceGood(bs[1..], bs[0].End(), hi);
        SpansJoin([bs[0]], Coalesce(bs[1..]), lo, bs[0].End(), hi);
      }
    }
  }

  lemma FirstTwo(bs: seq<Blk>, lo: nat, hi: nat)
    requires Spans(bs, lo, hi) && |bs| >= 2
    ensures Spans([bs[0]], lo, bs[0].End()) && NoTwoFree([bs[0]]) && Spans(bs[1..], bs[0].End(), hi)
    ensures Spans([Merged(bs[0], bs[1])] + bs[2..], lo, hi)
  {
    var m, t := [Merged(bs[0], bs[1])] + bs[2..], bs[1..];
    assert forall i | 1 <= i < |m| :: m[i] == bs[i + 1];
    assert forall i | 0 <= i < |t| :: t[i] == bs[i + 1];
  }

  lemma {:induction false} CoalesceLive(bs: seq<Blk>)
    ensures Live(Coalesce(bs)) == Live(bs)
    decreases |bs|
  {
    if |bs| >= 2 {
      if bs[0].free && bs[1].free {
        var m := [Merged(bs[0], bs[1])] + bs[2..];
        CoalesceLive(m);
        LiveCons(m);
        LiveCons(bs);
        LiveCons(bs[1..]);
        assert m[1..] == bs[1..][1..];
      } else {
        CoalesceLive(bs[1..]);
        LiveCons(bs);
        LiveCons(Coalesce(bs));
      }
    }
  }

  lemma LiveCons(bs: seq<Blk>)
    requires bs != []
    ensures Live(bs) == (if bs[0].free then {} else {bs[0]}) + Live(bs[1..])
  {
    var t := bs[1..];
    forall b | b in Live(bs) ensures b in (if bs[0].free then {} else {bs[0]}) + Live(t) {
      var j :| 0 <= j < |bs| && bs[j] == b && !bs[j].free;
      assert j > 0 ==> t[j - 1] == b;
    }
    forall b | b in Live(t) ensures b in Live(bs) {
      var j :| 0 <= j < |t| && t[j] == b && !t[j].free;
      assert bs[j + 1] == b;
    }
  }

  /** Releasing a block takes exactly that one away and leaves no two free neighbours. */
  lemma ReleaseGood(bs: seq<Blk>, i: nat)
    requires Good(bs) && i < |bs| && !bs[i].free
    ensures Good(Release(bs, i)) && Live(Release(bs, i)) == Live(bs) - {bs[i]}
  {
    var u := bs[i := bs[i].(free := true)];
    CoalesceGood(u, HEAP_START, HEAP_END);
    CoalesceLive(u);
    forall b | b in Live(bs) - {bs[i]} ensures b in Live(u) {
      var j :| 0 <= j < |bs| && bs[j] == b && !bs[j].free;
      assert u[j] == b;
    }
    forall b | b in Live(u) ensures b in Live(bs) - {bs[i]} {
      var j :| 0 <= j < |u| && u[j] == b && !u[j].free;
      assert bs[j] == b;
      if i < j { InOrder(bs, i, j); } else { InOrder(bs, j, i); }
    }
  }

  // ----- the heap is determined by what is handed out -----

  lemma {:induction false} SameLive(a: seq<Blk>, b: seq<Blk>, lo: nat, hi: nat)
    requires Spans(a, lo, hi) && Spans(b, lo, hi) && NoTwoFree(a) && NoTwoFree(b) && Live(a) == Live(b)
    ensures a == b
    decreases |a|
  {
    if a == [] || b == [] {
      NothingBetween(a, lo);
      NothingBetween(b, lo);
    } else {
      FirstSame(a, b, lo, hi);
      FirstSame(b, a, lo, hi);
      assert a[0] == b[0];
      SpansSplit(a, lo, hi, 0);
      SpansSplit(b, lo, hi, 0);
      RestLive(a, lo, hi);
      RestLive(b, lo, hi);
      hide Spans, NoTwoFree, Live;
      SameLive(a[1..], b[1..], a[0].End(), hi);
    }
  }

  lemma NothingBetween(a: seq<Blk>, lo: nat)
    requires Spans(a, lo, lo)
    ensures a == []
  {
    if |a| > 1 { SpanPositive(a, 0, |a| - 1); }
  }

  lemma RestLive(a: seq<Blk>, lo: nat, hi: nat)
    requires Spans(a, lo, hi) && a != []
    ensures Live(a[1..]) == Live(a) - {a[0]}
  {
    LiveCons(a);
    LaterOnes(a, lo, hi);
  }

  lemma SpanPositive(a: seq<Blk>, i: nat, j: nat)
    requires i < j < |a| && forall k | 0 <= k < |a| - 1 :: a[k].End() == a[k + 1].addr
    ensures a[i].End() <= a[j].addr
    decreases j
  {
    if i < j - 1 { SpanPositive(a, i, j - 1); }
  }

  /** Everything live after the first block starts at its end or later. */
  lemma LaterOnes(a: seq<Blk>, lo: nat, hi: nat)
    requires Spans(a, lo, hi) && a != []
    ensures forall x | x in Live(a[1..]) :: a[0].End() <= x.addr
    ensures a[0] !in Live(a[1..])
  {
    forall x | x in Live(a[1..]) ensures a[0].End() <= x.addr {
      var j :| 0 <= j < |a[1..]| && a[1..][j] == x;
      SpanPositive(a, 0, j + 1);
    }
  }

  /** Where the first block of `a` is live, so is that of `b`; where it is free it
      ends no later than that of `b`. */
  lemma FirstSame(a: seq<Blk>, b: seq<Blk>, lo: nat, hi: nat)
    requires Spans(a, lo, hi) && Spans(b, lo, hi) && NoTwoFree(a) && NoTwoFree(b) && Live(a) == Live(b) && a != []
    requires b != []
    ensures !a[0].free ==> b[0] == a[0]
    ensures a[0].free && b[0].free ==> b[0].End() <= a[0].End()
  {
    if !a[0].free {
      assert a[0] in Live(a);
      var j :| 0 <= j < |b| && b[j] == a[0];
      if j > 0 { SpanPositive(b, 0, j); }
    } else if b[0].free {
      if |a| > 1 {
        assert a[1] in Live(a);
        var j :| 0 <= j < |b| && b[j] == a[1];
        if j > 0 { SpanPositive(b, 0, j); }
      } else if |b| > 1 {
        SpanPositive(b, 0, |b| - 1);
      }
    }
  }

  /** Two heaps that hand out the same blocks are the same heap, whatever their histories. */
  lemma HeapDetermined(a: seq<Blk>, b: seq<Blk>)
    requires Good(a) && Good(b) && Live(a) == Live(b)
    ensures a == b
  {
    SameLive(a, b, HEAP_START, HEAP_END);
  }

  /** So releasing everything, in whatever order, leaves the one initial block. */
  lemma AllReleased(bs: seq<Blk>)
    requires Good(bs)
    ensures Live(bs) == {} <==> bs == Initial()
  {
    if Live(bs) == {} { HeapDetermined(bs, Initial()); }
  }

  /** And releasing what was just handed out undoes the request. */
  lemma ReleaseUndoesAlloc(bs: seq<Blk>, need: nat, i: nat)
    requires Good(bs) && need % 8 == 0 && FirstFit(bs, need) < |bs|
    requires i < |Alloc(bs, need)| && Alloc(bs, need)[i] == Got(bs, need)
    ensures Release(Alloc(bs, need), i) == bs
  {
    AllocGood(bs, need);
    AllocLive(bs, need);
    ReleaseGood(Alloc(bs, need), i);
    HeapDetermined(Release(Alloc(bs, need), i), bs);
  }

  // ----- whole runs -----

  datatype Call = Ask(n: nat) | GiveBack(b: Blk)

  /** One call: any request, or giving back a block that is handed out. */
  ghost predicate Step(bs: seq<Blk>, c: Call, bs2: seq<Blk>) {
    match c
    case Ask(n) => bs2 == Alloc(bs, Wanted(n))
    case GiveBack(b) => exists i :: 0 <= i < |bs| && bs[i] == b && !b.free && bs2 == Release(bs, i)
  }

  ghost predicate Run(states: seq<seq<Blk>>, calls: seq<Call>) {
    && |states| == |calls| + 1 && states[0] == Initial()
    && forall k | 0 <= k < |calls| :: Step(states[k], calls[k], states[k + 1])
  }

  lemma StepGood(bs: seq<Blk>, c: Call, bs2: seq<Blk>)
    requires Good(bs) && Step(bs, c, bs2)
    ensures Good(bs2) && forall b | b in Live(bs) && c != GiveBack(b) :: b in Live(bs2)
  {
    match c
    case Ask(n) =>
      AllocGood(bs, Wanted(n));
      if FirstFit(bs, Wanted(n)) < |bs| { AllocLive(bs, Wanted(n)); }
    case GiveBack(b) =>
      var i :| 0 <= i < |bs| && bs[i] == b && !b.free && bs2 == Release(bs, i);
      ReleaseGood(bs, i);
  }

  /** At every point of every run the pool is tiled with no two free neighbours, and a
      block once handed out keeps its place and size until it is given back. */
  lemma {:induction false} RunsKeepBlocks(states: seq<seq<Blk>>, calls: seq<Call>, i: nat, j: nat, b: Blk)
    requires Run(states, calls) && i <= j < |states|
    requires b in Live(states[i]) && forall k | i <= k < j :: calls[k] != GiveBack(b)
    ensures Good(states[i]) && Good(states[j]) && b in Live(states[j])
    decreases j
  {
    hide Good, Step, Live;
    RunsStayGood(states, calls, i);
    if i < j {
      RunsKeepBlocks(states, calls, i, j - 1, b);
      StepGood(states[j - 1], calls[j - 1], states[j - 1 + 1]);
    }
  }

  lemma {:induction false} RunsStayGood(states: seq<seq<Blk>>, calls: seq<Call>, i: nat)
    requires Run(states, calls) && i < |states|
    ensures Good(states[i])
  {
    hide Step;
    if i > 0 {
      RunsStayGood(states, calls, i - 1);
      StepGood(states[i - 1], calls[i - 1], states[i - 1 + 1]);
    }
  }

  /** A run that has given everything back is where it started. */
  lemma RunsRecover(states: seq<seq<Blk>>, calls: seq<Call>, i: nat)
    requires Run(states, calls) && i < |states|
    ensures Live(states[i]) == {} <==> states[i] == states[0]
  {
    RunsStayGood(states, calls, i);
    AllReleased(states[i]);
  }
}
