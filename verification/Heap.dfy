/** The kernel heap itself: block headers in memory, linked by address. */
module Heap {
  import opened HeapBlocks

  /** What stands in memory at the address of a block. */
  datatype Header = Header(size: nat, free: bool, next: nat)

  const NULL := 0

  // ----- headers in memory and the blocks they stand for -----

  function NextOf(bs: seq<Blk>, i: nat): nat {
    if i + 1 < |bs| then bs[i + 1].addr else NULL
  }

  ghost predicate HeaderOk(mem: map<nat, Header>, bs: seq<Blk>, i: nat)
    requires i < |bs|
  {
    bs[i].addr in mem && mem[bs[i].addr] == Header(bs[i].size, bs[i].free, NextOf(bs, i))
  }

  ghost predicate Linked(mem: map<nat, Header>, bs: seq<Blk>) {
    forall i | 0 <= i < |bs| :: HeaderOk(mem, bs, i)
  }

  /** The bytes of a header written at `a` are no part of this block's payload. */
  ghost predicate HeaderMisses(a: nat, b: Blk) {
    a + HEADER <= b.Payload() || b.End() <= a
  }

  /** Where memory changed, it changed outside the payloads `keep`. */
  ghost predicate OnlyHeaders(m: map<nat, Header>, m2: map<nat, Header>, keep: set<Blk>) {
    forall a | a in m2 && (a !in m || m2[a] != m[a]) :: forall b | b in keep :: HeaderMisses(a, b)
  }

  lemma AddrsDiffer(bs: seq<Blk>, i: nat, j: nat)
    requires Tiles(bs) && i < |bs| && j < |bs| && i != j
    ensures bs[i].addr != bs[j].addr
  {
    if i < j { InOrder(bs, i, j); } else { InOrder(bs, j, i); }
  }

  /** The header of a block in the list misses every payload handed out. */
  lemma ListHeaderMisses(bs: seq<Blk>, i: nat, b: Blk)
    requires Tiles(bs) && i < |bs| && b in Live(bs)
    ensures HeaderMisses(bs[i].addr, b)
  {
    var j :| 0 <= j < |bs| && bs[j] == b;
    if i < j { InOrder(bs, i, j); } else if j < i { InOrder(bs, j, i); }
  }

  /** Changing size and mark of one block in the list. */
  lemma MarkLinked(mem: map<nat, Header>, bs: seq<Blk>, i: nat, b: Blk)
    requires Tiles(bs) && Linked(mem, bs) && i < |bs| && b.addr == bs[i].addr
    ensures Linked(mem[b.addr := Header(b.size, b.free, NextOf(bs, i))], bs[i := b])
  {
    var m2, r := mem[b.addr := Header(b.size, b.free, NextOf(bs, i))], bs[i := b];
    forall j | 0 <= j < |r| ensures HeaderOk(m2, r, j) {
      assert HeaderOk(mem, bs, j);
      if j != i { AddrsDiffer(bs, i, j); }
    }
  }

  /** Splitting one block in two. */
  lemma SplitLinked(mem: map<nat, Header>, bs: seq<Blk>, i: nat, x: Blk, y: Blk)
    requires Tiles(bs) && Linked(mem, bs) && i < |bs| && x.addr == bs[i].addr && x.End() == y.addr
    requires y.End() == bs[i].End()
    ensures Linked(mem[y.addr := Header(y.size, y.free, NextOf(bs, i))][x.addr := Header(x.size, x.free, y.addr)],
                   bs[..i] + [x, y] + bs[i + 1..])
  {
    var m2, r := mem[y.addr := Header(y.size, y.free, NextOf(bs, i))][x.addr := Header(x.size, x.free, y.addr)],
                 bs[..i] + [x, y] + bs[i + 1..];
    assert forall j | 0 <= j < i :: r[j] == bs[j];
    assert forall j | i + 1 < j < |r| :: r[j] == bs[j - 1];
    forall j | 0 <= j < |r| ensures HeaderOk(m2, r, j) {
      if j < i {
        assert HeaderOk(mem, bs, j);
        InOrder(bs, j, i);
      } else if j > i + 1 {
        assert HeaderOk(mem, bs, j - 1);
        InOrder(bs, i, j - 1);
      }
    }
  }

  /** Joining a block with the one after it. */
  lemma JoinLinked(mem: map<nat, Header>, bs: seq<Blk>, i: nat)
    requires Tiles(bs) && Linked(mem, bs) && i + 1 < |bs|
    ensures var m := Merged(bs[i], bs[i + 1]);
            Linked(mem[m.addr := Header(m.size, m.free, NextOf(bs, i + 1))], bs[..i] + [m] + bs[i + 2..])
  {
    var m := Merged(bs[i], bs[i + 1]);
    var m2, r := mem[m.addr := Header(m.size, m.free, NextOf(bs, i + 1))], bs[..i] + [m] + bs[i + 2..];
    assert forall j | 0 <= j < i :: r[j] == bs[j];
    assert forall j | i < j < |r| :: r[j] == bs[j + 1];
    forall j | 0 <= j < |r| ensures HeaderOk(m2, r, j) {
      if j < i {
        assert HeaderOk(mem, bs, j);
        InOrder(bs, j, i);
      } else if j > i {
        assert HeaderOk(mem, bs, j + 1);
        InOrder(bs, i, j + 1);
      }
    }
  }

  lemma JoinTiles(bs: seq<Blk>, i: nat)
    requires Tiles(bs) && i + 1 < |bs|
    ensures Tiles(bs[..i] + [Merged(bs[i], bs[i + 1])] + bs[i + 2..])
  {
    var r := bs[..i] + [Merged(bs[i], bs[i + 1])] + bs[i + 2..];
    assert forall j | 0 <= j < i :: r[j] == bs[j];
    assert forall j | i < j < |r| :: r[j] == bs[j + 1];
  }

  /** The list of a heap before heap_init is empty. */
  class Heap {
    var head: nat
    var mem: map<nat, Header>
    ghost var blocks: seq<Blk>

    ghost predicate Valid()
      reads this
    {
      if head == NULL then blocks == []
      else Good(blocks) && head == HEAP_START && Linked(mem, blocks)
    }

    constructor ()
      ensures Valid() && head == NULL
    {
      head, mem, blocks := NULL, map[], [];
    }

    method Init()
      modifies this
      ensures Valid() && head != NULL && blocks == Initial()
    {
      head := HEAP_START;
      mem := mem[head := Header(HEAP_END - HEAP_START - HEADER, true, NULL)];
      blocks := Initial();
    }

    /** Returns NULL exactly when no free run of the pool can hold a header and the
        rounded request; otherwise hands out the start of the lowest such run. */
    method Kmalloc(n: nat) returns (p: nat)
      requires Valid() && n < TWO64
      modifies this
      ensures Valid() && head == old(head)
      ensures old(head) == NULL ==> p == NULL && blocks == []
      ensures blocks == Alloc(old(blocks), Wanted(n))
      ensures old(head) != NULL ==>
                (p == NULL <==> forall lo: nat, hi: nat | FreeRun(old(blocks), lo, hi) :: hi - lo < HEADER + Wanted(n))
      ensures p == NULL ==> blocks == old(blocks) && mem == old(mem)
      ensures p != NULL ==>
                && FirstFit(old(blocks), Wanted(n)) < |old(blocks)| && p == Got(old(blocks), Wanted(n)).Payload()
                && var b := Got(old(blocks), Wanted(n));
                   && b !in Live(old(blocks)) && Live(blocks) == Live(old(blocks)) + {b}
                   && (n <= TWO64 - 16 ==> n <= b.size)
      ensures OnlyHeaders(old(mem), mem, Live(old(blocks)))
    {
      var need := Align16(if n == 0 then 1 else n);
      WantedIsEnough(n);
      if head != NULL { RefusedIff(blocks, need); }
      var b := head;
      ghost var i := 0;
      while b != NULL
        invariant Valid() && blocks == old(blocks) && mem == old(mem) && head == old(head)
        invariant i <= |blocks| && forall j | 0 <= j < i :: !Fits(blocks[j], need)
        invariant b == (if i < |blocks| then blocks[i].addr else NULL) && (i < |blocks| ==> b != NULL)
        decreases |blocks| - i
      {
        assert HeaderOk(mem, blocks, i);
        if mem[b].free && mem[b].size >= need {
          FirstFitIs(blocks, need, i);
          p := Take(b, need, i);
          return;
        }
        InPoolNext(blocks, i);
        b, i := mem[b].next, i + 1;
      }
      FirstFitIs(blocks, need, i);
      return NULL;
    }

    lemma InPoolNext(bs: seq<Blk>, i: nat)
      requires Tiles(bs) && i < |bs|
      ensures i + 1 < |bs| ==> bs[i + 1].addr != NULL
    {
      if i + 1 < |bs| { InPool(bs, i + 1); }
    }

    lemma FirstFitIs(bs: seq<Blk>, need: nat, i: nat)
      requires i <= |bs| && (i < |bs| ==> Fits(bs[i], need)) && forall j | 0 <= j < i :: !Fits(bs[j], need)
      ensures FirstFit(bs, need) == i
    {
    }

    /** The body of the search: splits where it pays, marks, and returns the payload. */
    method Take(b: nat, need: nat, ghost i: nat) returns (p: nat)
      requires Valid() && head != NULL && need % 16 == 0
      requires i < |blocks| && b == blocks[i].addr && FirstFit(blocks, need) == i
      modifies this
      ensures Valid() && head == old(head)
      ensures blocks == Alloc(old(blocks), need) && p == b + HEADER && p != NULL
      ensures p == Got(old(blocks), need).Payload()
      ensures OnlyHeaders(old(mem), mem, Live(old(blocks)))
      ensures Got(old(blocks), need) !in Live(old(blocks))
      ensures Live(blocks) == Live(old(blocks)) + {Got(old(blocks), need)}
      ensures need <= Got(old(blocks), need).size
    {
      hide Good, FirstFit, Alloc, Live, Taken, OnlyHeaders;
      assert HeaderOk(mem, blocks, i);
      AllocGood(blocks, need);
      AllocLive(blocks, need);
      PayloadIs(blocks, need);
      ghost var bs := blocks;
      var x := mem[b];
      if x.size >= need + HEADER + 16 {
        var nb := b + HEADER + need;
        mem := mem[nb := Header(x.size - need - HEADER, true, x.next)];
        mem := mem[b := Header(need, x.free, nb)];
      }
      mem := mem[b := mem[b].(free := false)];
      blocks := Alloc(bs, need);
      TakenLinked(old(mem), mem, bs, i, need);
      return b + HEADER;
    }

    lemma TakenLinked(m: map<nat, Header>, m2: map<nat, Header>, bs: seq<Blk>, i: nat, need: nat)
      requires Good(bs) && Linked(m, bs) && i < |bs| && FirstFit(bs, need) == i && need % 8 == 0
      requires var b := bs[i];
               if b.size >= need + HEADER + 16 then
                 m2 == m[b.addr + HEADER + need := Header(b.size - need - HEADER, true, NextOf(bs, i))]
                        [b.addr := Header(need, false, b.addr + HEADER + need)]
               else m2 == m[b.addr := Header(b.size, false, NextOf(bs, i))]
      ensures Linked(m2, Alloc(bs, need)) && OnlyHeaders(m, m2, Live(bs))
    {
      hide Good, Spans, NoTwoFree, Linked, FreeRun, Live, HeaderMisses, Alloc, FirstFit, Taken, NextOf;
      var b := bs[i];
      FitRun(bs, i, need);
      HeadersMiss(bs, b, need);
      AllocParts(bs, i, need);
      if b.size >= need + HEADER + 16 {
        var x, y := Blk(b.addr, need, false), Blk(b.addr + HEADER + need, b.size - need - HEADER, true);
        SplitLinked(m, bs, i, x, y);
      } else {
        MarkLinked(m, bs, i, b.(free := false));
      }
    }

    lemma FitRun(bs: seq<Blk>, i: nat, need: nat)
      requires Good(bs) && i < |bs| && FirstFit(bs, need) == i
      ensures Tiles(bs) && Fits(bs[i], need) && FreeRun(bs, bs[i].addr, bs[i].End())
    {
      hide Spans, NoTwoFree, FirstFit, FreeRun;
      FreeBlockIsRun(bs, i);
    }

    lemma AllocParts(bs: seq<Blk>, i: nat, need: nat)
      requires i < |bs| && FirstFit(bs, need) == i
      ensures var b := bs[i];
              Alloc(bs, need)
              == if b.size >= need + HEADER + 16
                 then bs[..i] + [Blk(b.addr, need, false), Blk(b.addr + HEADER + need, b.size - need - HEADER, true)]
                      + bs[i + 1..]
                 else bs[i := b.(free := false)]
    {
      hide FirstFit;
      var b := bs[i];
      assert bs[i := b.(free := false)] == bs[..i] + [b.(free := false)] + bs[i + 1..];
    }

    lemma HeadersMiss(bs: seq<Blk>, b: Blk, need: nat)
      requires FreeRun(bs, b.addr, b.End())
      ensures forall x | x in Live(bs) ::
                HeaderMisses(b.addr, x) && (b.size >= need + HEADER + 16 ==> HeaderMisses(b.addr + HEADER + need, x))
    {
    }

    /** Takes back a payload that is handed out. Afterwards exactly that block is gone
        and no two free blocks touch. */
    method Kfree(p: nat, ghost i: nat)
      requires Valid()
      requires p != NULL ==> i < |blocks| && !blocks[i].free && p == blocks[i].Payload()
      modifies this
      ensures Valid() && head == old(head)
      ensures p == NULL ==> blocks == old(blocks) && mem == old(mem)
      ensures p != NULL ==>
                && blocks == Release(old(blocks), i)
                && Live(blocks) == Live(old(blocks)) - {old(blocks[i])}
                && OnlyHeaders(old(mem), mem, Live(blocks))
    {
      if p == NULL {
        return;
      }
      ghost var bs := blocks;
      ReleaseGood(bs, i);
      var b := p - HEADER;
      assert HeaderOk(mem, blocks, i);
      MarkLinked(mem, blocks, i, blocks[i].(free := true));
      MarkedTiles(bs, i);
      mem := mem[b := mem[b].(free := true)];
      blocks := blocks[i := blocks[i].(free := true)];
      CoalesceLive(blocks);
      HeadersStay(bs, i, b);
      Pass(Live(Release(bs, i)), old(mem));
    }

    lemma MarkedTiles(bs: seq<Blk>, i: nat)
      requires Tiles(bs) && i < |bs|
      ensures Tiles(bs[i := bs[i].(free := true)])
    {
    }

    lemma HeadersStay(bs: seq<Blk>, i: nat, a: nat)
      requires Good(bs) && i < |bs| && !bs[i].free && a == bs[i].addr
      ensures forall b | b in Live(Release(bs, i)) :: HeaderMisses(a, b)
    {
      ReleaseGood(bs, i);
      forall b | b in Live(Release(bs, i)) ensures HeaderMisses(a, b) {
        ListHeaderMisses(bs, i, b);
      }
    }

    /** The coalescing pass: `cur` runs down the list, swallowing free neighbours. */
    method Pass(ghost keep: set<Blk>, ghost m0: map<nat, Header>)
      requires head == HEAP_START && Tiles(blocks) && Linked(mem, blocks)
      requires keep == Live(blocks) && OnlyHeaders(m0, mem, keep)
      modifies this`mem, this`blocks
      ensures Good(blocks) && Linked(mem, blocks) && blocks == Coalesce(old(blocks)) && OnlyHeaders(m0, mem, keep)
    {
      hide Spans, NoTwoFree, Linked, Live, OnlyHeaders;
      CoalesceGood(blocks, HEAP_START, HEAP_END);
      PoolStarts(blocks);
      var cur := head;
      ghost var k := 0;
      assert blocks == blocks[..0] + Coalesce(blocks)[..0] + blocks[0..];
      while cur != NULL
        invariant Tiles(blocks) && Linked(mem, blocks) && Live(blocks) == keep && OnlyHeaders(m0, mem, keep)
        invariant k <= |blocks| && cur == (if k < |blocks| then blocks[k].addr else NULL)
        invariant k < |blocks| ==> cur != NULL
        invariant blocks[..k] + Coalesce(blocks[k..]) == Coalesce(old(blocks))
        decreases |blocks| - k
      {
        ghost var n0 := |blocks|;
        ListStep(mem, blocks, k);
        hide Coalesce, Merged;
        while mem[cur].free && mem[cur].next != NULL && mem[mem[cur].next].free
          invariant Tiles(blocks) && Linked(mem, blocks) && Live(blocks) == keep && OnlyHeaders(m0, mem, keep)
          invariant k < |blocks| <= n0 && cur == blocks[k].addr && HeaderOk(mem, blocks, k)
          invariant mem[cur].next != NULL ==> mem[cur].next in mem
          invariant mem[cur].next != NULL <==> k + 1 < |blocks|
          invariant k + 1 < |blocks| ==> HeaderOk(mem, blocks, k + 1)
          invariant blocks[..k] + Coalesce(blocks[k..]) == Coalesce(old(blocks))
          decreases |blocks|
        {
          Absorb(cur, k, keep, m0);
          ListStep(mem, blocks, k);
        }
        DoneWith(blocks, k);
        cur, k := mem[cur].next, k + 1;
      }
      assert k == |blocks|;
      assert blocks[k..] == [] && Coalesce(blocks[k..]) == [] && blocks[..k] + [] == blocks;
    }

    lemma PoolStarts(bs: seq<Blk>)
      requires Tiles(bs)
      ensures bs != [] && bs[0].addr == HEAP_START
    {
    }

    lemma ListStep(m: map<nat, Header>, bs: seq<Blk>, k: nat)
      requires Tiles(bs) && Linked(m, bs) && k < |bs|
      ensures HeaderOk(m, bs, k) && (k + 1 < |bs| ==> HeaderOk(m, bs, k + 1) && bs[k + 1].addr != NULL)
    {
      if k + 1 < |bs| {
        assert HeaderOk(m, bs, k + 1);
        InPool(bs, k + 1);
      }
    }

    /** A block whose successor is not free, or that is not free, is done with. */
    lemma DoneWith(bs: seq<Blk>, k: nat)
      requires k < |bs| && !(bs[k].free && k + 1 < |bs| && bs[k + 1].free)
      ensures bs[..k] + Coalesce(bs[k..]) == bs[..k + 1] + Coalesce(bs[k + 1..])
    {
      var t := bs[k..];
      assert t[0] == bs[k] && t[1..] == bs[k + 1..];
      assert bs[..k + 1] == bs[..k] + [bs[k]];
      assert |t| > 1 ==> t[1] == bs[k + 1];
    }

    method Absorb(cur: nat, ghost k: nat, ghost keep: set<Blk>, ghost m0: map<nat, Header>)
      requires Tiles(blocks) && Linked(mem, blocks) && Live(blocks) == keep && OnlyHeaders(m0, mem, keep)
      requires k + 1 < |blocks| && blocks[k].free && blocks[k + 1].free && cur == blocks[k].addr
      modifies this`mem, this`blocks
      ensures Tiles(blocks) && Linked(mem, blocks) && Live(blocks) == keep && OnlyHeaders(m0, mem, keep)
      ensures |blocks| == |old(blocks)| - 1 && blocks[k].addr == cur && blocks[..k] == old(blocks[..k])
      ensures Coalesce(blocks[k..]) == Coalesce(old(blocks[k..]))
    {
      ghost var bs := blocks;
      assert HeaderOk(mem, bs, k) && HeaderOk(mem, bs, k + 1);
      hide Spans, Linked, Live, Coalesce, HeaderMisses;
      JoinLinked(mem, bs, k);
      JoinTiles(bs, k);
      Swallow(bs, k);
      forall b | b in keep ensures HeaderMisses(cur, b) {
        ListHeaderMisses(bs, k, b);
      }
      var nx := mem[mem[cur].next];
      mem := mem[cur := mem[cur].(size := mem[cur].size + HEADER + nx.size)];
      mem := mem[cur := mem[cur].(next := nx.next)];
      assert mem == old(mem)[cur := Header(bs[k].size + HEADER + nx.size, true, nx.next)];
      blocks := bs[..k] + [Merged(bs[k], bs[k + 1])] + bs[k + 2..];
    }

    lemma Swallow(bs: seq<Blk>, k: nat)
      requires k + 1 < |bs| && bs[k].free && bs[k + 1].free
      ensures var r := bs[..k] + [Merged(bs[k], bs[k + 1])] + bs[k + 2..];
              && Live(r) == Live(bs) && Coalesce(r[k..]) == Coalesce(bs[k..]) && r[..k] == bs[..k]
    {
      var m := Merged(bs[k], bs[k + 1]);
      var r, t := bs[..k] + [m] + bs[k + 2..], bs[k..];
      assert r[k..] == [m] + bs[k + 2..];
      assert t[0] == bs[k] && t[1] == bs[k + 1] && t[2..] == bs[k + 2..];
      assert Coalesce(t) == Coalesce([Merged(t[0], t[1])] + t[2..]);
      CoalesceLive(r[k..]);
      CoalesceLive(t);
      hide Coalesce, Live;
      assert r == r[..k] + r[k..] && bs == bs[..k] + t && r[..k] == bs[..k];
      LiveJoin(r[..k], r[k..]);
      LiveJoin(bs[..k], t);
    }
  }
}
