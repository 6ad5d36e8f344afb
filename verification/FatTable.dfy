/** The file allocation table as a sequence of 16-bit entries, one per cluster
    number, and the cluster chains threaded through it. */
module FatTable {

  /** What cl_alloc writes; the walkers take anything from EOC up as an end. */
  const END_MARK := 0xFFFF
  const EOC := 0xFFF8
  /** The walkers stop at this value. */
  const STOP := 0xFFF0

  ghost predicate TableShape(fat: seq<nat>) {
    2 <= |fat| <= STOP && forall n | 0 <= n < |fat| :: fat[n] < 0x1_0000
  }

  /** No entry leads a walker outside the table. */
  ghost predicate InRange(fat: seq<nat>) {
    && TableShape(fat)
    && forall n | 2 <= n < |fat| :: fat[n] < |fat| || fat[n] >= STOP
  }

  ghost predicate Clusters(fat: seq<nat>, ch: seq<nat>) {
    forall i | 0 <= i < |ch| :: 2 <= ch[i] < |fat|
  }

  ghost predicate Distinct(ch: seq<nat>) {
    forall i, j | 0 <= i < j < |ch| :: ch[i] != ch[j]
  }

  /** `ch` is what a walk over `fat` from `ch[0]` visits up to an end mark. */
  ghost predicate IsChain(fat: seq<nat>, ch: seq<nat>) {
    && ch != []
    && Clusters(fat, ch)
    && (forall i | 0 <= i < |ch| - 1 :: fat[ch[i]] == ch[i + 1])
    && fat[ch[|ch| - 1]] >= EOC
  }

  // ----- shape of chains -----

  lemma {:induction false} ChainUnique(fat: seq<nat>, a: seq<nat>, b: seq<nat>)
    requires TableShape(fat) && IsChain(fat, a) && IsChain(fat, b) && a[0] == b[0]
    ensures a == b
    decreases |a|
  {
    assert |a| > 1 ==> fat[a[0]] == a[1];
    assert |b| > 1 ==> fat[b[0]] == b[1];
    if |a| > 1 && |b| > 1 {
      Suffix(fat, a, 1);
      Suffix(fat, b, 1);
      ChainUnique(fat, a[1..], b[1..]);
      assert a == [a[0]] + a[1..] && b == [b[0]] + b[1..];
    } else {
      assert |a| == |b| == 1;
    }
  }

  lemma Suffix(fat: seq<nat>, ch: seq<nat>, k: nat)
    requires IsChain(fat, ch) && k < |ch|
    ensures IsChain(fat, ch[k..])
  {
    var t := ch[k..];
    forall i | 0 <= i < |t| - 1 ensures fat[t[i]] == t[i + 1] {
      assert fat[ch[k + i]] == ch[k + i + 1];
    }
  }

  /** A chain that ends cannot come back to a cluster it has left. */
  lemma ChainAcyclic(fat: seq<nat>, ch: seq<nat>)
    requires TableShape(fat) && IsChain(fat, ch)
    ensures Distinct(ch)
  {
    forall i, j | 0 <= i < j < |ch| ensures ch[i] != ch[j] {
      if ch[i] == ch[j] {
        Suffix(fat, ch, i);
        Suffix(fat, ch, j);
        ChainUnique(fat, ch[i..], ch[j..]);
        assert false;
      }
    }
  }

  /** Two chains that meet anywhere run together from there to the end, so two
      chains neither of whose heads lies on the other are disjoint. */
  lemma ChainsMeetOnlyInSuffixes(fat: seq<nat>, a: seq<nat>, b: seq<nat>, i: nat, j: nat)
    requires TableShape(fat) && IsChain(fat, a) && IsChain(fat, b)
    requires i < |a| && j < |b| && a[i] == b[j]
    ensures a[i..] == b[j..]
  {
    Suffix(fat, a, i);
    Suffix(fat, b, j);
    ChainUnique(fat, a[i..], b[j..]);
  }

  // ----- free clusters -----

  ghost function Free(fat: seq<nat>): set<nat> {
    set n | 2 <= n < |fat| && fat[n] == 0
  }

  ghost function Used(fat: seq<nat>): set<nat> {
    set n | 2 <= n < |fat| && fat[n] != 0
  }

  ghost function Elems(ch: seq<nat>): set<nat> {
    set i | 0 <= i < |ch| :: ch[i]
  }

  lemma {:induction false} ElemsCount(ch: seq<nat>)
    requires Distinct(ch)
    ensures |Elems(ch)| == |ch|
  {
    if ch != [] {
      var k := |ch| - 1;
      ElemsCount(ch[..k]);
      assert Elems(ch) == Elems(ch[..k]) + {ch[k]} by {
        forall x | x in Elems(ch) ensures x in Elems(ch[..k]) + {ch[k]} {
          var i :| 0 <= i < |ch| && ch[i] == x;
          if i < k { assert ch[..k][i] == x; }
        }
        forall x | x in Elems(ch[..k]) ensures x in Elems(ch) {
          var i :| 0 <= i < k && ch[..k][i] == x;
          assert ch[i] == x;
        }
      }
      assert ch[k] !in Elems(ch[..k]);
    }
  }

  ghost function Interval(lo: nat, hi: nat): (r: set<nat>)
    requires lo <= hi
    ensures |r| == hi - lo
    ensures forall n :: n in r <==> lo <= n < hi
    decreases hi
  {
    if lo == hi then {} else Interval(lo, hi - 1) + {hi - 1}
  }

  lemma SubsetCount(a: set<nat>, b: set<nat>)
    requires a <= b
    ensures |a| <= |b|
  {
    assert b == a + (b - a);
  }

  // ----- freeing -----

  /** The table after freeing everything a walk from `n` meets. It is defined on
      damaged tables too: a step either reads a zero entry, and the walk ends, or
      it leaves fewer entries in use. */
  ghost function FreeFrom(fat: seq<nat>, n: nat): (r: seq<nat>)
    requires InRange(fat) && (n < |fat| || n >= STOP)
    ensures |r| == |fat| && InRange(r)
    decreases Used(fat), n
  {
    if !(2 <= n < STOP) then fat
    else
      var nx := fat[n];
      var rest := fat[n := 0];
      if nx >= EOC then rest
      else
        assert Used(rest) == Used(fat) - {n};
        assert nx == 0 || n in Used(fat);
        assert nx == 0 ==> rest == fat;
        FreeFrom(rest, nx)
  }

  /** One turn of the freeing loop: either the table loses an entry in use, or the
      walk has met a free entry and goes to 0. */
  lemma FreeStep(fat: seq<nat>, n: nat)
    requires InRange(fat) && 2 <= n < |fat|
    ensures var nx, rest := fat[n], fat[n := 0];
            && InRange(rest) && (nx < |fat| || nx >= STOP)
            && FreeFrom(fat, n) == (if nx >= EOC then rest else FreeFrom(rest, nx))
            && (if nx == 0 then rest == fat else Used(rest) < Used(fat))
  {
    var rest := fat[n := 0];
    assert Used(rest) == Used(fat) - {n};
    assert fat[n] != 0 ==> n in Used(fat);
  }

  /** `p` leads from cluster `n` to cluster `m` through the table. */
  ghost predicate IsPath(fat: seq<nat>, n: nat, m: nat, p: seq<nat>) {
    && p != [] && p[0] == n && p[|p| - 1] == m
    && Clusters(fat, p)
    && forall i | 0 <= i < |p| - 1 :: fat[p[i]] == p[i + 1]
  }

  /** On any table, cyclic or cross-linked, freeing touches nothing but entries
      reachable from its start, and leaves those it touches free. */
  lemma {:induction false} FreeingTouchesOnlyReachable(fat: seq<nat>, n: nat, m: nat) returns (p: seq<nat>)
    requires InRange(fat) && (n < |fat| || n >= STOP) && m < |fat|
    ensures FreeFrom(fat, n)[m] != fat[m] ==> FreeFrom(fat, n)[m] == 0 && IsPath(fat, n, m, p)
    decreases Used(fat), n
  {
    p := [n];
    if 2 <= n < STOP && m != n {
      var nx := fat[n];
      var rest := fat[n := 0];
      if nx < EOC {
        assert Used(rest) == Used(fat) - {n};
        assert nx == 0 || n in Used(fat);
        assert nx == 0 ==> rest == fat;
        var q := FreeingTouchesOnlyReachable(rest, nx, m);
        if FreeFrom(rest, nx)[m] != rest[m] {
          p := [n] + q;
          forall i | 0 <= i < |p| - 1 ensures fat[p[i]] == p[i + 1] {
            if i > 0 {
              assert rest[q[i - 1]] == q[i];
              assert q[i - 1] != n;
            }
          }
        }
      }
    } else if 2 <= n < STOP {
      FreedStaysFree(fat, n);
    }
  }

  /** The entry a walk starts from is free when it is done. */
  lemma FreedStaysFree(fat: seq<nat>, n: nat)
    requires InRange(fat) && 2 <= n < |fat|
    ensures FreeFrom(fat, n)[n] == 0
  {
    var rest := fat[n := 0];
    if fat[n] < EOC {
      ZeroStaysZero(rest, fat[n], n);
    }
  }

  lemma {:induction false} ZeroStaysZero(fat: seq<nat>, n: nat, m: nat)
    requires InRange(fat) && (n < |fat| || n >= STOP) && m < |fat| && fat[m] == 0
    ensures FreeFrom(fat, n)[m] == 0
    decreases Used(fat), n
  {
    if 2 <= n < STOP && fat[n] < EOC {
      var rest := fat[n := 0];
      assert Used(rest) == Used(fat) - {n};
      assert fat[n] == 0 || n in Used(fat);
      assert fat[n] == 0 ==> rest == fat;
      ZeroStaysZero(rest, fat[n], m);
    }
  }

  /** Clearing the head of a chain leaves the rest a chain. */
  lemma TailAfterClearing(fat: seq<nat>, ch: seq<nat>)
    requires InRange(fat) && IsChain(fat, ch) && |ch| > 1
    ensures ch[1] == fat[ch[0]] && IsChain(fat[ch[0] := 0], ch[1..]) && InRange(fat[ch[0] := 0])
  {
    ChainAcyclic(fat, ch);
    Suffix(fat, ch, 1);
    var rest, t := fat[ch[0] := 0], ch[1..];
    assert fat[ch[0]] == ch[1];
    forall i | 0 <= i < |t| ensures t[i] != ch[0] {
      assert t[i] == ch[i + 1];
    }
    assert forall i | 0 <= i < |t| - 1 :: fat[t[i]] == t[i + 1];
  }

  /** Freeing a proper chain clears exactly its entries. */
  lemma {:induction false} FreeChain(fat: seq<nat>, ch: seq<nat>)
    requires InRange(fat) && IsChain(fat, ch)
    ensures forall m | 0 <= m < |fat| ::
              FreeFrom(fat, ch[0])[m] == if m in ch then 0 else fat[m]
    decreases |ch|
  {
    var n, rest := ch[0], fat[ch[0] := 0];
    FreeStep(fat, n);
    if |ch| > 1 {
      var t := ch[1..];
      TailAfterClearing(fat, ch);
      hide InRange, IsChain;
      FreeChain(rest, t);
      assert ch == [n] + t;
    } else {
      assert ch == [n];
    }
  }

  // ----- linking -----

  /** The table after the clusters `ch` were taken one by one, each linked from
      the one before. */
  ghost function Link(fat: seq<nat>, ch: seq<nat>): (r: seq<nat>)
    requires Clusters(fat, ch)
    ensures |r| == |fat|
    decreases |ch|
  {
    if ch == [] then fat
    else
      var k := |ch| - 1;
      var taken := Link(fat, ch[..k])[ch[k] := END_MARK];
      if k == 0 then taken else taken[ch[k - 1] := ch[k]]
  }

  lemma LinkNone(fat: seq<nat>, ch: seq<nat>)
    requires ch == []
    ensures Link(fat, ch) == fat
  {
  }

  lemma LinkLast(fat: seq<nat>, ch: seq<nat>)
    requires ch != [] && Clusters(fat, ch) && Distinct(ch)
    ensures var k := |ch| - 1;
            && Clusters(fat, ch[..k]) && Distinct(ch[..k])
            && var r := Link(fat, ch[..k])[ch[k] := END_MARK];
               Link(fat, ch) == if k == 0 then r else r[ch[k - 1] := ch[k]]
  {
  }

  /** One more cluster linked behind `b`. */
  lemma LinkNext(fat: seq<nat>, r: seq<nat>, r2: seq<nat>, ch: seq<nat>, b: seq<nat>)
    requires ch != [] && Clusters(fat, ch) && Distinct(ch) && b == ch[..|ch| - 1] && |r| == |fat|
    requires forall m | 0 <= m < |fat| && m !in b :: r[m] == fat[m]
    requires forall i | 0 <= i < |b| - 1 :: r[b[i]] == b[i + 1]
    requires var k := |ch| - 1;
             var t := r[ch[k] := END_MARK];
             r2 == if k == 0 then t else t[ch[k - 1] := ch[k]]
    ensures forall m | 0 <= m < |fat| && m !in ch :: r2[m] == fat[m]
    ensures forall i | 0 <= i < |ch| - 1 :: r2[ch[i]] == ch[i + 1]
    ensures r2[ch[|ch| - 1]] == END_MARK
  {
    var k := |ch| - 1;
    forall i | 0 <= i < k ensures r2[ch[i]] == ch[i + 1] {
      assert b[i] == ch[i];
      if i < k - 1 { assert r[b[i]] == b[i + 1]; }
    }
    forall m | 0 <= m < |fat| && m !in ch ensures r2[m] == fat[m] {
      assert m != ch[k];
    }
  }

  lemma {:induction false} LinkAt(fat: seq<nat>, ch: seq<nat>)
    requires Clusters(fat, ch) && Distinct(ch)
    ensures forall m | 0 <= m < |fat| && m !in ch :: Link(fat, ch)[m] == fat[m]
    ensures forall i | 0 <= i < |ch| - 1 :: Link(fat, ch)[ch[i]] == ch[i + 1]
    ensures ch != [] ==> Link(fat, ch)[ch[|ch| - 1]] == END_MARK
    decreases |ch|
  {
    hide Link;
    if ch == [] {
      LinkNone(fat, ch);
    } else {
      var k := |ch| - 1;
      LinkLast(fat, ch);
      LinkAt(fat, ch[..k]);
      LinkNext(fat, Link(fat, ch[..k]), Link(fat, ch), ch, ch[..k]);
    }
  }

  lemma LinkMakesChain(fat: seq<nat>, ch: seq<nat>)
    requires InRange(fat) && Clusters(fat, ch) && Distinct(ch) && ch != []
    ensures IsChain(Link(fat, ch), ch) && InRange(Link(fat, ch))
  {
    LinkAt(fat, ch);
    var r := Link(fat, ch);
    forall m | 0 <= m < |r| ensures r[m] < 0x1_0000 && (m >= 2 ==> r[m] < |r| || r[m] >= STOP) {
      if m in ch {
        var i :| 0 <= i < |ch| && ch[i] == m;
        if i < |ch| - 1 { assert r[ch[i]] == ch[i + 1]; }
      }
    }
  }

  /** Giving back a chain just linked restores the table: a failed allocation
      leaks nothing. */
  lemma FreeUndoesLink(fat: seq<nat>, ch: seq<nat>)
    requires InRange(fat) && Clusters(fat, ch) && Distinct(ch) && ch != []
    requires forall i | 0 <= i < |ch| :: fat[ch[i]] == 0
    ensures InRange(Link(fat, ch)) && FreeFrom(Link(fat, ch), ch[0]) == fat
  {
    LinkMakesChain(fat, ch);
    LinkAt(fat, ch);
    FreeChain(Link(fat, ch), ch);
  }

  // ----- conservation -----

  lemma ChainIsUsed(fat: seq<nat>, ch: seq<nat>)
    requires InRange(fat) && IsChain(fat, ch)
    ensures forall i | 0 <= i < |ch| :: fat[ch[i]] != 0
  {
    forall i | 0 <= i < |ch| ensures fat[ch[i]] != 0 {
      if i < |ch| - 1 { assert fat[ch[i]] == ch[i + 1]; }
    }
  }

  /** Where exactly the entries of `ch`, in use before, become zero. */
  lemma FreeGains(fat: seq<nat>, f: seq<nat>, ch: seq<nat>)
    requires |f| == |fat| && Clusters(fat, ch) && Distinct(ch) && forall i | 0 <= i < |ch| :: fat[ch[i]] != 0
    requires forall n | 2 <= n < |fat| :: f[n] == if n in ch then 0 else fat[n]
    ensures |Free(f)| == |Free(fat)| + |ch|
  {
    ElemsCount(ch);
    assert forall n :: n in ch <==> n in Elems(ch);
    assert Free(f) == Free(fat) + Elems(ch);
    assert Free(fat) !! Elems(ch);
  }

  lemma FreeCountAfterFreeing(fat: seq<nat>, ch: seq<nat>)
    requires InRange(fat) && IsChain(fat, ch)
    ensures |Free(FreeFrom(fat, ch[0]))| == |Free(fat)| + |ch|
  {
    hide FreeFrom, Free;
    ChainAcyclic(fat, ch);
    FreeChain(fat, ch);
    ChainIsUsed(fat, ch);
    FreeGains(fat, FreeFrom(fat, ch[0]), ch);
  }

  lemma FreeCountAfterLinking(fat: seq<nat>, ch: seq<nat>)
    requires InRange(fat) && Clusters(fat, ch) && Distinct(ch)
    requires forall i | 0 <= i < |ch| :: fat[ch[i]] == 0
    ensures |Free(Link(fat, ch))| == |Free(fat)| - |ch|
  {
    LinkAt(fat, ch);
    ElemsCount(ch);
    var r := Link(fat, ch);
    forall i | 0 <= i < |ch| ensures r[ch[i]] != 0 {
      if i < |ch| - 1 { assert r[ch[i]] == ch[i + 1]; }
    }
    assert Free(r) == Free(fat) - Elems(ch);
    assert Elems(ch) <= Free(fat);
  }

  /** Taking one more free cluster extends what was linked. */
  lemma LinkMore(fat: seq<nat>, ch: seq<nat>, nc: nat)
    requires InRange(fat) && Clusters(fat, ch) && Distinct(ch) && 2 <= nc < |fat|
    requires forall i | 0 <= i < |ch| :: fat[ch[i]] == 0
    requires Link(fat, ch)[nc] == 0
    ensures fat[nc] == 0 && Clusters(fat, ch + [nc]) && Distinct(ch + [nc])
    ensures var taken := Link(fat, ch)[nc := END_MARK];
            Link(fat, ch + [nc]) == if ch == [] then taken else taken[ch[|ch| - 1] := nc]
  {
    hide Link, InRange;
    NotLinked(fat, ch, nc);
    assert (ch + [nc])[..|ch|] == ch;
    LinkLast(fat, ch + [nc]);
  }

  lemma NotLinked(fat: seq<nat>, ch: seq<nat>, nc: nat)
    requires Clusters(fat, ch) && Distinct(ch) && nc < |fat| && Link(fat, ch)[nc] == 0
    ensures nc !in ch && fat[nc] == 0
  {
    hide Link;
    LinkAt(fat, ch);
    forall i | 0 <= i < |ch| ensures ch[i] != nc {
      assert i < |ch| - 1 ==> Link(fat, ch)[ch[i]] == ch[i + 1];
    }
  }

  lemma LinkOne(fat: seq<nat>, nc: nat)
    requires 2 <= nc < |fat|
    ensures Clusters(fat, [nc]) && Link(fat, [nc]) == fat[nc := END_MARK]
  {
    assert [nc][..0] == [];
    assert Link(fat, [nc][..0]) == fat;
  }
}
