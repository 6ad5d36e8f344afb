/** What makes a volume well formed: every cluster in use lies on exactly one
    chain, and chains and live directory entries point at each other. */
module FatState {
  import opened Arith
  import opened Bytes
  import opened FatTable
  import opened FatDir
  import opened Wrappers

  /** A chain with the slot whose entry owns it. `sub` marks a directory. */
  datatype Node = Node(chain: seq<nat>, sub: bool, dir: nat, idx: nat)

  /** All chains by their first cluster, and for each cluster the first cluster
      of the chain it lies on, 0 for none. */
  datatype Shape = Shape(nodes: map<nat, Node>, own: seq<nat>)

  // ----- chains -----

  ghost predicate NodeChainOk(fat: seq<nat>, sh: Shape, h: nat)
    requires h in sh.nodes && |sh.own| == |fat|
  {
    var ch := sh.nodes[h].chain;
    && IsChain(fat, ch) && Distinct(ch) && ch[0] == h
    && forall i | 0 <= i < |ch| :: sh.own[ch[i]] == h
  }

  ghost predicate OwnerOk(fat: seq<nat>, sh: Shape, n: nat)
    requires n < |fat| == |sh.own|
  {
    && (fat[n] == 0 <==> sh.own[n] == 0)
    && (sh.own[n] != 0 ==> sh.own[n] in sh.nodes && n in sh.nodes[sh.own[n]].chain)
  }

  ghost predicate ChainsOk(fat: seq<nat>, sh: Shape) {
    && |sh.own| == |fat|
    && (forall h | h in sh.nodes :: NodeChainOk(fat, sh, h))
    && (forall n | 2 <= n < |fat| :: OwnerOk(fat, sh, n))
  }

  function DropChain(sh: Shape, h: nat): Shape {
    Shape(sh.nodes - {h}, seq(|sh.own|, n requires 0 <= n < |sh.own| => if sh.own[n] == h then 0 else sh.own[n]))
  }

  function AddChain(sh: Shape, nd: Node): Shape
    requires nd.chain != []
  {
    var h := nd.chain[0];
    Shape(sh.nodes[h := nd], seq(|sh.own|, n requires 0 <= n < |sh.own| => if n in nd.chain then h else sh.own[n]))
  }

  function GrowChain(sh: Shape, h: nat, nc: nat): Shape
    requires h in sh.nodes && nc < |sh.own|
  {
    var nd := sh.nodes[h];
    Shape(sh.nodes[h := nd.(chain := nd.chain + [nc])], sh.own[nc := h])
  }

  /** A chain keeps its properties when none of its entries is touched. */
  lemma NodeChainFrame(fat: seq<nat>, sh: Shape, f: seq<nat>, s: Shape, k: nat)
    requires |fat| == |f| == |sh.own| == |s.own|
    requires k in sh.nodes && NodeChainOk(fat, sh, k) && k in s.nodes && s.nodes[k] == sh.nodes[k]
    requires forall i | 0 <= i < |sh.nodes[k].chain| ::
               f[sh.nodes[k].chain[i]] == fat[sh.nodes[k].chain[i]] && s.own[sh.nodes[k].chain[i]] == k
    ensures NodeChainOk(f, s, k)
  {
    var c := sh.nodes[k].chain;
    forall i | 0 <= i < |c| - 1 ensures f[c[i]] == c[i + 1] {
      assert fat[c[i]] == c[i + 1];
    }
  }

  lemma DropChainOk(fat: seq<nat>, sh: Shape, h: nat)
    requires InRange(fat) && ChainsOk(fat, sh) && h in sh.nodes
    ensures 2 <= h < |fat| && InRange(FreeFrom(fat, h)) && ChainsOk(FreeFrom(fat, h), DropChain(sh, h))
  {
    var ch := sh.nodes[h].chain;
    assert NodeChainOk(fat, sh, h);
    FreeChain(fat, ch);
    var f, s := FreeFrom(fat, h), DropChain(sh, h);
    assert forall n | 2 <= n < |fat| :: n in ch <==> sh.own[n] == h by {
      forall n | 2 <= n < |fat| ensures n in ch <==> sh.own[n] == h {
        assert OwnerOk(fat, sh, n);
      }
    }
    forall k | k in s.nodes ensures NodeChainOk(f, s, k) {
      assert NodeChainOk(fat, sh, k);
      var c := sh.nodes[k].chain;
      forall i | 0 <= i < |c| ensures f[c[i]] == fat[c[i]] && s.own[c[i]] == k {
        assert sh.own[c[i]] == k;
      }
    }
    forall n | 2 <= n < |fat| ensures OwnerOk(f, s, n) {
      assert OwnerOk(fat, sh, n);
    }
  }

  /** Clusters that are free lie on no chain. */
  lemma FreeIsUnowned(fat: seq<nat>, sh: Shape, ch: seq<nat>)
    requires InRange(fat) && ChainsOk(fat, sh) && ch != [] && Clusters(fat, ch)
    requires forall i | 0 <= i < |ch| :: fat[ch[i]] == 0
    ensures ch[0] !in sh.nodes && forall i | 0 <= i < |ch| :: sh.own[ch[i]] == 0
  {
    forall i | 0 <= i < |ch| ensures sh.own[ch[i]] == 0 {
      assert OwnerOk(fat, sh, ch[i]);
    }
    if ch[0] in sh.nodes { HeadIsUsed(fat, sh, ch[0]); }
  }

  lemma HeadIsUsed(fat: seq<nat>, sh: Shape, h: nat)
    requires InRange(fat) && ChainsOk(fat, sh) && h in sh.nodes
    ensures 2 <= h < |fat| && fat[h] != 0
  {
    assert NodeChainOk(fat, sh, h);
    OwnedIsUsed(fat, sh, h, 0);
  }

  lemma NewNodeOk(fat: seq<nat>, sh: Shape, nd: Node)
    requires |fat| == |sh.own| && nd.chain != [] && Clusters(fat, nd.chain) && Distinct(nd.chain)
    requires IsChain(Link(fat, nd.chain), nd.chain)
    ensures NodeChainOk(Link(fat, nd.chain), AddChain(sh, nd), nd.chain[0])
  {
    LinkAt(fat, nd.chain);
    hide IsChain, Link;
  }

  lemma AddedOutside(fat: seq<nat>, sh: Shape, nd: Node)
    requires |fat| == |sh.own| && nd.chain != [] && Clusters(fat, nd.chain) && Distinct(nd.chain)
    ensures SameOutside(fat, Link(fat, nd.chain), nd.chain)
    ensures SameOutside(sh.own, AddChain(sh, nd).own, nd.chain)
  {
    LinkAt(fat, nd.chain);
    hide Link;
  }

  lemma AddChainOk(fat: seq<nat>, sh: Shape, nd: Node)
    requires InRange(fat) && ChainsOk(fat, sh)
    requires nd.chain != [] && Clusters(fat, nd.chain) && Distinct(nd.chain)
    requires forall i | 0 <= i < |nd.chain| :: fat[nd.chain[i]] == 0
    ensures nd.chain[0] !in sh.nodes
    ensures InRange(Link(fat, nd.chain)) && ChainsOk(Link(fat, nd.chain), AddChain(sh, nd))
  {
    hide NodeChainOk, OwnerOk, IsChain, InRange, Clusters, Distinct, Link, SameOutside;
    var ch, h := nd.chain, nd.chain[0];
    var f, s := Link(fat, ch), AddChain(sh, nd);
    LinkMakesChain(fat, ch);
    FreeIsUnowned(fat, sh, ch);
    AddedOutside(fat, sh, nd);
    NewNodeOk(fat, sh, nd);
    forall k | k in s.nodes ensures NodeChainOk(f, s, k) {
      if k != h {
        HeadIsUsed(fat, sh, k);
        OtherChainKept(fat, sh, ch, f, s, k);
      }
    }
    forall n | 2 <= n < |fat| ensures OwnerOk(f, s, n) {
      AddedOwnerOk(fat, sh, nd, n);
    }
  }

  lemma AddedOwnerOk(fat: seq<nat>, sh: Shape, nd: Node, n: nat)
    requires |fat| == |sh.own| && 2 <= n < |fat| && OwnerOk(fat, sh, n)
    requires nd.chain != [] && Clusters(fat, nd.chain) && Distinct(nd.chain) && nd.chain[0] !in sh.nodes
    ensures OwnerOk(Link(fat, nd.chain), AddChain(sh, nd), n)
  {
    LinkAt(fat, nd.chain);
    if n in nd.chain {
      LinkedIsUsed(fat, nd.chain, n);
    }
  }

  lemma LinkedIsUsed(fat: seq<nat>, ch: seq<nat>, n: nat)
    requires Clusters(fat, ch) && Distinct(ch) && n in ch
    ensures Link(fat, ch)[n] != 0
  {
    LinkAt(fat, ch);
    var i :| 0 <= i < |ch| && ch[i] == n;
    assert i < |ch| - 1 ==> Link(fat, ch)[ch[i]] == ch[i + 1];
  }

  ghost predicate SameOutside(a: seq<nat>, b: seq<nat>, touched: seq<nat>) {
    |a| == |b| && forall n | 0 <= n < |a| && n !in touched :: a[n] == b[n]
  }

  /** Changes away from a chain leave it alone. */
  lemma OtherChainKept(fat: seq<nat>, sh: Shape, touched: seq<nat>, f: seq<nat>, s: Shape, k: nat)
    requires InRange(fat) && ChainsOk(fat, sh)
    requires k in sh.nodes && k in s.nodes && s.nodes[k] == sh.nodes[k]
    requires SameOutside(fat, f, touched) && SameOutside(sh.own, s.own, touched)
    requires Clusters(fat, touched) && forall i | 0 <= i < |touched| :: sh.own[touched[i]] != k
    ensures NodeChainOk(f, s, k)
  {
    assert NodeChainOk(fat, sh, k);
    var c := sh.nodes[k].chain;
    forall i | 0 <= i < |c| ensures f[c[i]] == fat[c[i]] && s.own[c[i]] == k {
      assert sh.own[c[i]] == k;
      assert c[i] !in touched;
    }
    NodeChainFrame(fat, sh, f, s, k);
  }

  lemma OwnedIsUsed(fat: seq<nat>, sh: Shape, h: nat, i: nat)
    requires InRange(fat) && ChainsOk(fat, sh) && h in sh.nodes && i < |sh.nodes[h].chain|
    ensures 2 <= sh.nodes[h].chain[i] < |fat| && fat[sh.nodes[h].chain[i]] != 0
  {
    assert NodeChainOk(fat, sh, h);
    var ch := sh.nodes[h].chain;
    if i < |ch| - 1 { assert fat[ch[i]] == ch[i + 1]; }
  }

  /** The table after appending the free cluster `nc` to a chain. */
  function Append(fat: seq<nat>, last: nat, nc: nat): seq<nat>
    requires nc < |fat| && last < |fat|
  {
    fat[nc := END_MARK][last := nc]
  }

  lemma LastOk(fat: seq<nat>, sh: Shape, h: nat)
    requires ChainsOk(fat, sh) && h in sh.nodes
    ensures NodeChainOk(fat, sh, h) && Clusters(fat, sh.nodes[h].chain)
    ensures var ch := sh.nodes[h].chain; ch != [] && 2 <= ch[|ch| - 1] < |fat| && sh.own[ch[|ch| - 1]] == h
  {
    assert NodeChainOk(fat, sh, h);
  }

  lemma GrowChainOk(fat: seq<nat>, sh: Shape, h: nat, nc: nat)
    requires InRange(fat) && ChainsOk(fat, sh) && h in sh.nodes && 2 <= nc < |fat| && fat[nc] == 0
    ensures NodeChainOk(fat, sh, h)
    ensures var ch := sh.nodes[h].chain;
            var f := Append(fat, ch[|ch| - 1], nc);
            InRange(f) && ChainsOk(f, GrowChain(sh, h, nc)) && nc !in ch && Distinct(ch + [nc])
  {
    hide InRange, NodeChainOk, OwnerOk, Distinct;
    LastOk(fat, sh, h);
    HeadIsUsed(fat, sh, h);
    var ch := sh.nodes[h].chain;
    var f, s := Append(fat, ch[|ch| - 1], nc), GrowChain(sh, h, nc);
    GrownChainOk(fat, sh, h, nc);
    forall j | j in s.nodes ensures NodeChainOk(f, s, j) {
      if j != h { GrowKeepsOthers(fat, sh, h, nc, j); }
    }
    forall n | 2 <= n < |fat| ensures OwnerOk(f, s, n) {
      GrownOwnerOk(fat, sh, h, nc, n);
    }
  }

  lemma GrownOwnerOk(fat: seq<nat>, sh: Shape, h: nat, nc: nat, n: nat)
    requires |sh.own| == |fat| && h in sh.nodes && h != 0 && 2 <= nc < |fat| && 2 <= n < |fat|
    requires sh.nodes[h].chain != [] && OwnerOk(fat, sh, n) && Clusters(fat, sh.nodes[h].chain)
    requires sh.own[sh.nodes[h].chain[|sh.nodes[h].chain| - 1]] == h
    ensures OwnerOk(Append(fat, sh.nodes[h].chain[|sh.nodes[h].chain| - 1], nc), GrowChain(sh, h, nc), n)
  {
    var ch := sh.nodes[h].chain;
    var c := ch + [nc];
    assert c[|ch|] == nc;
    if n != nc && sh.own[n] == h {
      var i :| 0 <= i < |ch| && ch[i] == n;
      assert c[i] == n;
    }
  }

  lemma GrowKeepsOthers(fat: seq<nat>, sh: Shape, h: nat, nc: nat, j: nat)
    requires InRange(fat) && ChainsOk(fat, sh) && h in sh.nodes && 2 <= nc < |fat| && fat[nc] == 0
    requires NodeChainOk(fat, sh, h) && j in sh.nodes && j != h
    ensures var ch := sh.nodes[h].chain;
            NodeChainOk(Append(fat, ch[|ch| - 1], nc), GrowChain(sh, h, nc), j)
  {
    hide InRange, Distinct;
    var ch := sh.nodes[h].chain;
    HeadIsUsed(fat, sh, j);
    OwnedIsUsed(fat, sh, h, |ch| - 1);
    var last := ch[|ch| - 1];
    assert sh.own[last] == h && OwnerOk(fat, sh, nc);
    OtherChainKept(fat, sh, [nc, last], Append(fat, last, nc), GrowChain(sh, h, nc), j);
  }

  lemma GrownChainOk(fat: seq<nat>, sh: Shape, h: nat, nc: nat)
    requires InRange(fat) && ChainsOk(fat, sh) && h in sh.nodes && 2 <= nc < |fat| && fat[nc] == 0
    requires NodeChainOk(fat, sh, h)
    ensures var ch := sh.nodes[h].chain;
            var f := Append(fat, ch[|ch| - 1], nc);
            nc !in ch && Distinct(ch + [nc]) && InRange(f) && NodeChainOk(f, GrowChain(sh, h, nc), h)
  {
    var ch := sh.nodes[h].chain;
    var k := |ch| - 1;
    forall i | 0 <= i < |ch| ensures ch[i] != nc {
      OwnedIsUsed(fat, sh, h, i);
    }
    var c := ch + [nc];
    var f := Append(fat, ch[k], nc);
    forall i | 0 <= i < |c| - 1 ensures f[c[i]] == c[i + 1] {
      if i < k { assert fat[ch[i]] == ch[i + 1]; }
    }
  }

  // ----- well-formed volumes -----

  ghost predicate Base(g: Geo, v: Vol, sh: Shape) {
    GeoOk(g) && VolShape(g, v) && ChainsOk(v.fat, sh) && 0 !in sh.nodes
  }

  /** Directories are known by their first cluster, the root by 0. */
  ghost predicate IsDir(sh: Shape, d: nat) {
    d == 0 || (d in sh.nodes && sh.nodes[d].sub)
  }

  ghost function ChOf(sh: Shape, d: nat): seq<nat>
    requires IsDir(sh, d)
  {
    if d == 0 then [] else sh.nodes[d].chain
  }

  lemma ChOfOk(g: Geo, v: Vol, sh: Shape, d: nat)
    requires Base(g, v, sh) && IsDir(sh, d)
    ensures DirChain(g, ChOf(sh, d))
    ensures ChOf(sh, d) == [] <==> d == 0
    ensures d != 0 ==> ChOf(sh, d)[0] == d
  {
    if d != 0 { assert NodeChainOk(v.fat, sh, d); }
  }

  ghost function EntOf(g: Geo, v: Vol, sh: Shape, d: nat, idx: nat): Entry
    requires Base(g, v, sh) && IsDir(sh, d) && InDir(g, ChOf(sh, d), idx)
  {
    ChOfOk(g, v, sh, d);
    Ent(g, v, ChOf(sh, d), idx)
  }

  /** Bytes per cluster. */
  function ClusterSize(g: Geo): nat { g.spc * 512 }

  /** Clusters a file of `size` bytes takes. */
  function Need(g: Geo, size: nat): nat
    requires GeoOk(g)
  {
    CeilDiv(size, ClusterSize(g))
  }

  /** The first two slots of a subdirectory. */
  ghost predicate IsDot(d: nat, idx: nat) {
    d != 0 && idx < 2
  }

  /** The names dot_entry writes: one or two dots, then blanks. */
  function DotNameOf(dots: nat): Name {
    seq(11, i => if i < dots && i < 2 then DOT else SPACE)
  }

  /** The names the formatter gives the same entries: a blank base. */
  function BlankDotName(idx: nat): Name {
    seq(11, i => if i == 8 && idx == 1 then DOT else SPACE)
  }

  ghost predicate DotName(n: Name, idx: nat) {
    n == DotNameOf(idx + 1) || n == BlankDotName(idx)
  }

  ghost predicate SlotOk(g: Geo, v: Vol, sh: Shape, d: nat, idx: nat)
    requires Base(g, v, sh) && IsDir(sh, d) && InDir(g, ChOf(sh, d), idx)
  {
    var e := EntOf(g, v, sh, d, idx);
    if IsDot(d, idx) then
      Live(e) && HasDirAttr(e) && DotName(NameOf(e), idx) && HeadOf(e) == (if idx == 0 then d else 0)
    else if !Live(e) then true
    else if HasDirAttr(e) then
      d == 0 && HeadOf(e) in sh.nodes && sh.nodes[HeadOf(e)].sub && Back(sh, HeadOf(e), d, idx)
    else if SizeOf(e) == 0 then
      HeadOf(e) == 0
    else
      && HeadOf(e) in sh.nodes && !sh.nodes[HeadOf(e)].sub && Back(sh, HeadOf(e), d, idx)
      && |sh.nodes[HeadOf(e)].chain| == Need(g, SizeOf(e))
  }

  ghost predicate Back(sh: Shape, h: nat, d: nat, idx: nat)
    requires h in sh.nodes
  {
    sh.nodes[h].dir == d && sh.nodes[h].idx == idx
  }

  /** Nothing live after the first never-used slot, and no name twice. */
  ghost predicate TableOk(g: Geo, v: Vol, sh: Shape, d: nat)
    requires Base(g, v, sh) && IsDir(sh, d)
  {
    var ch := ChOf(sh, d);
    && (forall i, j | 0 <= i < j && InDir(g, ch, i) && InDir(g, ch, j) && Live(EntOf(g, v, sh, d, j)) ::
          EntOf(g, v, sh, d, i)[0] != 0)
    && (forall i, j | 0 <= i < j && InDir(g, ch, i) && InDir(g, ch, j)
                      && Live(EntOf(g, v, sh, d, i)) && Live(EntOf(g, v, sh, d, j)) ::
          NameOf(EntOf(g, v, sh, d, i)) != NameOf(EntOf(g, v, sh, d, j)))
  }

  ghost predicate DirOk(g: Geo, v: Vol, sh: Shape, d: nat)
    requires Base(g, v, sh) && IsDir(sh, d)
  {
    && TableOk(g, v, sh, d)
    && forall idx | 0 <= idx && InDir(g, ChOf(sh, d), idx) :: SlotOk(g, v, sh, d, idx)
  }

  /** A chain belongs to a live entry that names it. */
  ghost predicate NodeOk(g: Geo, v: Vol, sh: Shape, h: nat)
    requires Base(g, v, sh) && h in sh.nodes
  {
    var nd := sh.nodes[h];
    && IsDir(sh, nd.dir) && InDir(g, ChOf(sh, nd.dir), nd.idx)
    && var e := EntOf(g, v, sh, nd.dir, nd.idx);
       Live(e) && HeadOf(e) == h && (HasDirAttr(e) <==> nd.sub) && !IsDot(nd.dir, nd.idx) && (nd.sub ==> nd.dir == 0)
  }

  ghost predicate WellFormed(g: Geo, v: Vol, sh: Shape)
    ensures WellFormed(g, v, sh) ==> Base(g, v, sh)
  {
    && Base(g, v, sh)
    && (forall d | IsDir(sh, d) :: DirOk(g, v, sh, d))
    && (forall h | h in sh.nodes :: NodeOk(g, v, sh, h))
  }

  // ----- what the volume holds -----

  function Flat(secs: seq<Sector>): (r: seq<byte>)
    ensures |r| == 512 * |secs|
  {
    if secs == [] then [] else Flat(secs[..|secs| - 1]) + secs[|secs| - 1]
  }

  lemma {:induction false} FlatPrefix(secs: seq<Sector>, s: nat)
    requires s <= |secs|
    ensures Flat(secs[..s]) == Flat(secs)[..512 * s]
    decreases |secs|
  {
    var k := |secs| - 1;
    if s <= k {
      FlatPrefix(secs[..k], s);
      assert secs[..k][..s] == secs[..s];
    } else {
      assert secs[..s] == secs;
    }
  }

  ghost function ChainBytes(data: seq<seq<Sector>>, ch: seq<nat>): seq<byte>
    requires forall i | 0 <= i < |ch| :: ch[i] < |data|
  {
    if ch == [] then [] else ChainBytes(data, ch[..|ch| - 1]) + Flat(data[ch[|ch| - 1]])
  }

  function Take(s: seq<byte>, n: nat): seq<byte> {
    if n <= |s| then s[..n] else s
  }

  lemma {:induction false} ChainBytesLength(g: Geo, data: seq<seq<Sector>>, ch: seq<nat>)
    requires forall i | 0 <= i < |ch| :: ch[i] < |data| && |data[ch[i]]| == g.spc
    ensures |ChainBytes(data, ch)| == |ch| * ClusterSize(g)
  {
    if ch != [] {
      ChainBytesLength(g, data, ch[..|ch| - 1]);
      assert |ch| * ClusterSize(g) == (|ch| - 1) * ClusterSize(g) + ClusterSize(g);
    }
  }

  lemma {:induction false} ChainBytesFrame(a: seq<seq<Sector>>, b: seq<seq<Sector>>, ch: seq<nat>)
    requires |a| == |b| && forall i | 0 <= i < |ch| :: ch[i] < |a| && a[ch[i]] == b[ch[i]]
    ensures ChainBytes(a, ch) == ChainBytes(b, ch)
  {
    if ch != [] {
      ChainBytesFrame(a, b, ch[..|ch| - 1]);
    }
  }

  /** The bytes of the file a live entry describes. */
  ghost function Contents(g: Geo, v: Vol, sh: Shape, e: Entry): seq<byte>
    requires Base(g, v, sh)
  {
    if SizeOf(e) == 0 || HeadOf(e) !in sh.nodes then []
    else
      var ch := sh.nodes[HeadOf(e)].chain;
      assert NodeChainOk(v.fat, sh, HeadOf(e));
      Take(ChainBytes(v.data, ch), SizeOf(e))
  }

  ghost predicate Match(g: Geo, v: Vol, sh: Shape, d: nat, name: Name, i: nat)
    requires Base(g, v, sh) && IsDir(sh, d)
  {
    InDir(g, ChOf(sh, d), i) && Live(EntOf(g, v, sh, d, i)) && NameOf(EntOf(g, v, sh, d, i)) == name
  }

  ghost function Find(g: Geo, v: Vol, sh: Shape, d: nat, name: Name): (r: Option<nat>)
    requires Base(g, v, sh) && IsDir(sh, d)
    ensures r.Some? ==> Match(g, v, sh, d, name, r.value)
    ensures r.None? ==> forall i: nat :: !Match(g, v, sh, d, name, i)
  {
    if exists i: nat :: Match(g, v, sh, d, name, i) then
      var i: nat :| Match(g, v, sh, d, name, i);
      Some(i)
    else None
  }

  lemma FindIs(g: Geo, v: Vol, sh: Shape, d: nat, name: Name, i: nat)
    requires Base(g, v, sh) && IsDir(sh, d) && TableOk(g, v, sh, d) && Match(g, v, sh, d, name, i)
    ensures Find(g, v, sh, d, name) == Some(i)
  {
    var j := Find(g, v, sh, d, name).value;
    assert Match(g, v, sh, d, name, j);
    if i < j || j < i { assert false; }
  }

  /** The volume as a map from directory and name to file contents. */
  ghost function File(g: Geo, v: Vol, sh: Shape, d: nat, name: Name): Option<seq<byte>>
    requires Base(g, v, sh) && IsDir(sh, d)
  {
    var i := Find(g, v, sh, d, name);
    if i.None? then None
    else
      var e := EntOf(g, v, sh, d, i.value);
      if HasDirAttr(e) then None else Some(Contents(g, v, sh, e))
  }

  /** The directories, by their name in the root. */
  ghost function SubDir(g: Geo, v: Vol, sh: Shape, name: Name): Option<nat>
    requires Base(g, v, sh)
  {
    var i := Find(g, v, sh, 0, name);
    if i.None? then None
    else
      var e := EntOf(g, v, sh, 0, i.value);
      if HasDirAttr(e) then Some(HeadOf(e)) else None
  }
}
