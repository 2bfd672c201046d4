/**
 The chained hash tables of heap-trail.c: records of heap objects, each with the record of
 an object that it references, in linked chains.
 */
module ObjectTable {
  import opened Options
  import opened HeapObjects

  const TABLE_SIZE: nat := 0x1000
  const TABLE_SHIFT: nat := 8       // a shift by three bits

  datatype Rec = Rec(obj: Addr, parent: Option<Rec>)

  function Hash(a: Addr): (h: nat)
    ensures h < TABLE_SIZE
  {
    (a / TABLE_SHIFT) % TABLE_SIZE
  }

  /** `chain` holds, once each, the records of the objects in `recs` that hash to `h`. */
  ghost predicate ChainFor(chain: seq<Rec>, recs: map<Addr, Rec>, h: nat) {
    (forall r <- chain :: Hash(r.obj) == h && r.obj in recs && recs[r.obj] == r) &&
    (forall a <- recs | Hash(a) == h :: recs[a] in chain) &&
    (forall i, j | 0 <= i < j < |chain| :: chain[i].obj != chain[j].obj)
  }

  ghost predicate Keyed(recs: map<Addr, Rec>) { forall a <- recs :: recs[a].obj == a }

  /** The objects of `recs` that hash below `n`. */
  ghost function HashedBelow(recs: map<Addr, Rec>, n: nat): set<Addr> { set a | a in recs && Hash(a) < n }

  lemma {:induction false} ChainSize(chain: seq<Rec>, objects: set<Addr>)
    requires forall r <- chain :: r.obj in objects
    requires forall a <- objects :: exists i :: 0 <= i < |chain| && chain[i].obj == a
    requires forall i, j | 0 <= i < j < |chain| :: chain[i].obj != chain[j].obj
    ensures |chain| == |objects|
  {
    if chain == [] {
      assert objects == {};
    } else {
      var last := chain[|chain| - 1];
      assert last in chain;
      var rest := chain[..|chain| - 1];
      forall a <- objects - {last.obj} ensures exists i :: 0 <= i < |rest| && rest[i].obj == a {
        var i :| 0 <= i < |chain| && chain[i].obj == a;
        assert rest[i].obj == a;
      }
      ChainSize(rest, objects - {last.obj});
    }
  }

  lemma NextChain(chain: seq<Rec>, recs: map<Addr, Rec>, h: nat)
    requires Keyed(recs) && ChainFor(chain, recs, h)
    ensures |HashedBelow(recs, h + 1)| == |HashedBelow(recs, h)| + |chain|
  {
    var here := set a | a in recs && Hash(a) == h;
    forall a <- here ensures exists i :: 0 <= i < |chain| && chain[i].obj == a {
      var i :| 0 <= i < |chain| && chain[i] == recs[a];
      assert chain[i].obj == a;
    }
    ChainSize(chain, here);
    assert HashedBelow(recs, h + 1) == HashedBelow(recs, h) + here;
  }

  /** A record and its place in a chain. */
  class Node {
    const rec: Rec
    var next: Node?

    constructor (rec: Rec, next: Node?)
      ensures this.rec == rec && this.next == next
    {
      this.rec, this.next := rec, next;
    }
  }

  ghost function RecsOf(chain: seq<Node>): seq<Rec> { seq(|chain|, i requires 0 <= i < |chain| => chain[i].rec) }

  ghost function NodeAt(chain: seq<Node>, i: nat): Node? { if i < |chain| then chain[i] else null }

  /** The links from `head` on go through the nodes of `chain` and end there. */
  ghost predicate Linked(head: Node?, chain: seq<Node>)
    reads set n | n in chain
  {
    head == NodeAt(chain, 0) && forall i | 0 <= i < |chain| :: chain[i].next == NodeAt(chain, i + 1)
  }

  /** Each node is in the chain of its object's hash. */
  ghost predicate Placed(chains: seq<seq<Node>>, nodes: set<Node>) {
    |chains| == TABLE_SIZE &&
    (forall h | 0 <= h < TABLE_SIZE :: forall n <- chains[h] :: n in nodes && Hash(n.rec.obj) == h) &&
    forall n <- nodes :: n in chains[Hash(n.rec.obj)]
  }

  class Table {
    const buckets: array<Node?>
    ghost var chains: seq<seq<Node>>
    ghost var nodes: set<Node>
    ghost var recs: map<Addr, Rec>

    ghost predicate Valid() reads this, buckets, nodes {
      buckets.Length == TABLE_SIZE && Keyed(recs) && Placed(chains, nodes) &&
      forall h | 0 <= h < TABLE_SIZE :: Linked(buckets[h], chains[h]) && ChainFor(RecsOf(chains[h]), recs, h)
    }

    constructor ()
      ensures Valid() && fresh(buckets) && recs == map[] && nodes == {}
    {
      buckets := new Node?[TABLE_SIZE](_ => null);
      chains := seq(TABLE_SIZE, _ => []);
      nodes := {};
      recs := map[];
    }

    /** The links are those of `chains`, and the table means `recs`. */
    ghost method Describe(chains: seq<seq<Node>>, nodes: set<Node>, recs: map<Addr, Rec>)
      requires buckets.Length == TABLE_SIZE && Keyed(recs) && Placed(chains, nodes)
      requires forall h | 0 <= h < TABLE_SIZE :: Linked(buckets[h], chains[h])
      requires forall h | 0 <= h < TABLE_SIZE :: ChainFor(RecsOf(chains[h]), recs, h)
      modifies this
      ensures Valid() && this.chains == chains && this.nodes == nodes && this.recs == recs
    {
      this.chains, this.nodes, this.recs := chains, nodes, recs;
    }

    lemma NoRecords()
      requires Valid() && recs == map[]
      ensures nodes == {}
    {
      forall n | n in nodes ensures n.rec.obj in recs {
        var chain := chains[Hash(n.rec.obj)];
        var i :| 0 <= i < |chain| && chain[i] == n;
        assert RecsOf(chain)[i] == n.rec && ChainFor(RecsOf(chain), recs, Hash(n.rec.obj));
      }
    }

    /** find_obj_in_table */
    method Find(a: Addr) returns (r: Option<Rec>)
      requires Valid()
      ensures r == if a in recs then Some(recs[a]) else None
    {
      var current := buckets[Hash(a)];
      ghost var chain := chains[Hash(a)];
      ghost var i := 0;
      assert Linked(current, chain) && ChainFor(RecsOf(chain), recs, Hash(a));
      while current != null
        invariant 0 <= i <= |chain| && current == NodeAt(chain, i)
        invariant forall j | 0 <= j < i :: RecsOf(chain)[j].obj != a
        decreases |chain| - i
      {
        assert RecsOf(chain)[i] == current.rec;
        if current.rec.obj == a { return Some(current.rec); }
        current := current.next;
        i := i + 1;
      }
      return None;
    }

    /** add_new_to_table, for an object that is not in the table yet. */
    method Add(r: Rec)
      requires Valid() && r.obj !in recs
      modifies this, buckets
      ensures Valid() && recs == old(recs)[r.obj := r] && fresh(nodes - old(nodes)) && old(nodes) <= nodes
    {
      var h := Hash(r.obj);
      var objrec := new Node(r, buckets[h]);
      ghost var all := chains[h := [objrec] + chains[h]];
      AllGrow(chains, nodes, recs, objrec, all);
      buckets[h] := objrec;
      forall k | 0 <= k < TABLE_SIZE ensures Linked(buckets[k], all[k]) {
        assert old(Linked(buckets[k], chains[k]));
      }
      Describe(all, nodes + {objrec}, recs[r.obj := r]);
    }

    /** size_of_table */
    method Size() returns (size: nat)
      requires Valid()
      ensures size == |recs|
    {
      size := 0;
      assert HashedBelow(recs, 0) == {};
      for i := 0 to TABLE_SIZE
        invariant size == |HashedBelow(recs, i)|
      {
        var current := buckets[i];
        ghost var chain := chains[i];
        ghost var j := 0;
        assert Linked(current, chain);
        while current != null
          invariant 0 <= j <= |chain| && current == NodeAt(chain, j) && size == |HashedBelow(recs, i)| + j
          decreases |chain| - j
        {
          size := size + 1;
          current := current.next;
          j := j + 1;
        }
        NextChain(RecsOf(chain), recs, i);
      }
      assert HashedBelow(recs, TABLE_SIZE) == recs.Keys;
    }
  }

  lemma ChainGrows(chain: seq<Rec>, recs: map<Addr, Rec>, r: Rec)
    requires ChainFor(chain, recs, Hash(r.obj)) && r.obj !in recs
    ensures ChainFor([r] + chain, recs[r.obj := r], Hash(r.obj))
  {
    var all := [r] + chain;
    forall i, j | 0 <= i < j < |all| ensures all[i].obj != all[j].obj {
      assert all[j] == chain[j - 1] && chain[j - 1] in chain;
    }
    assert forall x <- all :: x == r || x in chain;
    assert forall x <- chain :: x in all;
    assert all[0] == r;
  }

  lemma ChainsJoin(a: seq<Rec>, b: seq<Rec>, p: map<Addr, Rec>, q: map<Addr, Rec>, h: nat)
    requires ChainFor(a, p, h) && ChainFor(b, q, h) && p.Keys !! q.Keys
    ensures ChainFor(a + b, q + p, h)
  {
    var all := a + b;
    assert forall x <- all :: x in a || x in b;
    assert forall x <- a :: x in all;
    assert forall x <- b :: x in all;
    forall i, j | 0 <= i < j < |all| ensures all[i].obj != all[j].obj {
      assert all[i] in (if i < |a| then a else b) && all[j] in (if j < |a| then a else b);
    }
  }

  lemma AllGrow(chains: seq<seq<Node>>, nodes: set<Node>, recs: map<Addr, Rec>, n: Node, all: seq<seq<Node>>)
    requires Placed(chains, nodes) && n.rec.obj !in recs
    requires forall h | 0 <= h < TABLE_SIZE :: ChainFor(RecsOf(chains[h]), recs, h)
    requires all == chains[Hash(n.rec.obj) := [n] + chains[Hash(n.rec.obj)]]
    ensures Placed(all, nodes + {n})
    ensures forall h | 0 <= h < TABLE_SIZE :: ChainFor(RecsOf(all[h]), recs[n.rec.obj := n.rec], h)
  {
    var k := Hash(n.rec.obj);
    assert RecsOf([n] + chains[k]) == [n.rec] + RecsOf(chains[k]);
    ChainGrows(RecsOf(chains[k]), recs, n.rec);
    forall h | 0 <= h < TABLE_SIZE ensures ChainFor(RecsOf(all[h]), recs[n.rec.obj := n.rec], h) {
      assert ChainFor(RecsOf(chains[h]), recs, h);
    }
  }

  lemma InOneChain(ds: seq<seq<Node>>, ss: seq<seq<Node>>, d: set<Node>, s: set<Node>, i: nat)
    requires i < TABLE_SIZE && Placed(ds, d) && Placed(ss, s) && d !! s
    ensures forall n <- ss[i] :: n !in ds[i]
    ensures forall h, n | 0 <= h < TABLE_SIZE && h != i && n in ss[i] :: n !in ds[h] && n !in ss[h]
  {}

  /** The inner loop of merge_tables: the last record of the chain `s` is linked to the chain `t`. */
  method Append(first: Node, ghost s: seq<Node>, second: Node, ghost t: seq<Node>)
    requires Linked(first, s) && Linked(second, t) && s != [] && t != []
    requires (forall i, j | 0 <= i < j < |s| :: s[i] != s[j]) && forall n <- s :: n !in t
    modifies s[|s| - 1]
    ensures Linked(first, s + t)
  {
    var schain := first;
    ghost var i := 0;
    while schain.next != null
      invariant 0 <= i < |s| && schain == s[i]
      decreases |s| - i
    {
      schain := schain.next;
      i := i + 1;
    }
    assert i == |s| - 1;
    schain.next := second;
    ghost var all := s + t;
    forall k | 0 <= k < |all| ensures all[k].next == NodeAt(all, k + 1) {
      if k >= |s| {
        assert all[k] == t[k - |s|] && t[k - |s|] in t;
      } else if k < |s| - 1 {
        assert all[k] == s[k] && s[k] != s[|s| - 1];
      }
    }
  }

  lemma NodesDiffer(chain: seq<Node>, recs: map<Addr, Rec>, h: nat)
    requires ChainFor(RecsOf(chain), recs, h)
    ensures forall i, j | 0 <= i < j < |chain| :: chain[i] != chain[j]
  {
    forall i, j | 0 <= i < j < |chain| ensures chain[i] != chain[j] {
      assert RecsOf(chain)[i].obj != RecsOf(chain)[j].obj;
    }
  }

  lemma RecsJoin(s: seq<Node>, t: seq<Node>)
    ensures RecsOf(s + t) == RecsOf(s) + RecsOf(t)
  {}

  /** How far merge_tables has got with the chains of a hash: those of `src` come first. */
  ghost predicate Merged(d: Node?, s: Node?, ds: seq<Node>, ss: seq<Node>, done: bool)
    reads set n | n in ds, set n | n in ss
  {
    if done then Linked(d, ss + ds) && s == null else Linked(d, ds) && Linked(s, ss)
  }

  /** merge_tables: fold `src` into `dest`, clearing `src`. */
  method Merge(dest: Table, src: Table)
    requires dest.Valid() && src.Valid() && dest != src && dest.buckets != src.buckets &&
             dest.recs.Keys !! src.recs.Keys
    requires dest.nodes !! src.nodes
    modifies dest, src, dest.buckets, src.buckets, src.nodes
    ensures dest.Valid() && src.Valid()
    ensures dest.recs == old(dest.recs) + old(src.recs) && src.recs == map[]
    ensures dest.nodes == old(dest.nodes) + old(src.nodes) && src.nodes == {}
  {
    ghost var ds, ss := dest.chains, src.chains;
    ghost var chains := seq(TABLE_SIZE, h requires 0 <= h < TABLE_SIZE => ss[h] + ds[h]);
    AllJoin(ds, ss, chains, dest.nodes, src.nodes, dest.recs, src.recs);
    MergeChains(dest, src);
    dest.Describe(chains, dest.nodes + src.nodes, dest.recs + src.recs);
    NothingPlaced();
    src.Describe(seq(TABLE_SIZE, _ => []), {}, map[]);
  }

  lemma AllJoin(ds: seq<seq<Node>>, ss: seq<seq<Node>>, chains: seq<seq<Node>>, d: set<Node>, s: set<Node>,
                p: map<Addr, Rec>, q: map<Addr, Rec>)
    requires Placed(ds, d) && Placed(ss, s) && |chains| == TABLE_SIZE && p.Keys !! q.Keys
    requires forall h | 0 <= h < TABLE_SIZE :: chains[h] == ss[h] + ds[h]
    requires forall h | 0 <= h < TABLE_SIZE :: ChainFor(RecsOf(ds[h]), p, h) && ChainFor(RecsOf(ss[h]), q, h)
    ensures Placed(chains, d + s)
    ensures forall h | 0 <= h < TABLE_SIZE :: ChainFor(RecsOf(chains[h]), p + q, h)
  {
    forall h | 0 <= h < TABLE_SIZE ensures ChainFor(RecsOf(chains[h]), p + q, h) {
      RecsJoin(ss[h], ds[h]);
      ChainsJoin(RecsOf(ss[h]), RecsOf(ds[h]), q, p, h);
    }
  }

  lemma NothingPlaced()
    ensures var none: seq<seq<Node>> := seq(TABLE_SIZE, _ => []);
            Placed(none, {}) && forall h | 0 <= h < TABLE_SIZE :: ChainFor(RecsOf(none[h]), map[], h)
  {}

  method MergeChains(dest: Table, src: Table)
    requires dest != src && dest.buckets != src.buckets && dest.buckets.Length == src.buckets.Length == TABLE_SIZE
    requires Placed(dest.chains, dest.nodes) && Placed(src.chains, src.nodes) && dest.nodes !! src.nodes
    requires forall h | 0 <= h < TABLE_SIZE ::
               Linked(dest.buckets[h], dest.chains[h]) && Linked(src.buckets[h], src.chains[h]) &&
               ChainFor(RecsOf(src.chains[h]), src.recs, h)
    modifies dest.buckets, src.buckets, src.nodes
    ensures forall h | 0 <= h < TABLE_SIZE ::
              Linked(dest.buckets[h], src.chains[h] + dest.chains[h]) && src.buckets[h] == null
  {
    ghost var ds, ss := dest.chains, src.chains;
    for i := 0 to TABLE_SIZE
      invariant forall h | 0 <= h < TABLE_SIZE :: Merged(dest.buckets[h], src.buckets[h], ds[h], ss[h], h < i)
    {
      NodesDiffer(ss[i], src.recs, i);
      InOneChain(ds, ss, dest.nodes, src.nodes, i);
      assert Merged(dest.buckets[i], src.buckets[i], ds[i], ss[i], false);
      MergeBucket(dest.buckets, src.buckets, i, ds[i], ss[i]);
    }
  }

  /** One turn of the outer loop. */
  method MergeBucket(dest: array<Node?>, src: array<Node?>, i: nat, ghost d: seq<Node>, ghost s: seq<Node>)
    requires dest != src && i < dest.Length == src.Length && Linked(dest[i], d) && Linked(src[i], s)
    requires (forall j, k | 0 <= j < k < |s| :: s[j] != s[k]) && forall n <- s :: n !in d
    modifies dest, src, set n | n in s
    ensures Linked(dest[i], s + d) && src[i] == null
    ensures forall h | 0 <= h < dest.Length && h != i :: dest[h] == old(dest[h]) && src[h] == old(src[h])
  {
    var dchain, schain := dest[i], src[i];
    if schain == null {
      assert s + d == d;
      return;
    }
    dest[i] := schain;
    src[i] := null;
    if dchain == null {
      assert s + d == s;
    } else {
      Append(schain, s, dchain, d);
    }
  }
}
