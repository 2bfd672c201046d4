/**
 The second-order heap statistics of heap-order2.c: how many instances of each class there
 are, broken down by the class of what refers to them.  Instances of filtered classes are
 looked through: what they refer to is attributed to whatever refers to them.

 The hash tables are used as the finite maps that `HashTable` shows them to be.
 */
module HeapOrder2 {
  import opened Options
  import opened HeapObjects

  /** Wrappers and aggregation classes. */
  type Class = nat

  /** What memory holds at an address: the class word, and whether the word is the address of a
      proper wrapper (one whose own wrapper is its own wrapper). */
  datatype Item = Item(cls: Class, proper: bool, obj: Object)

  datatype World = World(
    memory: map<Addr, Item>, filtered: set<Class>, aggregation: map<Class, Class>, rootClass: Class)

  datatype Leaf = Leaf(count: nat, size: nat)
  datatype Stats = Stats(count: nat, size: nat, leaves: map<Class, Leaf>)

  /** One object as it is counted. */
  datatype Record = Record(addr: Addr, cls: Class, referrer: Class, size: nat)

  // ---------------------------------------------------------------- the heap

  /** A non-null aligned word that leads to a proper object. */
  predicate Proper(w: World, a: Addr) {
    a != NULL && a % 4 == 0 && a in w.memory && w.memory[a].proper
  }

  predicate Filtered(w: World, a: Addr)
    requires Proper(w, a)
  {
    w.memory[a].cls in w.filtered
  }

  function ClassOf(w: World, c: Class): Class { if c in w.aggregation then w.aggregation[c] else c }

  function SizeOf(o: Object): nat {
    match o.wrapper
    case None => 0
    case Some(x) => Size(o, x)
  }

  function RecordOf(w: World, a: Addr, referrer: Class): Record
    requires Proper(w, a)
  {
    Record(a, ClassOf(w, w.memory[a].cls), referrer, SizeOf(w.memory[a].obj))
  }

  /** `chain` is a chain of references from its first object to its last, through filtered ones. */
  ghost predicate Chain(w: World, chain: seq<Addr>) {
    chain != [] && (forall i | 0 <= i < |chain| :: Proper(w, chain[i])) &&
    forall i | 0 <= i < |chain| - 1 :: Filtered(w, chain[i]) && chain[i + 1] in References(w.memory[chain[i]].obj)
  }

  /** `b` is met when `a` is looked at. */
  ghost predicate Leads(w: World, a: Addr, b: Addr) {
    exists chain :: Chain(w, chain) && chain[0] == a && chain[|chain| - 1] == b
  }

  lemma LeadsHere(w: World, a: Addr)
    requires Proper(w, a)
    ensures Leads(w, a, a)
  {
    assert Chain(w, [a]);
  }

  lemma LeadsOn(w: World, a: Addr, f: Addr, b: Addr)
    requires Proper(w, a) && Filtered(w, a) && f in References(w.memory[a].obj) && Leads(w, f, b)
    ensures Leads(w, a, b)
  {
    var chain :| Chain(w, chain) && chain[0] == f && chain[|chain| - 1] == b;
    var longer := [a] + chain;
    forall i | 0 <= i < |longer| - 1
      ensures Filtered(w, longer[i]) && longer[i + 1] in References(w.memory[longer[i]].obj)
    {
      if i > 0 { assert longer[i] == chain[i - 1] && longer[i + 1] == chain[i]; }
    }
    assert Chain(w, longer);
  }

  /** Every proper object that a filtered one in `s` refers to is in `s`. */
  ghost predicate ClosedAt(w: World, x: Addr, s: set<Addr>) {
    Proper(w, x) && Filtered(w, x) ==>
      forall f | f in References(w.memory[x].obj) && Proper(w, f) :: f in s
  }

  lemma {:induction false} ClosedFollowsChains(w: World, chain: seq<Addr>, s: set<Addr>)
    requires Chain(w, chain) && chain[0] in s && forall x <- s :: ClosedAt(w, x, s)
    ensures chain[|chain| - 1] in s
  {
    if |chain| > 1 {
      assert ClosedAt(w, chain[0], s) && Proper(w, chain[1]);
      var rest := chain[1..];
      forall i | 0 <= i < |rest| - 1 ensures Filtered(w, rest[i]) && rest[i + 1] in References(w.memory[rest[i]].obj) {
        assert rest[i] == chain[i + 1] && rest[i + 1] == chain[i + 2];
      }
      ClosedFollowsChains(w, rest, s);
    }
  }

  // ---------------------------------------------------------------- totals

  ghost function CountSum(leaves: map<Class, Leaf>): nat {
    if leaves == map[] then 0 else var p :| p in leaves; leaves[p].count + CountSum(leaves - {p})
  }

  ghost function SizeSum(leaves: map<Class, Leaf>): nat {
    if leaves == map[] then 0 else var p :| p in leaves; leaves[p].size + SizeSum(leaves - {p})
  }

  lemma {:induction false} SumTakes(leaves: map<Class, Leaf>, p: Class)
    requires p in leaves
    ensures CountSum(leaves) == leaves[p].count + CountSum(leaves - {p})
    ensures SizeSum(leaves) == leaves[p].size + SizeSum(leaves - {p})
    decreases |leaves|
  {
    CountTakes(leaves, p);
    SizeTakes(leaves, p);
  }

  lemma {:induction false} CountTakes(leaves: map<Class, Leaf>, p: Class)
    requires p in leaves
    ensures CountSum(leaves) == leaves[p].count + CountSum(leaves - {p})
    decreases |leaves|
  {
    var q :| q in leaves && CountSum(leaves) == leaves[q].count + CountSum(leaves - {q});
    if q != p {
      Smaller(leaves, q);
      Smaller(leaves, p);
      CountTakes(leaves - {q}, p);
      CountTakes(leaves - {p}, q);
      assert leaves - {q} - {p} == leaves - {p} - {q};
    }
  }

  lemma {:induction false} SizeTakes(leaves: map<Class, Leaf>, p: Class)
    requires p in leaves
    ensures SizeSum(leaves) == leaves[p].size + SizeSum(leaves - {p})
    decreases |leaves|
  {
    var q :| q in leaves && SizeSum(leaves) == leaves[q].size + SizeSum(leaves - {q});
    if q != p {
      Smaller(leaves, q);
      Smaller(leaves, p);
      SizeTakes(leaves - {q}, p);
      SizeTakes(leaves - {p}, q);
      assert leaves - {q} - {p} == leaves - {p} - {q};
    }
  }

  lemma Smaller(leaves: map<Class, Leaf>, p: Class)
    requires p in leaves
    ensures |leaves - {p}| < |leaves|
  {
    assert (leaves - {p}).Keys == leaves.Keys - {p};
  }

  /** A leaf that grows makes the sums grow by as much. */
  lemma SumGrows(leaves: map<Class, Leaf>, p: Class, size: nat)
    ensures var leaf := if p in leaves then leaves[p] else Leaf(0, 0);
            var n := leaves[p := Leaf(leaf.count + 1, leaf.size + size)];
            CountSum(n) == CountSum(leaves) + 1 && SizeSum(n) == SizeSum(leaves) + size
  {
    var leaf := if p in leaves then leaves[p] else Leaf(0, 0);
    var n := leaves[p := Leaf(leaf.count + 1, leaf.size + size)];
    SumTakes(n, p);
    assert n - {p} == leaves - {p};
    if p in leaves { SumTakes(leaves, p); } else { assert leaves - {p} == leaves; }
  }

  // ---------------------------------------------------------------- statistics of records

  function CountOf(records: seq<Record>, c: Class): nat {
    if records == [] then 0
    else CountOf(records[..|records| - 1], c) + (if records[|records| - 1].cls == c then 1 else 0)
  }

  function BytesOf(records: seq<Record>, c: Class): nat {
    if records == [] then 0
    else
      var r := records[|records| - 1];
      BytesOf(records[..|records| - 1], c) + (if r.cls == c then r.size else 0)
  }

  function LeafOf(records: seq<Record>, c: Class, p: Class): Leaf {
    if records == [] then Leaf(0, 0)
    else
      var r := records[|records| - 1];
      var before := LeafOf(records[..|records| - 1], c, p);
      if r.cls == c && r.referrer == p then Leaf(before.count + 1, before.size + r.size) else before
  }

  /** One class's entry tallies the records, and its leaves add up to it. */
  ghost predicate Tallies(records: seq<Record>, stats: map<Class, Stats>, c: Class) {
    (c in stats <==> CountOf(records, c) > 0) &&
    (c in stats ==>
      stats[c].count == CountOf(records, c) && stats[c].size == BytesOf(records, c) &&
      stats[c].count == CountSum(stats[c].leaves) && stats[c].size == SizeSum(stats[c].leaves) &&
      forall p ::
        (p in stats[c].leaves <==> LeafOf(records, c, p).count > 0) &&
        (p in stats[c].leaves ==> stats[c].leaves[p] == LeafOf(records, c, p)))
  }

  // ---------------------------------------------------------------- the walk

  class Statistics {
    const w: World
    var seen: set<Addr>
    var stats: map<Class, Stats>
    ghost var records: seq<Record>

    ghost predicate Valid() reads this {
      (forall c :: Tallies(records, stats, c)) && seen <= w.memory.Keys && (forall x <- seen :: Proper(w, x)) &&
      // the counted objects are the unfiltered ones among those seen, each once
      (forall i | 0 <= i < |records| :: records[i].addr in seen && !Filtered(w, records[i].addr)) &&
      (forall i, j | 0 <= i < j < |records| :: records[i].addr != records[j].addr) &&
      (forall x | x in seen && !Filtered(w, x) :: exists i :: 0 <= i < |records| && records[i].addr == x)
    }

    /** clear_order2_stats and create_seen_table */
    constructor (w: World)
      ensures Valid() && this.w == w && seen == {} && records == []
    {
      this.w := w;
      seen, stats, records := {}, map[], [];
    }

    /** Counting one unfiltered object, referred to from an object of class `pclass`. */
    method Count(a: Addr, pclass: Class)
      requires Valid() && Proper(w, a) && !Filtered(w, a) && a !in seen
      modifies this
      ensures Valid() && seen == old(seen) + {a} && records == old(records) + [RecordOf(w, a, pclass)]
    {
      var size := SizeOf(w.memory[a].obj);
      var oclass := ClassOf(w, w.memory[a].cls);
      seen := seen + {a};
      var s := if oclass in stats then stats[oclass] else Stats(0, 0, map[]);
      var leaf := if pclass in s.leaves then s.leaves[pclass] else Leaf(0, 0);
      SumGrows(s.leaves, pclass, size);
      stats := stats[oclass := Stats(s.count + 1, s.size + size,
                                     s.leaves[pclass := Leaf(leaf.count + 1, leaf.size + size)])];
      ghost var before := records;
      records := records + [RecordOf(w, a, pclass)];
      forall c ensures Tallies(records, stats, c) {
        TallyNext(before, old(stats), RecordOf(w, a, pclass), stats, c);
      }
      forall x | x in seen && !Filtered(w, x) ensures exists i :: 0 <= i < |records| && records[i].addr == x {
        if x == a { assert records[|before|].addr == x; }
        else { var i :| 0 <= i < |before| && before[i].addr == x; assert records[i].addr == x; }
      }
    }

    /** add_stats_for_object */
    method AddStatsForObject(a: Addr, pclass: Class)
      requires Valid()
      modifies this
      ensures Valid() && (Proper(w, a) ==> a in seen)
      ensures Explored(w, a, pclass, old(seen), old(records), seen, records)
      decreases w.memory.Keys - seen, 0
    {
      if !Proper(w, a) || a in seen { return; }
      if Filtered(w, a) {
        seen := seen + {a}; // the unseen set shrinks
        TraceFiltered(a, pclass);
        ExploredFiltered(w, a, pclass, old(seen), old(records), seen, records);
      } else {
        LeadsHere(w, a);
        Count(a, pclass);
      }
    }

    /** Look behind a filtered object, at what it refers to. */
    method TraceFiltered(a: Addr, pclass: Class)
      requires Valid() && Proper(w, a) && Filtered(w, a) && a in seen
      modifies this
      ensures Valid() && Explored(w, a, pclass, old(seen), old(records), seen, records)
      ensures forall f | f in References(w.memory[a].obj) && Proper(w, f) :: f in seen
      decreases w.memory.Keys - seen, 1
    {
      var refs := TraceObject(w.memory[a].obj);
      for i := 0 to |refs|
        invariant Valid() && Explored(w, a, pclass, old(seen), old(records), seen, records)
        invariant forall j | 0 <= j < i && Proper(w, refs[j]) :: refs[j] in seen
      {
        ghost var seen1, records1 := seen, records;
        AddStatsForObject(refs[i], pclass);
        ExploredOn(w, a, refs[i], pclass, old(seen), old(records), seen1, records1, seen, records);
      }
    }

    /** record_order_2_root, and the same for one reference of an unfiltered object. */
    method RecordReference(f: Addr, pclass: Class, ghost done: iset<(Addr, Class)>)
      requires Valid() && Walked(w, done, seen, records)
      modifies this
      ensures Valid() && Walked(w, done + iset{(f, pclass)}, seen, records)
    {
      AddStatsForObject(f, pclass);
      WalkedOn(w, done, f, pclass, old(seen), old(records), seen, records);
    }

    /** record_order_2_object */
    method RecordObject(h: Addr, ghost done: iset<(Addr, Class)>)
      requires Valid() && Walked(w, done, seen, records) && h in w.memory
      modifies this
      ensures Valid() && Walked(w, WithObject(w, done, h), seen, records)
    {
      var item := w.memory[h];
      if item.obj.wrapper.Some? && item.cls !in w.filtered {
        var refs := TraceObject(item.obj);
        RecordReferences(refs, ClassOf(w, item.cls), done);
      }
    }

    method RecordReferences(refs: seq<Addr>, agclass: Class, ghost done: iset<(Addr, Class)>)
      requires Valid() && Walked(w, done, seen, records)
      modifies this
      ensures Valid() && Walked(w, WithReferences(done, refs, agclass), seen, records)
    {
      for i := 0 to |refs|
        invariant Valid() && Walked(w, WithReferences(done, refs[..i], agclass), seen, records)
      {
        assert refs[..i + 1][..i] == refs[..i];
        RecordReference(refs[i], agclass, WithReferences(done, refs[..i], agclass));
      }
      assert refs[..|refs|] == refs;
    }

    /** display_heap_stats_order_2, without the display: walk the heap, then the roots. */
    method Collect(heap: seq<Addr>, roots: seq<Addr>)
      requires Valid() && seen == {} && records == [] && forall h <- heap :: h in w.memory
      modifies this
      ensures Valid()
      // an unfiltered object is counted exactly when a root or an unfiltered object refers to
      // it, directly or through filtered objects, and then once (see Valid)
      ensures forall x | Proper(w, x) && !Filtered(w, x) ::
                Led(w, Origins(w, heap, roots), x) <==> exists i :: 0 <= i < |records| && records[i].addr == x
      // and it is attributed to the class of an origin that leads to it
      ensures forall i | 0 <= i < |records| :: Justified(w, Origins(w, heap, roots), records[i])
      // the same by what memory, the filters and the aggregations hold
      ensures forall x | x in w.memory && Countable(w, x) ::
                (exists p :: Behind(w, heap, roots, x, p)) <==> exists i :: 0 <= i < |records| && records[i].addr == x
      ensures forall i | 0 <= i < |records| :: Attributed(w, heap, roots, records[i])
    {
      for i := 0 to |heap|
        invariant Valid() && Walked(w, WithObjects(w, heap[..i]), seen, records)
      {
        assert heap[..i + 1][..i] == heap[..i];
        RecordObject(heap[i], WithObjects(w, heap[..i]));
      }
      assert heap[..|heap|] == heap;
      RecordReferences(roots, w.rootClass, WithObjects(w, heap));
      forall x | Proper(w, x) && !Filtered(w, x)
        ensures Led(w, Origins(w, heap, roots), x) <==> exists i :: 0 <= i < |records| && records[i].addr == x
      {
        SeenIsLed(w, Origins(w, heap, roots), seen, records, x);
      }
      forall x | x in w.memory && Countable(w, x)
        ensures (exists p :: Behind(w, heap, roots, x, p)) <==> exists i :: 0 <= i < |records| && records[i].addr == x
      {
        LedIsBehind(w, heap, roots, x);
      }
      forall i | 0 <= i < |records| ensures Attributed(w, heap, roots, records[i]) {
        JustifiedIsAttributed(w, heap, roots, records[i]);
      }
    }
  }

  // ---------------------------------------------------------------- what is to be counted

  ghost function WithReferences(done: iset<(Addr, Class)>, refs: seq<Addr>, p: Class): iset<(Addr, Class)> {
    if refs == [] then done else WithReferences(done, refs[..|refs| - 1], p) + iset{(refs[|refs| - 1], p)}
  }

  ghost function WithObject(w: World, done: iset<(Addr, Class)>, h: Addr): iset<(Addr, Class)> {
    if Followed(w, h) then WithReferences(done, References(w.memory[h].obj), ClassOf(w, w.memory[h].cls)) else done
  }

  /** The references of the object are followed: its class is not filtered. */
  predicate Followed(w: World, h: Addr) {
    h in w.memory && w.memory[h].obj.wrapper.Some? && w.memory[h].cls !in w.filtered
  }

  ghost function WithObjects(w: World, heap: seq<Addr>): iset<(Addr, Class)> {
    if heap == [] then iset{} else WithObject(w, WithObjects(w, heap[..|heap| - 1]), heap[|heap| - 1])
  }

  /** Every reference to be followed, with the class it is attributed to. */
  ghost function Origins(w: World, heap: seq<Addr>, roots: seq<Addr>): iset<(Addr, Class)> {
    WithReferences(WithObjects(w, heap), roots, w.rootClass)
  }

  lemma {:induction false} ReferencesAdded(done: iset<(Addr, Class)>, refs: seq<Addr>, p: Class, o: (Addr, Class))
    ensures o in WithReferences(done, refs, p) <==> o in done || (o.0 in refs && o.1 == p)
  {
    if refs != [] {
      ReferencesAdded(done, refs[..|refs| - 1], p, o);
      assert refs == refs[..|refs| - 1] + [refs[|refs| - 1]];
    }
  }

  lemma {:induction false} ObjectsAdded(w: World, heap: seq<Addr>, o: (Addr, Class))
    ensures o in WithObjects(w, heap) <==>
            exists h :: h in heap && Followed(w, h) &&
                        o.0 in References(w.memory[h].obj) && o.1 == ClassOf(w, w.memory[h].cls)
  {
    if heap != [] {
      var init, last := heap[..|heap| - 1], heap[|heap| - 1];
      ObjectsAdded(w, init, o);
      assert heap == init + [last];
      if Followed(w, last) {
        ReferencesAdded(WithObjects(w, init), References(w.memory[last].obj), ClassOf(w, w.memory[last].cls), o);
      }
    }
  }

  /** The origins are the roots, and the references of the unfiltered objects of the heap. */
  lemma OriginsAre(w: World, heap: seq<Addr>, roots: seq<Addr>, o: (Addr, Class))
    ensures o in Origins(w, heap, roots) <==>
            (o.0 in roots && o.1 == w.rootClass) ||
            exists h :: h in heap && Followed(w, h) &&
                        o.0 in References(w.memory[h].obj) && o.1 == ClassOf(w, w.memory[h].cls)
  {
    ReferencesAdded(WithObjects(w, heap), roots, w.rootClass, o);
    ObjectsAdded(w, heap, o);
  }

  // ---------------------------------------------------------------- in terms of memory

  /** The address holds a proper object whose class is not filtered. */
  predicate Countable(w: World, x: Addr)
    requires x in w.memory
  {
    x != 0 && x % 4 == 0 && w.memory[x].proper && w.memory[x].cls !in w.filtered
  }

  /** From a root, or from an unfiltered object of the heap of class `p`, or of one that is
      aggregated to `p`, references lead to `x` through objects of filtered classes only. */
  ghost predicate Behind(w: World, heap: seq<Addr>, roots: seq<Addr>, x: Addr, p: Class) {
    exists chain :: Through(w, chain, x) && StartsUnder(w, heap, roots, chain[0], p)
  }

  ghost predicate Through(w: World, chain: seq<Addr>, x: Addr) {
    chain != [] && chain[|chain| - 1] == x &&
    (forall i | 0 <= i < |chain| ::
      chain[i] != 0 && chain[i] % 4 == 0 && chain[i] in w.memory && w.memory[chain[i]].proper) &&
    forall i | 0 <= i < |chain| - 1 ::
      w.memory[chain[i]].cls in w.filtered && chain[i + 1] in References(w.memory[chain[i]].obj)
  }

  ghost predicate StartsUnder(w: World, heap: seq<Addr>, roots: seq<Addr>, f: Addr, p: Class) {
    (f in roots && p == w.rootClass) ||
    exists h :: h in heap && h in w.memory && f in References(w.memory[h].obj) && w.memory[h].cls !in w.filtered &&
                (w.memory[h].cls in w.aggregation ==> p == w.aggregation[w.memory[h].cls]) &&
                (w.memory[h].cls !in w.aggregation ==> p == w.memory[h].cls)
  }

  /** The record is of an unfiltered object, under the class that its own is aggregated to, or under
      its own if that is not aggregated; and its referrer is one that it is behind. */
  ghost predicate Attributed(w: World, heap: seq<Addr>, roots: seq<Addr>, r: Record) {
    r.addr in w.memory && Countable(w, r.addr) && Behind(w, heap, roots, r.addr, r.referrer) &&
    var item := w.memory[r.addr];
    (item.cls in w.aggregation ==> r.cls == w.aggregation[item.cls]) &&
    (item.cls !in w.aggregation ==> r.cls == item.cls) &&
    r.size == if item.obj.wrapper.Some? then Size(item.obj, item.obj.wrapper.value) else 0
  }

  lemma OriginStarts(w: World, heap: seq<Addr>, roots: seq<Addr>, f: Addr, p: Class)
    ensures (f, p) in Origins(w, heap, roots) <==> StartsUnder(w, heap, roots, f, p)
  {
    OriginsAre(w, heap, roots, (f, p));
  }

  lemma LeadsThrough(w: World, f: Addr, x: Addr)
    ensures Leads(w, f, x) <==> exists chain :: Through(w, chain, x) && chain[0] == f
  {
    forall chain: seq<Addr> ensures Chain(w, chain) && chain[|chain| - 1] == x <==> Through(w, chain, x) {}
  }

  lemma OriginIsBehind(w: World, heap: seq<Addr>, roots: seq<Addr>, f: Addr, x: Addr, p: Class)
    requires (f, p) in Origins(w, heap, roots) && Leads(w, f, x)
    ensures Behind(w, heap, roots, x, p)
  {
    OriginStarts(w, heap, roots, f, p);
    LeadsThrough(w, f, x);
  }

  lemma LedIsBehind(w: World, heap: seq<Addr>, roots: seq<Addr>, x: Addr)
    ensures Led(w, Origins(w, heap, roots), x) <==> exists p :: Behind(w, heap, roots, x, p)
  {
    if o :| o in Origins(w, heap, roots) && Leads(w, o.0, x) {
      OriginIsBehind(w, heap, roots, o.0, x, o.1);
    }
    if p: Class :| Behind(w, heap, roots, x, p) {
      var chain :| Through(w, chain, x) && StartsUnder(w, heap, roots, chain[0], p);
      OriginStarts(w, heap, roots, chain[0], p);
      LeadsThrough(w, chain[0], x);
      var o := (chain[0], p);
      assert o in Origins(w, heap, roots) && Leads(w, o.0, x);
    }
  }

  lemma JustifiedIsAttributed(w: World, heap: seq<Addr>, roots: seq<Addr>, r: Record)
    requires Justified(w, Origins(w, heap, roots), r) && !Filtered(w, r.addr)
    ensures Attributed(w, heap, roots, r)
  {
    var f :| (f, r.referrer) in Origins(w, heap, roots) && Leads(w, f, r.addr);
    OriginIsBehind(w, heap, roots, f, r.addr, r.referrer);
  }

  /** The objects that are recorded under a class. */
  function ObjectsOf(records: seq<Record>, c: Class): set<Addr> {
    set i | 0 <= i < |records| && records[i].cls == c :: records[i].addr
  }

  /** A class's count is the number of objects under it. */
  lemma {:induction false} CountIsObjects(records: seq<Record>, c: Class)
    requires forall i, j | 0 <= i < j < |records| :: records[i].addr != records[j].addr
    ensures CountOf(records, c) == |ObjectsOf(records, c)|
  {
    if records != [] {
      var init, last := records[..|records| - 1], records[|records| - 1];
      CountIsObjects(init, c);
      assert last.addr !in ObjectsOf(init, c);
      assert ObjectsOf(records, c) == ObjectsOf(init, c) + if last.cls == c then {last.addr} else {};
    }
  }

  /** The object's class is aggregated to `k`, or is `k` and not aggregated. */
  predicate FallsUnder(w: World, x: Addr, k: Class) {
    x in w.memory &&
    if w.memory[x].cls in w.aggregation then w.aggregation[w.memory[x].cls] == k else w.memory[x].cls == k
  }

  /** Instances of classes that are aggregated to one class share its entry, whose count is the
      number of all objects counted that are of it or aggregated to it; a class that is
      aggregated to another has no entry of its own, unless something is aggregated to it. */
  lemma AggregatedShare(w: World, heap: seq<Addr>, roots: seq<Addr>, records: seq<Record>, stats: map<Class, Stats>,
                        k: Class)
    requires forall i | 0 <= i < |records| :: Attributed(w, heap, roots, records[i])
    requires forall i, j | 0 <= i < j < |records| :: records[i].addr != records[j].addr
    requires Tallies(records, stats, k)
    ensures var under := set i | 0 <= i < |records| && FallsUnder(w, records[i].addr, k) :: records[i].addr;
            (k in stats <==> under != {}) && (k in stats ==> stats[k].count == |under|)
    ensures k in w.aggregation && k !in w.aggregation.Values ==> k !in stats
  {
    CountIsObjects(records, k);
    var under := set i | 0 <= i < |records| && FallsUnder(w, records[i].addr, k) :: records[i].addr;
    assert under == ObjectsOf(records, k);
  }

  // ---------------------------------------------------------------- progress of the walk

  /** Since `seen0` and `records0`: everything newly seen is led to from `a`, and whatever a
      newly seen filtered object refers to has been seen as well. */
  ghost predicate Explored(w: World, a: Addr, p: Class, seen0: set<Addr>, records0: seq<Record>,
                           seen: set<Addr>, records: seq<Record>) {
    seen0 <= seen && (forall x <- seen - seen0 :: ClosedAt(w, x, seen) && Leads(w, a, x)) &&
    Added(w, p, seen0, records0, records)
  }

  /** The new records are of objects that had not been seen, attributed to `p`. */
  ghost predicate Added(w: World, p: Class, seen0: set<Addr>, records0: seq<Record>, records: seq<Record>) {
    records0 <= records &&
    forall i | |records0| <= i < |records| ::
      Proper(w, records[i].addr) && records[i].addr !in seen0 && records[i] == RecordOf(w, records[i].addr, p)
  }

  lemma ExploredOn(w: World, a: Addr, f: Addr, p: Class, seen0: set<Addr>, records0: seq<Record>,
                   seen1: set<Addr>, records1: seq<Record>, seen: set<Addr>, records: seq<Record>)
    requires Proper(w, a) && Filtered(w, a) && f in References(w.memory[a].obj)
    requires Explored(w, a, p, seen0, records0, seen1, records1) && Explored(w, f, p, seen1, records1, seen, records)
    ensures Explored(w, a, p, seen0, records0, seen, records)
  {
    forall x <- seen - seen0 ensures ClosedAt(w, x, seen) && Leads(w, a, x) {
      if x in seen1 { assert ClosedAt(w, x, seen1); } else { LeadsOn(w, a, f, x); }
    }
  }

  lemma ExploredFiltered(w: World, a: Addr, p: Class, seen0: set<Addr>, records0: seq<Record>,
                         seen: set<Addr>, records: seq<Record>)
    requires Proper(w, a) && Explored(w, a, p, seen0 + {a}, records0, seen, records) && ClosedAt(w, a, seen)
    ensures Explored(w, a, p, seen0, records0, seen, records)
  {
    LeadsHere(w, a);
  }

  ghost predicate Led(w: World, done: iset<(Addr, Class)>, x: Addr) { exists o :: o in done && Leads(w, o.0, x) }

  /** The record is of an object that an origin of its class leads to. */
  ghost predicate Justified(w: World, done: iset<(Addr, Class)>, r: Record) {
    Proper(w, r.addr) && r == RecordOf(w, r.addr, r.referrer) &&
    exists f :: (f, r.referrer) in done && Leads(w, f, r.addr)
  }

  /** What has been seen is what the origins `done` so far lead to. */
  ghost predicate Walked(w: World, done: iset<(Addr, Class)>, seen: set<Addr>, records: seq<Record>) {
    (forall x <- seen :: ClosedAt(w, x, seen) && Led(w, done, x)) &&
    (forall o | o in done && Proper(w, o.0) :: o.0 in seen) &&
    forall i | 0 <= i < |records| :: Justified(w, done, records[i])
  }

  lemma WalkedOn(w: World, done: iset<(Addr, Class)>, f: Addr, p: Class, seen0: set<Addr>, records0: seq<Record>,
                 seen: set<Addr>, records: seq<Record>)
    requires Walked(w, done, seen0, records0) && Explored(w, f, p, seen0, records0, seen, records)
    requires (Proper(w, f) ==> f in seen) && forall i | |records0| <= i < |records| :: records[i].addr in seen
    ensures Walked(w, done + iset{(f, p)}, seen, records)
  {
    var now := done + iset{(f, p)};
    assert (f, p) in now;
    forall x <- seen ensures ClosedAt(w, x, seen) && Led(w, now, x) {
      if x in seen0 {
        assert ClosedAt(w, x, seen0) && Led(w, done, x);
        var o :| o in done && Leads(w, o.0, x);
        assert o in now;
      } else {
        assert Leads(w, (f, p).0, x);
      }
    }
    forall i | 0 <= i < |records| ensures Justified(w, now, records[i]) {
      var r := records[i];
      if i < |records0| {
        assert Justified(w, done, records0[i]);
        var g :| (g, r.referrer) in done && Leads(w, g, r.addr);
        assert (g, r.referrer) in now;
      } else {
        assert (f, r.referrer) in now && r.addr in seen - seen0;
      }
    }
  }

  /** After the walk an object has been seen exactly when an origin leads to it. */
  lemma SeenIsLed(w: World, done: iset<(Addr, Class)>, seen: set<Addr>, records: seq<Record>, x: Addr)
    requires Walked(w, done, seen, records)
    ensures x in seen <==> Led(w, done, x)
  {
    if o :| o in done && Leads(w, o.0, x) {
      var chain :| Chain(w, chain) && chain[0] == o.0 && chain[|chain| - 1] == x;
      ClosedFollowsChains(w, chain, seen);
    }
  }

  /** Tallies of one more record. */
  lemma TallyNext(records: seq<Record>, stats: map<Class, Stats>, r: Record, n: map<Class, Stats>, c: Class)
    requires forall k :: Tallies(records, stats, k)
    requires var s := if r.cls in stats then stats[r.cls] else Stats(0, 0, map[]);
             var leaf := if r.referrer in s.leaves then s.leaves[r.referrer] else Leaf(0, 0);
             n == stats[r.cls := Stats(s.count + 1, s.size + r.size,
                                       s.leaves[r.referrer := Leaf(leaf.count + 1, leaf.size + r.size)])]
    ensures Tallies(records + [r], n, c)
  {
    var all := records + [r];
    assert all[..|records|] == records;
    assert Tallies(records, stats, c);
    var s := if r.cls in stats then stats[r.cls] else Stats(0, 0, map[]);
    SumGrows(s.leaves, r.referrer, r.size);
    if c == r.cls {
      if c !in stats { NoRecords(records, c); }
      forall p ensures (p in n[c].leaves <==> LeafOf(all, c, p).count > 0) &&
                       (p in n[c].leaves ==> n[c].leaves[p] == LeafOf(all, c, p))
      {
        NoLeaf(records, c, p);
      }
    } else {
      forall p ensures LeafOf(all, c, p) == LeafOf(records, c, p) {}
    }
  }

  lemma {:induction false} NoRecords(records: seq<Record>, c: Class)
    requires CountOf(records, c) == 0
    ensures BytesOf(records, c) == 0 && forall p :: LeafOf(records, c, p) == Leaf(0, 0)
  {
    if records != [] { NoRecords(records[..|records| - 1], c); }
  }

  lemma {:induction false} NoLeaf(records: seq<Record>, c: Class, p: Class)
    ensures LeafOf(records, c, p).count == 0 ==> LeafOf(records, c, p).size == 0
  {
    if records != [] { NoLeaf(records[..|records| - 1], c, p); }
  }
}
