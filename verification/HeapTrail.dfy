/**
 The backward reference trace of heap-trail.c: starting from the objects of interest, each
 generation is made of the heap objects that refer to the generation before it, until one
 of them is referenced from a root.
 */
module HeapTrail {
  import opened Options
  import opened HeapObjects
  import opened ObjectTable

  datatype Cell = Cell(addr: Addr, obj: Object)

  /** The heap in the order of the walk; every object is walked once. */
  type Heap = seq<Cell>

  predicate Distinct(heap: Heap) { forall i, j | 0 <= i < j < |heap| :: heap[i].addr != heap[j].addr }

  ghost function Addresses(heap: Heap): set<Addr> {
    if heap == [] then {} else Addresses(heap[..|heap| - 1]) + {heap[|heap| - 1].addr}
  }

  ghost predicate RefersInto(c: Cell, s: set<Addr>) { exists b :: b in References(c.obj) && b in s }

  /** The heap objects that refer to an object in `s`. */
  ghost function Sources(heap: Heap, s: set<Addr>): set<Addr> {
    if heap == [] then {}
    else
      Sources(heap[..|heap| - 1], s) + (if RefersInto(heap[|heap| - 1], s) then {heap[|heap| - 1].addr} else {})
  }

  /** The heap object at `a` refers to `b`. */
  ghost predicate Refers(heap: Heap, a: Addr, b: Addr) {
    exists c :: c in heap && c.addr == a && b in References(c.obj)
  }

  lemma {:induction false} SourceOf(heap: Heap, s: set<Addr>, a: Addr) returns (b: Addr)
    requires a in Sources(heap, s)
    ensures b in s && Refers(heap, a, b) && a in Addresses(heap)
  {
    var init, last := heap[..|heap| - 1], heap[|heap| - 1];
    if a in Sources(init, s) {
      b := SourceOf(init, s, a);
      var c :| c in init && c.addr == a && b in References(c.obj);
      assert c in heap;
    } else {
      b :| b in References(last.obj) && b in s;
    }
  }

  lemma {:induction false} IsSource(heap: Heap, s: set<Addr>, a: Addr, b: Addr)
    requires b in s && Refers(heap, a, b)
    ensures a in Sources(heap, s)
  {
    var init, last := heap[..|heap| - 1], heap[|heap| - 1];
    var c :| c in heap && c.addr == a && b in References(c.obj);
    if c == last {
      assert RefersInto(last, s);
    } else {
      assert c in init;
      IsSource(init, s, a, b);
    }
  }

  // ---------------------------------------------------------------- reference distance

  /** A path of references that starts at `p[0]` and ends at a target. */
  ghost predicate IsPath(heap: Heap, targets: set<Addr>, p: seq<Addr>) {
    p != [] && p[|p| - 1] in targets && forall i | 0 <= i < |p| - 1 :: Refers(heap, p[i], p[i + 1])
  }

  /** The objects from which a target can be reached in at most `n` references. */
  ghost function Within(heap: Heap, targets: set<Addr>, n: nat): set<Addr> {
    if n == 0 then targets
    else
      Within(heap, targets, n - 1) + Sources(heap, Within(heap, targets, n - 1))
  }

  /** The objects at distance exactly `n`. */
  ghost function Level(heap: Heap, targets: set<Addr>, n: nat): set<Addr> {
    if n == 0 then targets else Within(heap, targets, n) - Within(heap, targets, n - 1)
  }

  lemma {:induction false} WithinGrows(heap: Heap, targets: set<Addr>, m: nat, n: nat)
    requires m <= n
    ensures Within(heap, targets, m) <= Within(heap, targets, n)
  {
    if m < n { WithinGrows(heap, targets, m, n - 1); }
  }

  lemma {:induction false} WithinBounded(heap: Heap, targets: set<Addr>, n: nat)
    ensures Within(heap, targets, n) <= targets + Addresses(heap)
  {
    if n > 0 {
      WithinBounded(heap, targets, n - 1);
      forall a <- Sources(heap, Within(heap, targets, n - 1)) ensures a in Addresses(heap) {
        var b := SourceOf(heap, Within(heap, targets, n - 1), a);
      }
    }
  }

  /** `Within` is what it says: exactly the starts of paths of at most `n` references. */
  lemma {:induction false} WithinIsPaths(heap: Heap, targets: set<Addr>, n: nat, a: Addr)
    ensures a in Within(heap, targets, n) <==>
            exists p :: IsPath(heap, targets, p) && p[0] == a && |p| <= n + 1
  {
    if a in Within(heap, targets, n) { var p := PathFrom(heap, targets, n, a); }
    forall p | IsPath(heap, targets, p) && p[0] == a && |p| <= n + 1 ensures a in Within(heap, targets, n) {
      PathWithin(heap, targets, n, p);
    }
  }

  lemma {:induction false} PathFrom(heap: Heap, targets: set<Addr>, n: nat, a: Addr) returns (p: seq<Addr>)
    requires a in Within(heap, targets, n)
    ensures IsPath(heap, targets, p) && p[0] == a && |p| <= n + 1
  {
    if a in targets {
      p := [a];
    } else if a in Within(heap, targets, n - 1) {
      p := PathFrom(heap, targets, n - 1, a);
    } else {
      var b := SourceOf(heap, Within(heap, targets, n - 1), a);
      var q := PathFrom(heap, targets, n - 1, b);
      p := [a] + q;
      LongerPath(heap, targets, a, q);
    }
  }

  lemma LongerPath(heap: Heap, targets: set<Addr>, a: Addr, q: seq<Addr>)
    requires IsPath(heap, targets, q) && Refers(heap, a, q[0])
    ensures IsPath(heap, targets, [a] + q)
  {
    var p := [a] + q;
    forall i | 0 <= i < |p| - 1 ensures Refers(heap, p[i], p[i + 1]) {
      if i > 0 { assert p[i] == q[i - 1] && p[i + 1] == q[i]; }
    }
  }

  lemma ShorterPath(heap: Heap, targets: set<Addr>, p: seq<Addr>)
    requires IsPath(heap, targets, p) && |p| > 1
    ensures IsPath(heap, targets, p[1..]) && Refers(heap, p[0], p[1])
  {
    var q := p[1..];
    forall i | 0 <= i < |q| - 1 ensures Refers(heap, q[i], q[i + 1]) {
      assert Refers(heap, p[i + 1], p[i + 2]);
    }
  }

  lemma {:induction false} PathWithin(heap: Heap, targets: set<Addr>, n: nat, p: seq<Addr>)
    requires IsPath(heap, targets, p) && |p| <= n + 1
    ensures p[0] in Within(heap, targets, n)
    decreases |p|
  {
    if |p| == 1 {
      WithinGrows(heap, targets, 0, n);
    } else {
      ShorterPath(heap, targets, p);
      PathWithin(heap, targets, n - 1, p[1..]);
      IsSource(heap, Within(heap, targets, n - 1), p[0], p[1]);
    }
  }

  /** Once a level is empty nothing farther away exists. */
  lemma {:induction false} EmptyLevelEnds(heap: Heap, targets: set<Addr>, k: nat, n: nat)
    requires Level(heap, targets, k) == {} && n >= k
    ensures Within(heap, targets, n) == if k == 0 then {} else Within(heap, targets, k - 1)
    decreases n
  {
    if k > 0 { WithinGrows(heap, targets, k - 1, k); }
    if n > k {
      EmptyLevelEnds(heap, targets, k, n - 1);
      if k == 0 { NoSources(heap); }
    }
  }

  lemma NoSources(heap: Heap)
    ensures Sources(heap, {}) == {}
  {
    forall a <- Sources(heap, {}) ensures false { var b := SourceOf(heap, {}, a); }
  }

  // ---------------------------------------------------------------- the records of a generation

  /** The parents of `r` are a real path of `n` references from its object to a target. */
  ghost predicate Trail(heap: Heap, targets: set<Addr>, r: Rec, n: nat) {
    if n == 0 then r.parent == None && r.obj in targets
    else r.parent.Some? && Refers(heap, r.obj, r.parent.value.obj) && Trail(heap, targets, r.parent.value, n - 1)
  }

  ghost predicate Generation(heap: Heap, targets: set<Addr>, recs: map<Addr, Rec>, n: nat) {
    recs.Keys == Level(heap, targets, n) && forall a <- recs :: recs[a].obj == a && Trail(heap, targets, recs[a], n)
  }

  /** Where the first reference to an object of `current` leads. */
  function FirstHit(refs: seq<Addr>, current: map<Addr, Rec>): Option<Rec> {
    if refs == [] then None
    else if refs[0] in current then Some(current[refs[0]])
    else FirstHit(refs[1..], current)
  }

  lemma {:induction false} HitIsReference(refs: seq<Addr>, current: map<Addr, Rec>)
    ensures FirstHit(refs, current).Some? <==> exists b :: b in refs && b in current
    ensures FirstHit(refs, current).Some? ==>
              exists b :: b in refs && b in current && FirstHit(refs, current).value == current[b]
  {
    if refs != [] {
      HitIsReference(refs[1..], current);
      assert refs == [refs[0]] + refs[1..];
    }
  }

  /** The parent is the first object referred to that is current. */
  lemma {:induction false} HitIsFirst(refs: seq<Addr>, current: map<Addr, Rec>, k: nat)
    requires k < |refs| && refs[k] in current && forall j | 0 <= j < k :: refs[j] !in current
    ensures FirstHit(refs, current) == Some(current[refs[k]])
  {
    if k > 0 {
      assert refs[0] !in current;
      HitIsFirst(refs[1..], current, k - 1);
    }
  }

  /** What walking the first cells of the heap adds to the children. */
  ghost function Children(heap: Heap, processed: set<Addr>, current: map<Addr, Rec>): map<Addr, Rec> {
    if heap == [] then map[]
    else
      var c := heap[|heap| - 1];
      var before := Children(heap[..|heap| - 1], processed, current);
      var hit := FirstHit(References(c.obj), current);
      if hit.Some? && c.addr !in processed && c.addr !in current then before[c.addr := Rec(c.addr, hit)] else before
  }

  lemma {:induction false} ChildrenAre(heap: Heap, processed: set<Addr>, current: map<Addr, Rec>, a: Addr)
    requires Distinct(heap)
    ensures a in Children(heap, processed, current) <==>
            a !in processed && a !in current && a in Sources(heap, current.Keys)
    ensures a in Children(heap, processed, current) ==>
            var r := Children(heap, processed, current)[a];
            r.obj == a && r.parent.Some? &&
            exists b :: Refers(heap, a, b) && b in current && r.parent.value == current[b]
  {
    if heap != [] {
      var init, last := heap[..|heap| - 1], heap[|heap| - 1];
      assert heap == init + [last];
      ChildrenAre(init, processed, current, a);
      HitIsReference(References(last.obj), current);
      assert FirstHit(References(last.obj), current).Some? <==> RefersInto(last, current.Keys);
      assert forall b :: Refers(init, a, b) ==> Refers(heap, a, b);
      if last.addr == a && FirstHit(References(last.obj), current).Some? {
        var b :| b in References(last.obj) && b in current &&
                 FirstHit(References(last.obj), current).value == current[b];
        assert Refers(heap, a, b);
      }
    }
  }

  /** From one generation to the next. */
  lemma NextGeneration(heap: Heap, targets: set<Addr>, current: map<Addr, Rec>, n: nat)
    requires Distinct(heap) && Generation(heap, targets, current, n)
    ensures Generation(heap, targets,
                       Children(heap, if n == 0 then {} else Within(heap, targets, n - 1), current), n + 1)
  {
    var processed := if n == 0 then {} else Within(heap, targets, n - 1);
    var next := Children(heap, processed, current);
    if n > 0 { WithinGrows(heap, targets, n - 1, n); }
    assert processed + current.Keys == Within(heap, targets, n);
    forall a ensures a in next <==> a in Level(heap, targets, n + 1) {
      ChildrenAre(heap, processed, current, a);
      if a in Level(heap, targets, n + 1) { NotSooner(heap, targets, n, a); }
      SourcesGrow(heap, current.Keys, Within(heap, targets, n));
    }
    forall a <- next ensures next[a].obj == a && Trail(heap, targets, next[a], n + 1) {
      ChildrenAre(heap, processed, current, a);
    }
  }

  lemma SourcesGrow(heap: Heap, s: set<Addr>, t: set<Addr>)
    requires s <= t
    ensures Sources(heap, s) <= Sources(heap, t)
  {
    forall a <- Sources(heap, s) ensures a in Sources(heap, t) {
      var b := SourceOf(heap, s, a);
      IsSource(heap, t, a, b);
    }
  }

  /** An object at distance `n + 1` refers to one at distance `n`. */
  lemma NotSooner(heap: Heap, targets: set<Addr>, n: nat, a: Addr)
    requires a in Level(heap, targets, n + 1)
    ensures a in Sources(heap, Level(heap, targets, n))
  {
    var b := SourceOf(heap, Within(heap, targets, n), a);
    if n > 0 && b in Within(heap, targets, n - 1) { IsSource(heap, Within(heap, targets, n - 1), a, b); }
    IsSource(heap, Level(heap, targets, n), a, b);
  }

  // ---------------------------------------------------------------- the trace

  /** How a trace ends: at a depth where an object is referenced from a root, or with nothing
      left to follow. */
  datatype Ending = Rooted(depth: nat) | Cold(depth: nat)

  /** What recording roots adds to the records of those already there. */
  function WithRoots(recs: map<Addr, Rec>, objects: seq<Addr>, locations: seq<Addr>): map<Addr, Rec>
    requires |locations| == |objects|
  {
    if objects == [] then recs
    else
      var k := |objects| - 1;
      var before := WithRoots(recs, objects[..k], locations[..k]);
      if objects[k] in before then before else before[objects[k] := Rec(objects[k], Some(Rec(locations[k], None)))]
  }

  /** Every object that a root holds has a record, and the others have the one they had. */
  lemma {:induction false} RootsAreRecorded(recs: map<Addr, Rec>, objects: seq<Addr>, locations: seq<Addr>)
    requires |locations| == |objects|
    ensures forall a :: a in WithRoots(recs, objects, locations) <==> a in recs || a in objects
    ensures forall a <- recs :: WithRoots(recs, objects, locations)[a] == recs[a]
  {
    if objects != [] {
      var k := |objects| - 1;
      RootsAreRecorded(recs, objects[..k], locations[..k]);
      assert objects == objects[..k] + [objects[k]];
    }
  }

  /** The record of a new object has the location of the first root that holds it. */
  lemma {:induction false} FirstRootStays(recs: map<Addr, Rec>, objects: seq<Addr>, locations: seq<Addr>, k: nat)
    requires |locations| == |objects| && k < |objects| && objects[k] !in recs && objects[k] !in objects[..k]
    ensures objects[k] in WithRoots(recs, objects, locations)
    ensures WithRoots(recs, objects, locations)[objects[k]] == Rec(objects[k], Some(Rec(locations[k], None)))
  {
    var last := |objects| - 1;
    if k < last {
      assert objects[..last][..k] == objects[..k];
      FirstRootStays(recs, objects[..last], locations[..last], k);
    } else {
      RootsAreRecorded(recs, objects[..last], locations[..last]);
    }
  }

  class Tracer {
    const roots: Table
    const processed: Table
    const current: Table
    const child: Table

    ghost predicate Separate()
      reads roots, processed, current, child
    {
      roots.nodes !! processed.nodes !! current.nodes !! child.nodes &&
      roots != processed && roots != current && roots != child && processed != current && processed != child &&
      current != child &&
      roots.buckets != processed.buckets && roots.buckets != current.buckets && roots.buckets != child.buckets &&
      processed.buckets != current.buckets && processed.buckets != child.buckets && current.buckets != child.buckets
    }

    ghost predicate Valid()
      reads roots, processed, current, child, roots.buckets, processed.buckets, current.buckets, child.buckets
      reads roots.nodes, processed.nodes, current.nodes, child.nodes
    {
      Separate() && roots.Valid() && processed.Valid() && current.Valid() && child.Valid()
    }

    constructor ()
      ensures Valid() && fresh(roots) && fresh(processed) && fresh(current) && fresh(child)
      ensures fresh(roots.buckets) && fresh(processed.buckets) && fresh(current.buckets) && fresh(child.buckets)
      ensures roots.recs == processed.recs == current.recs == child.recs == map[]
      ensures roots.nodes == processed.nodes == current.nodes == child.nodes == {}
    {
      roots := new Table();
      processed := new Table();
      current := new Table();
      child := new Table();
    }

    /** record_a_root, for each root that holds a proper object. */
    method RecordRoots(objects: seq<Addr>, locations: seq<Addr>)
      requires Valid() && |locations| == |objects|
      modifies roots, roots.buckets
      ensures Valid() && fresh(roots.nodes - old(roots.nodes))
      ensures roots.recs == WithRoots(old(roots.recs), objects, locations)
    {
      for i := 0 to |objects|
        invariant Valid() && fresh(roots.nodes - old(roots.nodes))
        invariant roots.recs == WithRoots(old(roots.recs), objects[..i], locations[..i])
      {
        assert objects[..i + 1][..i] == objects[..i] && locations[..i + 1][..i] == locations[..i];
        RecordRoot(objects[i], locations[i]);
      }
      assert objects[..|objects|] == objects && locations[..|objects|] == locations;
    }

    method RecordRoot(o: Addr, location: Addr)
      requires Valid()
      modifies roots, roots.buckets
      ensures Valid() && fresh(roots.nodes - old(roots.nodes))
      ensures roots.recs == if o in old(roots.recs) then old(roots.recs)
                            else old(roots.recs)[o := Rec(o, Some(Rec(location, None)))]
    {
      var r := roots.Find(o);
      if r.None? { roots.Add(Rec(o, Some(Rec(location, None)))); }
    }

    /** advance_generation */
    method AdvanceGeneration()
      requires Valid() && processed.recs.Keys !! current.recs.Keys
      modifies processed, current, child, processed.buckets, current.buckets, child.buckets, current.nodes, child.nodes
      ensures Valid() && current.nodes == old(child.nodes) && child.nodes == {}
      ensures processed.recs == old(processed.recs) + old(current.recs)
      ensures current.recs == old(child.recs) && child.recs == map[]
    {
      Retire();
      Promote();
    }

    method Retire()
      requires Valid() && processed.recs.Keys !! current.recs.Keys
      modifies processed, current, processed.buckets, current.buckets, current.nodes
      ensures Valid() && current.nodes == {} && current.recs == map[]
      ensures processed.recs == old(processed.recs) + old(current.recs)
    {
      Merge(processed, current);
    }

    method Promote()
      requires Valid() && current.recs == map[] && current.nodes == {}
      modifies current, child, current.buckets, child.buckets, child.nodes
      ensures Valid() && current.nodes == old(child.nodes) && child.nodes == {}
      ensures current.recs == old(child.recs) && child.recs == map[]
    {
      Merge(current, child);
    }

    /** trace_reference on the reference fields of one object, up to the one that stops it. */
    method LookForReference(c: Cell)
      requires Valid() && c.addr !in child.recs
      modifies child, child.buckets
      ensures Valid() && fresh(child.nodes - old(child.nodes))
      ensures var hit := FirstHit(References(c.obj), current.recs);
              child.recs == if hit.Some? && c.addr !in processed.recs && c.addr !in current.recs
                            then old(child.recs)[c.addr := Rec(c.addr, hit)] else old(child.recs)
    {
      var refs := TraceObject(c.obj);
      var hit := FindHit(refs);
      if hit.Some? {
        var known := processed.Find(c.addr);
        if known.None? { known := current.Find(c.addr); }
        if known.None? { AddChild(Rec(c.addr, hit)); }
      }
    }

    /** new_obj_rec */
    method AddChild(r: Rec)
      requires Valid() && r.obj !in child.recs
      modifies child, child.buckets
      ensures Valid() && fresh(child.nodes - old(child.nodes)) && child.recs == old(child.recs)[r.obj := r]
    {
      child.Add(r);
    }

    /** The reference at which trace_reference stops. */
    method FindHit(refs: seq<Addr>) returns (hit: Option<Rec>)
      requires current.Valid()
      ensures hit == FirstHit(refs, current.recs)
    {
      var i := 0;
      while i < |refs|
        invariant 0 <= i <= |refs| && FirstHit(refs, current.recs) == FirstHit(refs[i..], current.recs)
      {
        hit := current.Find(refs[i]);
        if hit.Some? { return; }
        i := i + 1;
      }
      hit := None;
    }

    /** process_generation: walk the heap for the objects that refer to this generation. */
    method ProcessGeneration(heap: Heap)
      requires Valid() && Distinct(heap) && child.recs == map[]
      modifies child, child.buckets
      ensures Valid() && fresh(child.nodes - old(child.nodes))
      ensures child.recs == Children(heap, processed.recs.Keys, current.recs)
    {
      for i := 0 to |heap|
        invariant Valid() && fresh(child.nodes - old(child.nodes))
        invariant child.recs == Children(heap[..i], processed.recs.Keys, current.recs)
      {
        assert heap[..i + 1][..i] == heap[..i];
        NotYetWalked(heap, i, processed.recs.Keys, current.recs);
        LookForReference(heap[i]);
      }
      assert heap[..|heap|] == heap;
    }

    /** display_roots_in_current_set, without the display. */
    method RootsInCurrentSet() returns (count: nat)
      requires Valid()
      ensures count > 0 <==> exists a :: a in current.recs && a in roots.recs
    {
      count := 0;
      for i := 0 to TABLE_SIZE
        invariant count > 0 <==> exists a :: a in current.recs && Hash(a) < i && a in roots.recs
      {
        assert Linked(current.buckets[i], current.chains[i]) && ChainFor(RecsOf(current.chains[i]), current.recs, i);
        var here := RootsInChain(current.buckets[i], current.chains[i]);
        RootedChain(RecsOf(current.chains[i]), current.recs, roots.recs, i);
        count := count + here;
      }
    }

    method RootsInChain(first: Node?, ghost chain: seq<Node>) returns (count: nat)
      requires roots.Valid() && Linked(first, chain)
      ensures count > 0 <==> exists k :: 0 <= k < |chain| && RecsOf(chain)[k].obj in roots.recs
    {
      count := 0;
      var node := first;
      ghost var j := 0;
      while node != null
        invariant 0 <= j <= |chain| && node == NodeAt(chain, j)
        invariant count > 0 <==> exists k :: 0 <= k < j && RecsOf(chain)[k].obj in roots.recs
        decreases |chain| - j
      {
        assert RecsOf(chain)[j] == node.rec;
        var root := roots.Find(node.rec.obj);
        if root.Some? { count := count + 1; }
        node := node.next;
        j := j + 1;
      }
    }

    /** advance_through_generations: `targets` have been added as children; `depthLimit` is
        0 unless it is raised from a debugger. */
    method AdvanceThroughGenerations(heap: Heap, ghost targets: set<Addr>, depthLimit: int) returns (ending: Ending)
      requires Valid() && Distinct(heap) && processed.recs == current.recs == map[]
      requires Generation(heap, targets, child.recs, 0)
      modifies processed, current, child, processed.buckets, current.buckets, child.buckets, current.nodes, child.nodes
      ensures Valid() && roots.recs == old(roots.recs)
      // the generation at which the trace stops is the set of objects at that distance,
      // each with a real trail to a target
      ensures ending.Rooted? ==> Generation(heap, targets, current.recs, ending.depth)
      ensures ending.Rooted? ==> ending.depth >= depthLimit && RootedAt(heap, targets, roots.recs.Keys, ending.depth)
      ensures Unrooted(heap, targets, roots.recs.Keys, depthLimit, ending.depth)
      // a cold trace has seen everything from which a target can be reached
      ensures ending.Cold? ==> Level(heap, targets, ending.depth) == {}
      ensures ending.Cold? ==> forall n: nat :: Within(heap, targets, n) <= processed.recs.Keys + current.recs.Keys
    {
      assert Before(heap, targets, 0) == {};
      ending := Generations(heap, targets, depthLimit);
    }

    /** The loop of advance_through_generations. */
    method Generations(heap: Heap, ghost targets: set<Addr>, depthLimit: int) returns (ending: Ending)
      requires Frontier(heap, targets, 0)
      modifies processed, current, child, processed.buckets, current.buckets, child.buckets, current.nodes, child.nodes
      ensures Valid() && roots.recs == old(roots.recs)
      ensures Unrooted(heap, targets, roots.recs.Keys, depthLimit, ending.depth)
      ensures Ended(heap, targets, depthLimit, ending, processed.recs, current.recs, roots.recs)
    {
      var gennum := 0;
      ghost var mine := current.nodes + child.nodes;
      ghost var rooted := roots.recs.Keys;
      while true
        invariant Frontier(heap, targets, gennum) && roots.recs == old(roots.recs)
        invariant fresh(current.nodes - mine) && fresh(child.nodes - mine)
        invariant Unrooted(heap, targets, rooted, depthLimit, gennum)
        decreases targets + Addresses(heap) - Before(heap, targets, gennum)
      {
        var stop := Turn(heap, targets, depthLimit, gennum);
        if stop.Some? {
          ending := stop.value;
          break;
        }
        LessLeft(heap, targets, gennum);
        UnrootedNext(heap, targets, rooted, depthLimit, gennum);
        gennum := gennum + 1;
      }
    }

    /** One turn of the loop: it goes cold, stops at a generation with roots, or goes on. */
    method Turn(heap: Heap, ghost targets: set<Addr>, depthLimit: int, gennum: nat) returns (stop: Option<Ending>)
      requires Frontier(heap, targets, gennum)
      modifies processed, current, child, processed.buckets, current.buckets, child.buckets, current.nodes, child.nodes
      ensures Valid() && roots.recs == old(roots.recs)
      ensures match stop
              case None =>
                Frontier(heap, targets, gennum + 1) && PassedOver(heap, targets, roots.recs.Keys, depthLimit, gennum) &&
                current.nodes == old(child.nodes) && fresh(child.nodes)
              case Some(ending) =>
                ending.depth == gennum &&
                Ended(heap, targets, depthLimit, ending, processed.recs, current.recs, roots.recs)
    {
      var gensize := Remaining(heap, targets, gennum);
      if gensize == 0 { return Some(Cold(gennum)); }
      var rooted := OneGeneration(heap, targets, depthLimit, gennum);
      return if rooted then Some(Rooted(gennum)) else None;
    }

    /** The size of the next generation; if it is empty the trace has gone cold. */
    method Remaining(heap: Heap, ghost targets: set<Addr>, gennum: nat) returns (size: nat)
      requires Frontier(heap, targets, gennum)
      ensures size == 0 <==> Level(heap, targets, gennum) == {}
      ensures size == 0 ==> forall n: nat :: Within(heap, targets, n) <= processed.recs.Keys + current.recs.Keys
    {
      size := child.Size();
      if size == 0 {
        GoesCold(heap, targets, child.recs, processed.recs.Keys + current.recs.Keys, gennum);
      } else {
        LevelNotEmpty(heap, targets, child.recs, gennum);
      }
    }

    /** The children are the objects at distance `n`; everything nearer has been dealt with. */
    ghost predicate Frontier(heap: Heap, targets: set<Addr>, n: nat)
      reads roots, processed, current, child, roots.buckets, processed.buckets, current.buckets, child.buckets
      reads roots.nodes, processed.nodes, current.nodes, child.nodes
    {
      Valid() && Distinct(heap) && Generation(heap, targets, child.recs, n) &&
      processed.recs.Keys !! current.recs.Keys &&
      processed.recs.Keys + current.recs.Keys == Before(heap, targets, n)
    }

    /** The rest of a turn, for a generation that is not empty. */
    method OneGeneration(heap: Heap, ghost targets: set<Addr>, depthLimit: int, gennum: nat) returns (stop: bool)
      requires Frontier(heap, targets, gennum)
      modifies processed, current, child, processed.buckets, current.buckets, child.buckets, current.nodes, child.nodes
      ensures roots.recs == old(roots.recs) && current.nodes == old(child.nodes) && fresh(child.nodes)
      ensures stop <==> depthLimit <= gennum && RootedAt(heap, targets, roots.recs.Keys, gennum)
      ensures if stop then Valid() && Generation(heap, targets, current.recs, gennum)
              else Frontier(heap, targets, gennum + 1)
    {
      LevelIsNew(heap, targets, gennum);
      AdvanceGeneration();
      var count := RootsInCurrentSet();
      if count > 0 && depthLimit <= gennum { return true; }
      Descend(heap, targets, gennum);
      return false;
    }

    /** The children of the generation that is current. */
    method Descend(heap: Heap, ghost targets: set<Addr>, gennum: nat)
      requires Valid() && Distinct(heap) && child.recs == map[] && child.nodes == {}
      requires Generation(heap, targets, current.recs, gennum) && processed.recs.Keys !! current.recs.Keys
      requires processed.recs.Keys == Before(heap, targets, gennum)
      requires processed.recs.Keys + current.recs.Keys == Before(heap, targets, gennum + 1)
      modifies child, child.buckets
      ensures Frontier(heap, targets, gennum + 1) && fresh(child.nodes)
    {
      ProcessGeneration(heap);
      NextGeneration(heap, targets, current.recs, gennum);
    }

    /** find_trails with the usual depth limit, on empty tables: it ends, at the shortest
        distance from an object that a root references to a target if there is one, and cold
        if there is none. */
    method FindTrails(heap: Heap, objects: seq<Addr>, locations: seq<Addr>, targets: seq<Addr>) returns (ending: Ending)
      requires Valid() && Distinct(heap) && |locations| == |objects|
      requires roots.recs == processed.recs == current.recs == child.recs == map[]
      requires forall i, j | 0 <= i < j < |targets| :: targets[i] != targets[j]
      modifies roots, roots.buckets, processed, current, child, processed.buckets, current.buckets, child.buckets
      ensures Valid()
      ensures var ts := set a | a in targets;
              ending.Rooted? ==>
                Generation(heap, ts, current.recs, ending.depth) &&
                exists a :: a in Level(heap, ts, ending.depth) && a in objects
      ensures var ts := set a | a in targets;
              forall p | IsPath(heap, ts, p) && p[0] in objects :: ending.Rooted? && |p| >= ending.depth + 1
    {
      current.NoRecords();
      child.NoRecords();
      RecordRoots(objects, locations);
      RootsAreRecorded(map[], objects, locations);
      AddTargets(targets);
      ghost var ts := set a | a in targets;
      assert Generation(heap, ts, child.recs, 0);
      ending := AdvanceThroughGenerations(heap, ts, 0);
      forall p | IsPath(heap, ts, p) && p[0] in objects ensures ending.Rooted? && |p| >= ending.depth + 1 {
        TrailIsShortest(heap, ts, roots.recs.Keys, ending, p);
      }
    }

    /** add_target_object, for every target. */
    method AddTargets(targets: seq<Addr>)
      requires Valid() && child.recs == map[] && forall i, j | 0 <= i < j < |targets| :: targets[i] != targets[j]
      modifies child, child.buckets
      ensures Valid() && child.recs == (map a | a in targets :: Rec(a, None)) && fresh(child.nodes - old(child.nodes))
    {
      for i := 0 to |targets|
        invariant Valid() && fresh(child.nodes - old(child.nodes))
        invariant child.recs == map a | a in targets[..i] :: Rec(a, None)
      {
        assert targets[..i + 1] == targets[..i] + [targets[i]];
        AddChild(Rec(targets[i], None));
      }
      assert targets[..|targets|] == targets;
    }
  }

  /** What holds at the end of a trace. */
  ghost predicate Ended(heap: Heap, targets: set<Addr>, depthLimit: int, ending: Ending,
                        processed: map<Addr, Rec>, current: map<Addr, Rec>, roots: map<Addr, Rec>) {
    match ending
    case Rooted(n) => n >= depthLimit && Generation(heap, targets, current, n) && RootedAt(heap, targets, roots.Keys, n)
    case Cold(n) =>
      Level(heap, targets, n) == {} && forall k: nat :: Within(heap, targets, k) <= processed.Keys + current.Keys
  }

  lemma LevelNotEmpty(heap: Heap, targets: set<Addr>, recs: map<Addr, Rec>, n: nat)
    requires Generation(heap, targets, recs, n) && |recs| > 0
    ensures Level(heap, targets, n) != {}
  {
    assert |recs.Keys| > 0;
  }

  /** No earlier level is empty, and none that counts has an object referenced from a root. */
  ghost predicate Unrooted(heap: Heap, targets: set<Addr>, roots: set<Addr>, depthLimit: int, n: nat) {
    forall k: nat | k < n :: PassedOver(heap, targets, roots, depthLimit, k)
  }

  ghost predicate PassedOver(heap: Heap, targets: set<Addr>, roots: set<Addr>, depthLimit: int, k: nat) {
    Level(heap, targets, k) != {} && (depthLimit <= k ==> !RootedAt(heap, targets, roots, k))
  }

  lemma UnrootedNext(heap: Heap, targets: set<Addr>, roots: set<Addr>, depthLimit: int, n: nat)
    requires Unrooted(heap, targets, roots, depthLimit, n) && PassedOver(heap, targets, roots, depthLimit, n)
    ensures Unrooted(heap, targets, roots, depthLimit, n + 1)
  {}

  lemma LessLeft(heap: Heap, targets: set<Addr>, n: nat)
    requires Level(heap, targets, n) != {}
    ensures targets + Addresses(heap) - Before(heap, targets, n + 1) <
            targets + Addresses(heap) - Before(heap, targets, n)
  {
    LevelIsNew(heap, targets, n);
    var a :| a in Level(heap, targets, n);
    assert a in targets + Addresses(heap) - Before(heap, targets, n);
  }

  /** Everything nearer than `n`. */
  ghost function Before(heap: Heap, targets: set<Addr>, n: nat): set<Addr> {
    if n == 0 then {} else Within(heap, targets, n - 1)
  }

  /** Some object at distance `n` is referenced from a root. */
  ghost predicate RootedAt(heap: Heap, targets: set<Addr>, roots: set<Addr>, n: nat) {
    exists a :: a in Level(heap, targets, n) && a in roots
  }

  lemma LevelIsNew(heap: Heap, targets: set<Addr>, n: nat)
    ensures Level(heap, targets, n) !! Before(heap, targets, n)
    ensures Before(heap, targets, n) + Level(heap, targets, n) ==
            Within(heap, targets, n) == Before(heap, targets, n + 1)
    ensures Within(heap, targets, n) <= targets + Addresses(heap)
  {
    WithinBounded(heap, targets, n);
    if n > 0 { WithinGrows(heap, targets, n - 1, n); }
  }

  lemma ColdCovers(heap: Heap, targets: set<Addr>, k: nat, n: nat)
    requires Level(heap, targets, k) == {}
    ensures Within(heap, targets, n) <= Before(heap, targets, k)
  {
    if n >= k { EmptyLevelEnds(heap, targets, k, n); } else { WithinGrows(heap, targets, n, k - 1); }
  }

  lemma ColdCoversAll(heap: Heap, targets: set<Addr>, k: nat)
    requires Level(heap, targets, k) == {}
    ensures forall n: nat :: Within(heap, targets, n) <= Before(heap, targets, k)
  {
    forall n: nat ensures Within(heap, targets, n) <= Before(heap, targets, k) { ColdCovers(heap, targets, k, n); }
  }

  lemma GoesCold(heap: Heap, targets: set<Addr>, recs: map<Addr, Rec>, seen: set<Addr>, n: nat)
    requires Generation(heap, targets, recs, n) && |recs| == 0 && seen == Before(heap, targets, n)
    ensures Level(heap, targets, n) == {} && forall k: nat :: Within(heap, targets, k) <= seen
  {
    assert recs.Keys == {};
    ColdCoversAll(heap, targets, n);
  }

  /** The walk meets every object once, so it is not among the children yet. */
  lemma NotYetWalked(heap: Heap, i: nat, processed: set<Addr>, current: map<Addr, Rec>)
    requires Distinct(heap) && i < |heap|
    ensures heap[i].addr !in Children(heap[..i], processed, current)
  {
    ChildrenAre(heap[..i], processed, current, heap[i].addr);
    if heap[i].addr in Sources(heap[..i], current.Keys) {
      var b := SourceOf(heap[..i], current.Keys, heap[i].addr);
    }
  }

  lemma RootedChain(chain: seq<Rec>, current: map<Addr, Rec>, roots: map<Addr, Rec>, h: nat)
    requires ChainFor(chain, current, h) && Keyed(current)
    ensures (exists a :: a in current && Hash(a) < h + 1 && a in roots) <==>
            (exists a :: a in current && Hash(a) < h && a in roots) ||
            (exists k :: 0 <= k < |chain| && chain[k].obj in roots)
  {
    if a :| a in current && Hash(a) == h && a in roots {
      var k :| 0 <= k < |chain| && chain[k] == current[a];
      assert chain[k].obj in roots;
    }
    if k :| 0 <= k < |chain| && chain[k].obj in roots {
      assert chain[k] in chain;
    }
  }

  /** With the usual depth limit the trace ends at the shortest distance from a target to an
      object that a root references, and it goes cold only when no root reaches a target. */
  lemma TrailIsShortest(heap: Heap, targets: set<Addr>, roots: set<Addr>, ending: Ending, p: seq<Addr>)
    requires ending.Rooted? ==> RootedAt(heap, targets, roots, ending.depth)
    requires Unrooted(heap, targets, roots, 0, ending.depth)
    requires ending.Cold? ==> Level(heap, targets, ending.depth) == {}
    requires IsPath(heap, targets, p) && p[0] in roots
    ensures ending.Rooted? && |p| >= ending.depth + 1
  {
    PathWithin(heap, targets, |p| - 1, p);
    var n := |p| - 1;
    if ending.Cold? {
      ColdCovers(heap, targets, ending.depth, n);
      n := ending.depth - 1;
    }
    var k := FirstLevel(heap, targets, n, p[0]);
    assert RootedAt(heap, targets, roots, k);
    assert k < ending.depth ==> PassedOver(heap, targets, roots, 0, k);
  }

  lemma {:induction false} FirstLevel(heap: Heap, targets: set<Addr>, n: nat, a: Addr) returns (k: nat)
    requires a in Within(heap, targets, n)
    ensures k <= n && a in Level(heap, targets, k)
  {
    if n == 0 || a !in Within(heap, targets, n - 1) { k := n; } else { k := FirstLevel(heap, targets, n - 1, a); }
  }
}
