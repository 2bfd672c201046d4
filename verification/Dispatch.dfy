/**
 Generic function dispatch of c-run-time.c: a graph of engine nodes that is walked by
 trampolines.  There is one family of trampolines for arguments passed spread, and one for
 more than seven arguments, passed as one vector; both leave the node being entered and its
 next-methods word in the thread environment block.
 */
module Dispatch {
  import opened Options
  import opened Arguments

  // ---------------------------------------------------------------- engine nodes

  datatype Kind = Discriminate | Monomorphic | IfType | TypeCheck

  /** The code installed in a node.  `arg` counts from 1; the `N` entries take a vector. */
  datatype EntryPoint =
    | Mep
    | SingleMethodEngine(nparams: nat)
    | SingleMethodEngineN
    | CacheHeaderEngine(nparams: nat)
    | CacheHeaderEngineN
    | DiscriminatorEngine(kind: Kind, arg: nat, nargs: nat)
    | DiscriminatorEngineN(kind: Kind)
    | GeneralEngineN
    | GeneralSpreadEngine

  /** A callback picks the node to go to from the argument and the parent. */
  datatype Node =
    | GenericFunction(engine: Id)
    | Method
    | SingleMethod(meth: Id, data: Value, entryPoint: EntryPoint)
    | CacheHeader(next: Id, parent: Id, entryPoint: EntryPoint)
    | Callback(properties: nat, callback: (Value, Value) -> Id, entryPoint: EntryPoint)
    | MonomorphicNode(properties: nat, key: int, next: Id, entryPoint: EntryPoint)
    | IfTypeNode(properties: nat, ty: int, thenNode: Id, elseNode: Id, entryPoint: EntryPoint)
    | TypeCheckNode(properties: nat, ty: int, next: Id, entryPoint: EntryPoint)
    | Absent(entryPoint: EntryPoint)
    | Inapplicable(entryPoint: EntryPoint)

  /** One generic function `gf` with its engine nodes; `depth` and `height` witness that there
      is no circle of nodes, nor of parents. */
  datatype Graph = Graph(
    gf: Id,
    sig: Signature,
    nodes: map<Id, Node>,
    instanceP: (Value, int) -> bool,
    wrapperKey: Value -> int,
    absent: Id,
    inapplicable: Id,
    depth: map<Id, nat>,
    height: map<Id, nat>)

  predicate FunctionP(n: Node) { n.Method? || n.GenericFunction? }

  predicate IsDiscriminator(n: Node) { n.Callback? || n.MonomorphicNode? || n.IfTypeNode? || n.TypeCheckNode? }

  function KindOf(n: Node): Kind
    requires IsDiscriminator(n)
  {
    if n.Callback? then Discriminate
    else if n.MonomorphicNode? then Monomorphic
    else if n.IfTypeNode? then IfType
    else TypeCheck
  }

  function ArgNum(properties: nat): nat { properties / 0x100 % 0x100 }

  // ---------------------------------------------------------------- installing entry points

  function RequiredIn(properties: nat): nat { properties / 0x1_0000 % 0x100 }

  function OptionalsIn(properties: nat): nat { properties / 0x100_0000 % 2 }

  /** `primitive_initialize_discriminator`; `None` where it leaves the handler undefined. */
  function InitializeDiscriminator(kind: Kind, properties: nat): Option<EntryPoint> {
    var impargs := RequiredIn(properties) + OptionalsIn(properties);
    if impargs == 1 then Some(DiscriminatorEngine(kind, 1, 1))
    else if 2 <= impargs <= MAX_SPREAD then
      if ArgNum(properties) < impargs then Some(DiscriminatorEngine(kind, ArgNum(properties) + 1, impargs)) else None
    else Some(DiscriminatorEngineN(kind))
  }

  function SingleMethodEntry(sig: Signature): EntryPoint {
    if ImpArgs(sig) <= MAX_SPREAD then SingleMethodEngine(ImpArgs(sig)) else SingleMethodEngineN
  }

  function CacheHeaderEntry(sig: Signature): EntryPoint {
    if ImpArgs(sig) <= MAX_SPREAD then CacheHeaderEngine(ImpArgs(sig)) else CacheHeaderEngineN
  }

  /** The properties of a discriminator fit the generic function. */
  predicate Fits(sig: Signature, properties: nat) {
    RequiredIn(properties) == sig.required && OptionalsIn(properties) == (if sig.optionals then 1 else 0) &&
    ArgNum(properties) < sig.required
  }

  // ---------------------------------------------------------------- well-formed graphs

  predicate Below(g: Graph, n: Id, m: Id) {
    n in g.nodes && !g.nodes[n].GenericFunction? && n in g.depth && m in g.depth && g.depth[n] < g.depth[m]
  }

  predicate Above(g: Graph, p: Id, n: Id) {
    p in g.nodes && p in g.height && n in g.height && g.height[p] < g.height[n] &&
      (p == g.gf || g.nodes[p].CacheHeader?)
  }

  ghost predicate NodeOk(g: Graph, n: Id)
    requires n in g.nodes
  {
    var node := g.nodes[n];
    (node.GenericFunction? <==> n == g.gf) &&
    (IsDiscriminator(node) ==>
       Fits(g.sig, node.properties) &&
       Some(node.entryPoint) == InitializeDiscriminator(KindOf(node), node.properties)) &&
    match node
    case GenericFunction(engine) => Below(g, engine, n)
    case Method => true
    case SingleMethod(meth, _, ep) => meth in g.nodes && g.nodes[meth].Method? && ep == SingleMethodEntry(g.sig)
    case CacheHeader(next, parent, ep) => Below(g, next, n) && Above(g, parent, n) && ep == CacheHeaderEntry(g.sig)
    case Callback(_, callback, _) => forall v, p :: Below(g, callback(v, p), n)
    case MonomorphicNode(_, _, next, _) => Below(g, next, n) && Below(g, g.absent, n)
    case IfTypeNode(_, _, a, b, _) => Below(g, a, n) && Below(g, b, n)
    case TypeCheckNode(_, _, next, _) => Below(g, next, n) && Below(g, g.inapplicable, n)
    case Absent(ep) => ep == GeneralEngineN
    case Inapplicable(ep) => ep == GeneralSpreadEngine
  }

  ghost predicate GraphOk(g: Graph) {
    g.gf in g.nodes && forall n <- g.nodes :: NodeOk(g, n)
  }

  /** A word that leads to the generic function by parent links. */
  predicate Leads(g: Graph, parent: Value) {
    parent.Ref? && parent.id in g.nodes && (parent.id == g.gf || g.nodes[parent.id].CacheHeader?)
  }

  // ---------------------------------------------------------------- the decision tree

  /** Where a dispatch ends: in a method, or in the callback of a node without one. */
  datatype Terminal =
    | Invoke(meth: Id, args: seq<Value>, nextMethods: Value)
    | Report(node: Id, args: seq<Value>, parent: Value)

  /** Which node a discriminator goes to. */
  function Choose(g: Graph, n: Node, arg: Value, parent: Value): Id
    requires IsDiscriminator(n)
  {
    match n
    case Callback(_, callback, _) => callback(arg, parent)
    case MonomorphicNode(_, key, next, _) => if g.wrapperKey(arg) == key then next else g.absent
    case IfTypeNode(_, ty, a, b, _) => if g.instanceP(arg, ty) then a else b
    case TypeCheckNode(_, ty, next, _) => if g.instanceP(arg, ty) then next else g.inapplicable
  }

  ghost function Evaluate(g: Graph, n: Id, parent: Value, imp: seq<Value>): Terminal
    requires GraphOk(g) && n in g.nodes && !g.nodes[n].GenericFunction? && WellPacked(g.sig, imp)
    decreases if n in g.depth then g.depth[n] + 1 else 0
  {
    assert NodeOk(g, n);
    var node := g.nodes[n];
    if IsDiscriminator(node) then
      Evaluate(g, Choose(g, node, imp[ArgNum(node.properties)], parent), parent, imp)
    else if node.CacheHeader? then Evaluate(g, node.next, Ref(n), imp)
    else if node.SingleMethod? then Invoke(node.meth, imp, node.data)
    else if node.Method? then Invoke(n, imp, parent)
    else if node.Absent? then Report(n, imp, parent)
    else Report(n, Unpack(g.sig, imp), parent)
  }

  /** The nodes passed through, the last one included. */
  ghost function Route(g: Graph, n: Id, parent: Value, imp: seq<Value>): seq<Id>
    requires GraphOk(g) && n in g.nodes && !g.nodes[n].GenericFunction? && WellPacked(g.sig, imp)
    ensures |Route(g, n, parent, imp)| > 0
    decreases if n in g.depth then g.depth[n] + 1 else 0
  {
    assert NodeOk(g, n);
    var node := g.nodes[n];
    if node.CacheHeader? then [n] + Route(g, node.next, Ref(n), imp)
    else if IsDiscriminator(node) then
      [n] + Route(g, Choose(g, node, imp[ArgNum(node.properties)], parent), parent, imp)
    else [n]
  }

  /** The last cache header on a route, or the parent the walk started with. */
  function LastHeader(g: Graph, route: seq<Id>, parent: Value): Value {
    if route == [] then parent
    else
      var n := route[|route| - 1];
      if n in g.nodes && g.nodes[n].CacheHeader? then Ref(n) else LastHeader(g, route[..|route| - 1], parent)
  }

  lemma {:induction false} LastHeaderAfter(g: Graph, n: Id, route: seq<Id>, parent: Value)
    ensures LastHeader(g, [n] + route, parent) ==
              LastHeader(g, route, if n in g.nodes && g.nodes[n].CacheHeader? then Ref(n) else parent)
  {
    if route == [] {
      assert ([n] + route)[..0] == [];
    } else {
      assert ([n] + route)[..|route|] == [n] + route[..|route| - 1];
      LastHeaderAfter(g, n, route[..|route| - 1], parent);
    }
  }

  /** Where a dispatch ends whose last node is `n`: a method gets the implementation arguments, with
      the next methods of its single-method node or else the word passed to it. */
  function TerminalAt(g: Graph, n: Id, imp: seq<Value>, word: Value): Terminal
    requires n in g.nodes && WellPacked(g.sig, imp)
  {
    match g.nodes[n]
    case SingleMethod(meth, data, _) => Invoke(meth, imp, data)
    case Method => Invoke(n, imp, word)
    case Inapplicable(_) => Report(n, Unpack(g.sig, imp), word)
    case _ => Report(n, imp, word)
  }

  predicate Terminates(n: Node) { n.SingleMethod? || n.Method? || n.Absent? || n.Inapplicable? }

  /** A node that does not end the dispatch passes it on. */
  lemma PassesOn(g: Graph, n: Id, parent: Value, imp: seq<Value>) returns (next: Id, word: Value)
    requires GraphOk(g) && n in g.nodes && !g.nodes[n].GenericFunction? && WellPacked(g.sig, imp) &&
             !Terminates(g.nodes[n])
    ensures Below(g, next, n) && word == if g.nodes[n].CacheHeader? then Ref(n) else parent
    ensures Evaluate(g, n, parent, imp) == Evaluate(g, next, word, imp)
    ensures Route(g, n, parent, imp) == [n] + Route(g, next, word, imp)
    ensures IsDiscriminator(g.nodes[n]) ==> ArgNum(g.nodes[n].properties) < |imp|
    ensures next == if g.nodes[n].CacheHeader? then g.nodes[n].next
                    else Choose(g, g.nodes[n], imp[ArgNum(g.nodes[n].properties)], parent)
  {
    assert NodeOk(g, n);
    var node := g.nodes[n];
    if node.CacheHeader? {
      next, word := node.next, Ref(n);
    } else {
      next, word := Choose(g, node, imp[ArgNum(node.properties)], parent), parent;
    }
  }

  /** `t` belongs to the last node of the route, and carries the last header on it. */
  ghost predicate Ends(g: Graph, route: seq<Id>, parent: Value, imp: seq<Value>, t: Terminal)
    requires WellPacked(g.sig, imp)
  {
    route != [] &&
    var last := route[|route| - 1];
    last in g.nodes && Terminates(g.nodes[last]) && t == TerminalAt(g, last, imp, LastHeader(g, route, parent))
  }

  lemma EndsHere(g: Graph, n: Id, parent: Value, imp: seq<Value>)
    requires GraphOk(g) && n in g.nodes && Terminates(g.nodes[n]) && WellPacked(g.sig, imp)
    ensures Ends(g, Route(g, n, parent, imp), parent, imp, Evaluate(g, n, parent, imp))
  {
    LastHeaderAfter(g, n, [], parent);
  }

  lemma EndsAfter(g: Graph, n: Id, route: seq<Id>, parent: Value, imp: seq<Value>, t: Terminal)
    requires WellPacked(g.sig, imp)
    requires Ends(g, route, if n in g.nodes && g.nodes[n].CacheHeader? then Ref(n) else parent, imp, t)
    ensures Ends(g, [n] + route, parent, imp, t)
  {
    LastHeaderAfter(g, n, route, parent);
  }

  /** The end of a dispatch from the route alone: the terminal belongs to its last node, and the word
      is the last cache header passed, or the parent that the dispatch began with. */
  lemma {:induction false} TerminalOfRoute(g: Graph, n: Id, parent: Value, imp: seq<Value>)
    requires GraphOk(g) && n in g.nodes && !g.nodes[n].GenericFunction? && WellPacked(g.sig, imp)
    ensures Ends(g, Route(g, n, parent, imp), parent, imp, Evaluate(g, n, parent, imp))
    decreases if n in g.depth then g.depth[n] + 1 else 0
  {
    if Terminates(g.nodes[n]) {
      EndsHere(g, n, parent, imp);
    } else {
      var next, word := PassesOn(g, n, parent, imp);
      TerminalOfRoute(g, next, word, imp);
      EndsAfter(g, n, Route(g, next, word, imp), parent, imp, Evaluate(g, next, word, imp));
    }
  }

  /** A dispatch ends in a method, or in a node that has none. */
  lemma TerminalKind(g: Graph, n: Id, parent: Value, imp: seq<Value>)
    requires GraphOk(g) && n in g.nodes && !g.nodes[n].GenericFunction? && WellPacked(g.sig, imp)
    ensures var t := Evaluate(g, n, parent, imp);
            if t.Invoke? then t.meth in g.nodes && g.nodes[t.meth].Method?
            else t.node in g.nodes && (g.nodes[t.node].Absent? || g.nodes[t.node].Inapplicable?)
  {
    TerminalOfRoute(g, n, parent, imp);
    var route := Route(g, n, parent, imp);
    assert NodeOk(g, route[|route| - 1]);
  }

  // ---------------------------------------------------------------- the route, node by node

  /** Where the words of node `n` send implementation arguments `imp`: the argument's number is the
      second byte of the properties. */
  ghost predicate Follows(g: Graph, n: Id, m: Id, imp: seq<Value>, word: Value)
    requires n in g.nodes && (IsDiscriminator(g.nodes[n]) ==> g.nodes[n].properties / 256 % 256 < |imp|)
  {
    var node := g.nodes[n];
    var k := if IsDiscriminator(node) then node.properties / 256 % 256 else 0;
    match node
    case CacheHeader(next, _, _) => m == next
    case IfTypeNode(_, ty, thenNode, elseNode, _) =>
      (g.instanceP(imp[k], ty) ==> m == thenNode) && (!g.instanceP(imp[k], ty) ==> m == elseNode)
    case MonomorphicNode(_, key, next, _) =>
      (g.wrapperKey(imp[k]) == key ==> m == next) && (g.wrapperKey(imp[k]) != key ==> m == g.absent)
    case TypeCheckNode(_, ty, next, _) =>
      (g.instanceP(imp[k], ty) ==> m == next) && (!g.instanceP(imp[k], ty) ==> m == g.inapplicable)
    case Callback(_, callback, _) => m == callback(imp[k], word)
    case _ => false
  }

  /** Every node of a route but the last is followed by the one that its own words say. */
  ghost predicate FollowsThrough(g: Graph, route: seq<Id>, imp: seq<Value>, parent: Value) {
    forall i | 0 <= i < |route| - 1 :: route[i] in g.nodes &&
      (IsDiscriminator(g.nodes[route[i]]) ==> g.nodes[route[i]].properties / 256 % 256 < |imp|) &&
      Follows(g, route[i], route[i + 1], imp, LastHeader(g, route[..i], parent))
  }

  lemma {:induction false} RouteFollows(g: Graph, n: Id, parent: Value, imp: seq<Value>)
    requires GraphOk(g) && n in g.nodes && !g.nodes[n].GenericFunction? && WellPacked(g.sig, imp)
    ensures Route(g, n, parent, imp)[0] == n && FollowsThrough(g, Route(g, n, parent, imp), imp, parent)
    decreases if n in g.depth then g.depth[n] + 1 else 0
  {
    if !Terminates(g.nodes[n]) {
      var next, word := PassesOn(g, n, parent, imp);
      RouteFollows(g, next, word, imp);
      StepFollows(g, n, next, parent, imp);
      OneMoreFollows(g, n, Route(g, next, word, imp), imp, parent, word);
    }
  }

  lemma StepFollows(g: Graph, n: Id, next: Id, parent: Value, imp: seq<Value>)
    requires GraphOk(g) && n in g.nodes && !g.nodes[n].GenericFunction? && !Terminates(g.nodes[n])
    requires WellPacked(g.sig, imp)
    requires IsDiscriminator(g.nodes[n]) ==> ArgNum(g.nodes[n].properties) < |imp|
    requires next == if g.nodes[n].CacheHeader? then g.nodes[n].next
                     else Choose(g, g.nodes[n], imp[ArgNum(g.nodes[n].properties)], parent)
    ensures Follows(g, n, next, imp, parent)
  {}

  lemma OneMoreFollows(g: Graph, n: Id, route: seq<Id>, imp: seq<Value>, parent: Value, word: Value)
    requires n in g.nodes && route != [] && FollowsThrough(g, route, imp, word)
    requires IsDiscriminator(g.nodes[n]) ==> g.nodes[n].properties / 256 % 256 < |imp|
    requires Follows(g, n, route[0], imp, parent) && word == if g.nodes[n].CacheHeader? then Ref(n) else parent
    ensures FollowsThrough(g, [n] + route, imp, parent)
  {
    var longer := [n] + route;
    forall i | 0 <= i < |longer| - 1
      ensures longer[i] in g.nodes &&
              (IsDiscriminator(g.nodes[longer[i]]) ==> g.nodes[longer[i]].properties / 256 % 256 < |imp|) &&
              Follows(g, longer[i], longer[i + 1], imp, LastHeader(g, longer[..i], parent))
    {
      if i > 0 {
        assert longer[..i] == [n] + route[..i - 1];
        LastHeaderAfter(g, n, route[..i - 1], parent);
        assert Follows(g, route[i - 1], route[i], imp, LastHeader(g, route[..i - 1], word));
      }
    }
  }

  /** The entry point that a well-formed graph has in a discriminator, in plain numbers: up to
      seven implementation arguments it is the one for the argument's place and their number,
      both counted from 1, and beyond that the one for a vector. */
  lemma Installed(g: Graph, n: Id)
    requires GraphOk(g) && n in g.nodes && IsDiscriminator(g.nodes[n])
    ensures var node := g.nodes[n];
            var count := g.sig.required + if g.sig.optionals then 1 else 0;
            node.properties / 256 % 256 < g.sig.required == node.properties / 65536 % 256 &&
            (node.properties / 16777216 % 2 == 1 <==> g.sig.optionals) &&
            node.entryPoint == if count <= 7
                               then DiscriminatorEngine(KindOf(node), node.properties / 256 % 256 + 1, count)
                               else DiscriminatorEngineN(KindOf(node))
  {
    assert NodeOk(g, n);
  }

  /** A discriminator between a generic function and two methods; a word is an instance of the
      type of its number, and is its own wrapper key. */
  function Branching(sig: Signature, node: Node): Graph {
    Graph(0, sig,
          map[0 := GenericFunction(1), 1 := node, 2 := Method, 3 := Method, 4 := Absent(GeneralEngineN),
              5 := Inapplicable(GeneralSpreadEngine)],
          (v, ty) => v == Word(ty), (v: Value) => if v.Word? then v.w else 0, 4, 5,
          map[0 := 2, 1 := 1, 2 := 0, 3 := 0, 4 := 0, 5 := 0], map[0 := 0])
  }

  const TWO: Signature := Signature(2, false)

  /** Of two arguments, discriminating on the second. */
  const SECOND_OF_TWO: nat := 0x2_0100

  lemma BranchingOk(sig: Signature, node: Node)
    requires IsDiscriminator(node) && Fits(sig, node.properties)
    requires Some(node.entryPoint) == InitializeDiscriminator(KindOf(node), node.properties)
    requires match node
             case Callback(_, callback, _) => forall v, p :: 2 <= callback(v, p) <= 5
             case IfTypeNode(_, _, a, b, _) => 2 <= a <= 5 && 2 <= b <= 5
             case _ => 2 <= node.next <= 5
    ensures GraphOk(Branching(sig, node))
  {
    var g := Branching(sig, node);
    assert g.nodes.Keys == {0, 1, 2, 3, 4, 5};
    assert NodeOk(g, 1);
  }

  lemma BranchingEnds(node: Node, imp: seq<Value>, m: Id)
    requires IsDiscriminator(node) && |imp| == 2 && GraphOk(Branching(TWO, node)) && node.properties == SECOND_OF_TWO
    requires m == Choose(Branching(TWO, node), node, imp[1], Ref(0)) && 2 <= m <= 5
    ensures Evaluate(Branching(TWO, node), 1, Ref(0), imp) == if m <= 3 then Invoke(m, imp, Ref(0))
                                                              else Report(m, imp, Ref(0))
  {
    var g := Branching(TWO, node);
    assert NodeOk(g, 1) && ArgNum(SECOND_OF_TWO) == 1;
    assert Evaluate(g, 1, Ref(0), imp) == Evaluate(g, m, Ref(0), imp);
  }

  lemma IfTypeExample()
    ensures var g := Branching(TWO, IfTypeNode(SECOND_OF_TWO, 7, 2, 3, DiscriminatorEngine(IfType, 2, 2)));
            GraphOk(g) &&
            Evaluate(g, 1, Ref(0), [Word(5), Word(7)]) == Invoke(2, [Word(5), Word(7)], Ref(0)) &&
            Evaluate(g, 1, Ref(0), [Word(7), Word(5)]) == Invoke(3, [Word(7), Word(5)], Ref(0))
  {
    var node := IfTypeNode(SECOND_OF_TWO, 7, 2, 3, DiscriminatorEngine(IfType, 2, 2));
    BranchingOk(TWO, node);
    BranchingEnds(node, [Word(5), Word(7)], 2);
    BranchingEnds(node, [Word(7), Word(5)], 3);
  }

  lemma MonomorphicExample()
    ensures var g := Branching(TWO, MonomorphicNode(SECOND_OF_TWO, 7, 2, DiscriminatorEngine(Monomorphic, 2, 2)));
            GraphOk(g) &&
            Evaluate(g, 1, Ref(0), [Word(5), Word(7)]) == Invoke(2, [Word(5), Word(7)], Ref(0)) &&
            Evaluate(g, 1, Ref(0), [Word(7), Word(5)]) == Report(4, [Word(7), Word(5)], Ref(0))
  {
    var node := MonomorphicNode(SECOND_OF_TWO, 7, 2, DiscriminatorEngine(Monomorphic, 2, 2));
    BranchingOk(TWO, node);
    BranchingEnds(node, [Word(5), Word(7)], 2);
    BranchingEnds(node, [Word(7), Word(5)], 4);
  }

  lemma TypeCheckExample()
    ensures var g := Branching(TWO, TypeCheckNode(SECOND_OF_TWO, 7, 2, DiscriminatorEngine(TypeCheck, 2, 2)));
            GraphOk(g) &&
            Evaluate(g, 1, Ref(0), [Word(5), Word(7)]) == Invoke(2, [Word(5), Word(7)], Ref(0)) &&
            Evaluate(g, 1, Ref(0), [Word(7), Word(5)]) == Report(5, [Word(7), Word(5)], Ref(0))
  {
    var node := TypeCheckNode(SECOND_OF_TWO, 7, 2, DiscriminatorEngine(TypeCheck, 2, 2));
    BranchingOk(TWO, node);
    BranchingEnds(node, [Word(5), Word(7)], 2);
    BranchingEnds(node, [Word(7), Word(5)], 5);
  }

  lemma CallbackExample()
    ensures var g := Branching(TWO, Callback(SECOND_OF_TWO, (v, p) => if v == Word(7) && p == Ref(0) then 2 else 3,
                                             DiscriminatorEngine(Discriminate, 2, 2)));
            GraphOk(g) &&
            Evaluate(g, 1, Ref(0), [Word(5), Word(7)]) == Invoke(2, [Word(5), Word(7)], Ref(0)) &&
            Evaluate(g, 1, Ref(0), [Word(7), Word(5)]) == Invoke(3, [Word(7), Word(5)], Ref(0))
  {
    var node := Callback(SECOND_OF_TWO, (v, p) => if v == Word(7) && p == Ref(0) then 2 else 3,
                         DiscriminatorEngine(Discriminate, 2, 2));
    BranchingOk(TWO, node);
    BranchingEnds(node, [Word(5), Word(7)], 2);
    BranchingEnds(node, [Word(7), Word(5)], 3);
  }

  /** One argument and optionals: two implementation arguments, of which the first decides; and eight
      arguments, which are passed as a vector. */
  lemma OtherConventions()
    ensures GraphOk(Branching(Signature(1, true),
                              TypeCheckNode(0x101_0000, 7, 2, DiscriminatorEngine(TypeCheck, 1, 2))))
    ensures GraphOk(Branching(Signature(8, false), TypeCheckNode(0x8_0100, 7, 2, DiscriminatorEngineN(TypeCheck))))
  {
    BranchingOk(Signature(1, true), TypeCheckNode(0x101_0000, 7, 2, DiscriminatorEngine(TypeCheck, 1, 2)));
    BranchingOk(Signature(8, false), TypeCheckNode(0x8_0100, 7, 2, DiscriminatorEngineN(TypeCheck)));
  }

  // ---------------------------------------------------------------- more than 64 arguments

  const MAX_APPLY: nat := 64

  /** What arrives: `primitive_mep_apply_with_optionals` passes on 64 arguments at most. */
  function Delivered(t: Terminal): Terminal {
    if t.Invoke? && |t.args| > MAX_APPLY then Invoke(t.meth, t.args[..MAX_APPLY], t.nextMethods) else t
  }

  lemma DeliveredExactly(g: Graph, n: Id, parent: Value, imp: seq<Value>)
    requires GraphOk(g) && n in g.nodes && !g.nodes[n].GenericFunction? && WellPacked(g.sig, imp)
    ensures var t := Evaluate(g, n, parent, imp);
            Delivered(t) == t <==> ImpArgs(g.sig) <= MAX_APPLY || t.Report?
  {
    TerminalOfRoute(g, n, parent, imp);
  }

  /** A generic function of `required` arguments with a single method. */
  function OneMethod(required: nat): Graph {
    Graph(0, Signature(required, false), map[0 := GenericFunction(1), 1 := Method], (_, _) => false, _ => 0, 1, 1,
          map[0 := 1, 1 := 0], map[0 := 0])
  }

  /** With 65 arguments its method gets 64. */
  lemma SixtyFiveArguments()
    ensures var g := OneMethod(65);
            var args := seq(65, i => Word(i));
            GraphOk(g) && Accepts(g.sig, args) && Pack(g.sig, args) == args && WellPacked(g.sig, args) &&
            Evaluate(g, 1, Ref(0), args) == Invoke(1, args, Ref(0)) &&
            Delivered(Evaluate(g, 1, Ref(0), args)) == Invoke(1, seq(64, i => Word(i)), Ref(0))
  {
    var g := OneMethod(65);
    assert g.nodes.Keys == {0, 1};
    assert seq(65, i => Word(i))[..64] == seq(64, i => Word(i));
  }

  // ---------------------------------------------------------------- trampolines

  function EntryOf(n: Node): EntryPoint
    requires !n.GenericFunction?
  {
    if n.Method? then Mep else n.entryPoint
  }

  /** Node `n` can be jumped to; more than seven arguments come as a vector, which no method takes. */
  ghost predicate CanEnter(g: Graph, n: Id, parent: Value, imp: seq<Value>) {
    GraphOk(g) && n in g.nodes && !g.nodes[n].GenericFunction? && Leads(g, parent) && WellPacked(g.sig, imp)
  }

  /** `parent_gf`. */
  method ParentGf(g: Graph, parent: Value) returns (gf: Id)
    requires GraphOk(g) && Leads(g, parent)
    ensures gf == g.gf
  {
    gf := parent.id;
    assert NodeOk(g, gf);
    while !FunctionP(g.nodes[gf])
      invariant gf in g.nodes && (gf == g.gf || g.nodes[gf].CacheHeader?) && NodeOk(g, gf)
      decreases if gf in g.height then g.height[gf] else 0, !FunctionP(g.nodes[gf])
    {
      gf := g.nodes[gf].parent;
      assert NodeOk(g, gf);
    }
  }

  /** `primitive_mep_apply_with_optionals`. */
  method MepApplyWithOptionals(teb: Teb, fn: Id, newNextMethods: Value, args: seq<Value>) returns (t: Terminal)
    modifies teb
    ensures t == Delivered(Invoke(fn, args, newNextMethods)) && teb.argumentCount == |args|
    ensures teb.breaks == old(teb.breaks) + if |args| > MAX_APPLY then 1 else 0
  {
    teb.nextMethods := newNextMethods;
    teb.callee := fn;
    teb.argumentCount := |args|;
    if teb.argumentCount <= 9 {
      t := Invoke(teb.callee, args, teb.nextMethods);
    } else {
      if teb.argumentCount > 64 { teb.breaks := teb.breaks + 1; }
      // what is read beyond the vector is beyond the argument count as well
      t := Invoke(teb.callee, if |args| > 64 then args[..64] else args, teb.nextMethods);
    }
  }

  /** A jump to the entry point of the node in the thread environment block. */
  method Call(teb: Teb, g: Graph, ep: EntryPoint, passed: seq<Value>, ghost imp: seq<Value>) returns (t: Terminal)
    requires CanEnter(g, teb.callee, teb.nextMethods, imp) && ep == EntryOf(g.nodes[teb.callee])
    requires passed == Passed(imp) && (|imp| > MAX_SPREAD ==> ep != Mep) && teb.Valid()
    modifies teb, teb.arguments
    ensures t == Delivered(Evaluate(g, old(teb.callee), old(teb.nextMethods), imp))
    ensures teb.breaks == old(teb.breaks) + if t.Invoke? && |imp| > MAX_APPLY then 1 else 0
    decreases if teb.callee in g.depth then g.depth[teb.callee] + 1 else 0, 2
  {
    assert NodeOk(g, teb.callee);
    match ep
    case Mep => t := Invoke(teb.callee, passed, teb.nextMethods);
    case SingleMethodEngine(_) =>
      var e := g.nodes[teb.callee];
      teb.callee := e.meth;
      teb.nextMethods := e.data;
      t := Invoke(teb.callee, passed, teb.nextMethods);
    case SingleMethodEngineN =>
      var e := g.nodes[teb.callee];
      assert passed[0] == Vector(imp);
      t := MepApplyWithOptionals(teb, e.meth, e.data, passed[0].elements);
    case CacheHeaderEngine(_) =>
      var e := teb.callee;
      t := Jump(teb, g, g.nodes[e].next, Ref(e), passed, imp);
    case CacheHeaderEngineN =>
      var e := teb.callee;
      t := JumpN(teb, g, g.nodes[e].next, Ref(e), passed, imp);
    case DiscriminatorEngine(_, arg, _) => t := DiscriminateSpread(teb, g, arg, passed, imp);
    case DiscriminatorEngineN(_) => t := DiscriminateVector(teb, g, passed, imp);
    case GeneralEngineN =>
      var gf := ParentGf(g, teb.nextMethods);
      var v := teb.GatherEngine(g.sig, passed, imp);
      t := Report(teb.callee, v, teb.nextMethods);
    case GeneralSpreadEngine =>
      var gf := ParentGf(g, teb.nextMethods);
      var v := teb.SpreadEngine(g.sig, passed, imp);
      t := Report(teb.callee, v, teb.nextMethods);
  }

  /** The spread trampolines of all four kinds of discriminator; `arg` counts from 1. */
  method DiscriminateSpread(teb: Teb, g: Graph, arg: nat, passed: seq<Value>, ghost imp: seq<Value>)
      returns (t: Terminal)
    requires CanEnter(g, teb.callee, teb.nextMethods, imp) && teb.Valid() && |imp| <= MAX_SPREAD && passed == imp
    requires IsDiscriminator(g.nodes[teb.callee]) && 1 <= arg <= |imp| &&
             arg - 1 == ArgNum(g.nodes[teb.callee].properties)
    modifies teb, teb.arguments
    ensures t == Delivered(Evaluate(g, old(teb.callee), old(teb.nextMethods), imp)) && teb.breaks == old(teb.breaks)
    decreases if teb.callee in g.depth then g.depth[teb.callee] + 1 else 0, 1
  {
    assert NodeOk(g, teb.callee);
    var parent := teb.nextMethods;
    var next := Choose(g, g.nodes[teb.callee], passed[arg - 1], parent);
    t := Jump(teb, g, next, parent, passed, imp);
  }

  /** The vector trampolines, which take the argument's number from the properties. */
  method DiscriminateVector(teb: Teb, g: Graph, passed: seq<Value>, ghost imp: seq<Value>) returns (t: Terminal)
    requires CanEnter(g, teb.callee, teb.nextMethods, imp) && teb.Valid() && |imp| > MAX_SPREAD &&
             passed == [Vector(imp)]
    requires IsDiscriminator(g.nodes[teb.callee])
    modifies teb, teb.arguments
    ensures t == Delivered(Evaluate(g, old(teb.callee), old(teb.nextMethods), imp))
    ensures teb.breaks == old(teb.breaks) + if t.Invoke? && |imp| > MAX_APPLY then 1 else 0
    decreases if teb.callee in g.depth then g.depth[teb.callee] + 1 else 0, 1
  {
    assert NodeOk(g, teb.callee);
    var e, parent := g.nodes[teb.callee], teb.nextMethods;
    assert passed[0] == Vector(imp);
    var next := Choose(g, e, passed[0].elements[ArgNum(e.properties)], parent);
    t := JumpN(teb, g, next, parent, passed, imp);
  }

  /** The end of a trampoline for spread arguments. */
  method Jump(teb: Teb, g: Graph, next: Id, parent: Value, passed: seq<Value>, ghost imp: seq<Value>)
      returns (t: Terminal)
    requires CanEnter(g, next, parent, imp) && |imp| <= MAX_SPREAD && passed == imp && teb.Valid()
    modifies teb, teb.arguments
    ensures t == Delivered(Evaluate(g, next, parent, imp)) && teb.breaks == old(teb.breaks)
    decreases if next in g.depth then g.depth[next] + 1 else 0, 3
  {
    teb.callee := next;
    teb.nextMethods := parent;
    t := Call(teb, g, EntryOf(g.nodes[next]), passed, imp);
  }

  /** The end of a trampoline for a vector of arguments. */
  method JumpN(teb: Teb, g: Graph, next: Id, parent: Value, passed: seq<Value>, ghost imp: seq<Value>)
      returns (t: Terminal)
    requires CanEnter(g, next, parent, imp) && |imp| > MAX_SPREAD && passed == [Vector(imp)] && teb.Valid()
    modifies teb, teb.arguments
    ensures t == Delivered(Evaluate(g, next, parent, imp))
    ensures teb.breaks == old(teb.breaks) + if t.Invoke? && |imp| > MAX_APPLY then 1 else 0
    decreases if next in g.depth then g.depth[next] + 1 else 0, 3
  {
    if FunctionP(g.nodes[next]) {
      assert passed[0] == Vector(imp);
      t := MepApplyWithOptionals(teb, next, parent, passed[0].elements);
    } else {
      teb.callee := next;
      teb.nextMethods := parent;
      t := Call(teb, g, EntryOf(g.nodes[next]), passed, imp);
    }
  }

  // ---------------------------------------------------------------- entering a generic function

  /** `gf_iep_0` to `gf_iep_7` and `gf_iep`. */
  method GfIep(teb: Teb, g: Graph, passed: seq<Value>, ghost imp: seq<Value>) returns (t: Terminal)
    requires GraphOk(g) && teb.callee == g.gf && WellPacked(g.sig, imp) && passed == Passed(imp) && teb.Valid()
    modifies teb, teb.arguments
    ensures NodeOk(g, g.gf) && t == Delivered(Evaluate(g, g.nodes[g.gf].engine, Ref(g.gf), imp))
  {
    assert NodeOk(g, g.gf);
    var gf := teb.callee;
    var e := g.nodes[gf].engine;
    if ImpArgs(g.sig) <= MAX_SPREAD {
      t := Jump(teb, g, e, Ref(gf), passed, imp);
    } else {
      t := JumpN(teb, g, e, Ref(gf), passed, imp);
    }
  }

  /** `primitive_engine_node_apply_with_optionals`, called on a vector whatever its size. */
  method EngineNodeApplyWithOptionals(teb: Teb, g: Graph, eng: Id, parent: Value, args: seq<Value>)
      returns (t: Terminal)
    requires CanEnter(g, eng, parent, args) && teb.Valid()
    modifies teb, teb.arguments
    ensures t == Delivered(Evaluate(g, eng, parent, args))
  {
    var ep := EntryOf(g.nodes[eng]);
    teb.nextMethods := parent;
    teb.callee := eng;
    teb.argumentCount := |args|;
    if |args| <= MAX_SPREAD {
      t := Call(teb, g, ep, args, args);
    } else if FunctionP(g.nodes[eng]) {
      t := MepApplyWithOptionals(teb, eng, parent, args);
    } else {
      t := Call(teb, g, ep, [Vector(args)], args);
    }
  }

  /** `primitive_engine_node_apply`, called on the actual arguments. */
  method EngineNodeApply(teb: Teb, g: Graph, eng: Id, parent: Value, args: seq<Value>) returns (t: Terminal)
    requires GraphOk(g) && eng in g.nodes && !g.nodes[eng].GenericFunction? && Leads(g, parent) && Accepts(g.sig, args)
    requires teb.Valid()
    modifies teb, teb.arguments
    ensures WellPacked(g.sig, Pack(g.sig, args)) && t == Delivered(Evaluate(g, eng, parent, Pack(g.sig, args)))
  {
    var gf := ParentGf(g, parent);
    var imp := teb.PackVector(g.sig, args);
    PackUnpack(g.sig, args);
    t := EngineNodeApplyWithOptionals(teb, g, eng, parent, imp);
  }

  datatype Dispatched = Reached(t: Terminal) | WrongCount

  /** A call of a generic function from outside, through its external entry point: wrong counts are
      reported, and every other call ends where the decision tree says. */
  method CallGenericFunction(teb: Teb, g: Graph, args: seq<Value>) returns (r: Dispatched)
    requires GraphOk(g) && teb.Valid() && |args| <= MAX_ARGUMENTS
    modifies teb, teb.arguments, teb.a
    ensures !Accepts(g.sig, args) ==> r == WrongCount
    ensures Accepts(g.sig, args) ==>
              NodeOk(g, g.gf) && WellPacked(g.sig, Pack(g.sig, args)) &&
              r == Reached(Delivered(Evaluate(g, g.nodes[g.gf].engine, Ref(g.gf), Pack(g.sig, args))))
  {
    teb.callee := g.gf;
    var passed := teb.GfXep(g.sig, args);
    if passed.CountError? { return WrongCount; }
    PackUnpack(g.sig, args);
    var t := GfIep(teb, g, passed.values, Pack(g.sig, args));
    r := Reached(t);
  }

  /** What a caller's arguments become: a method that is reached gets them packed, so that taking
      its optionals apart gives them back; a node that reports inapplicable methods has them as
      they were given. */
  lemma ArgumentsArrive(g: Graph, args: seq<Value>)
    requires GraphOk(g) && Accepts(g.sig, args)
    ensures NodeOk(g, g.gf) && WellPacked(g.sig, Pack(g.sig, args))
    ensures var t := Evaluate(g, g.nodes[g.gf].engine, Ref(g.gf), Pack(g.sig, args));
            if t.Report? && t.node in g.nodes && g.nodes[t.node].Inapplicable? then t.args == args
            else t.args == Pack(g.sig, args) && Unpack(g.sig, t.args) == args
  {
    assert NodeOk(g, g.gf);
    PackUnpack(g.sig, args);
    TerminalOfRoute(g, g.nodes[g.gf].engine, Ref(g.gf), Pack(g.sig, args));
    TerminalKind(g, g.nodes[g.gf].engine, Ref(g.gf), Pack(g.sig, args));
  }
}
