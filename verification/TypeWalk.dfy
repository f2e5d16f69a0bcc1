/** The recursive gathering of configuration paths over the registered types: a depth
    first walk of a labelled multigraph with a stack of path segments and a stack of the
    types on the way. */
module TypeWalk {
  import opened Sequences

  type Tid = nat

  datatype Checker = Pointer(pointee: Tid) | Container(item: Tid) | Other

  datatype Attribute = Attribute(name: string, checker: Checker)

  /** What the type system answers: attributes, names, the registration order, descent,
      and the base type Object. */
  datatype Registry = Registry(types: set<Tid>, attributes: Tid -> seq<Attribute>, name: Tid -> string,
                               registered: seq<Tid>, isChildOf: (Tid, Tid) -> bool, objectTid: Tid)

  datatype Graph = Graph(reg: Registry, aggregates: seq<(Tid, Tid)>)

  datatype Edge = Edge(segment: string, target: Tid)

  /** A type and one of its configuration paths. */
  type Entry = (Tid, string)

  // ----- the edges out of a type, in the order in which they are followed

  function AttributeEdge(reg: Registry, a: Attribute): seq<Edge> {
    match a.checker
    case Pointer(pointee) => if pointee == reg.objectTid then [] else [Edge(a.name, pointee)]
    case Container(item) => [Edge(a.name + "/[i]", item)]
    case Other => []
  }

  function AttributeEdges(reg: Registry, attributes: seq<Attribute>): seq<Edge> {
    if attributes == [] then []
    else AttributeEdges(reg, attributes[..|attributes| - 1]) +
         AttributeEdge(reg, attributes[|attributes| - 1])
  }

  function ChildEdges(reg: Registry, tid: Tid, candidates: seq<Tid>): seq<Edge> {
    if candidates == [] then []
    else
      var c := candidates[|candidates| - 1];
      ChildEdges(reg, tid, candidates[..|candidates| - 1]) +
      if reg.isChildOf(c, tid) then [Edge("$" + reg.name(c), c)] else []
  }

  lemma OneMoreAttribute(reg: Registry, attributes: seq<Attribute>, i: nat)
    requires i < |attributes|
    ensures (var before, after := AttributeEdges(reg, attributes[..i]), AttributeEdges(reg, attributes[..i + 1]);
             var new_ := AttributeEdge(reg, attributes[i]);
             && (new_ == [] ==> after == before)
             && (new_ != [] ==> after == before + [new_[0]]))
  {
    assert attributes[..i + 1][..i] == attributes[..i];
  }

  lemma OneMoreChild(reg: Registry, tid: Tid, candidates: seq<Tid>, j: nat, first: seq<Edge>)
    requires j < |candidates|
    ensures (var before, after := ChildEdges(reg, tid, candidates[..j]), ChildEdges(reg, tid, candidates[..j + 1]);
             var c := candidates[j];
             && (reg.isChildOf(c, tid) ==> first + after == first + before + [Edge("$" + reg.name(c), c)])
             && (!reg.isChildOf(c, tid) ==> first + after == first + before))
  {
    assert candidates[..j + 1][..j] == candidates[..j];
  }

  /** The other end of an aggregation. */
  function OtherEnd(tid: Tid, pair: (Tid, Tid)): Tid {
    if pair.1 == tid then pair.0 else pair.1
  }

  function AggregateEdges(reg: Registry, tid: Tid, aggregates: seq<(Tid, Tid)>): seq<Edge> {
    if aggregates == [] then []
    else
      var pair := aggregates[|aggregates| - 1];
      AggregateEdges(reg, tid, aggregates[..|aggregates| - 1]) +
      if pair.0 == tid || pair.1 == tid then
        [Edge("$" + reg.name(OtherEnd(tid, pair)), OtherEnd(tid, pair))]
      else []
  }

  function Edges(g: Graph, tid: Tid): seq<Edge> {
    AttributeEdges(g.reg, g.reg.attributes(tid)) + ChildEdges(g.reg, tid, g.reg.registered) +
    AggregateEdges(g.reg, tid, g.aggregates)
  }

  // ----- what the edges are, attribute by attribute, child by child, pair by pair

  /** A configuration path goes through the attribute: it points to another type than Object, or
      holds a container of objects. */
  predicate IsFollowed(reg: Registry, a: Attribute) {
    (a.checker.Pointer? && a.checker.pointee != reg.objectTid) || a.checker.Container?
  }

  predicate IsAttributeEdge(a: Attribute, e: Edge) {
    if a.checker.Pointer? then e.segment == a.name && e.target == a.checker.pointee
    else a.checker.Container? && e.segment == a.name + "/[i]" && e.target == a.checker.item
  }

  predicate IsNamedEdge(reg: Registry, target: Tid, e: Edge) {
    e.target == target && e.segment == "$" + reg.name(target)
  }

  /** The pair aggregates `tid` with `other`. */
  predicate Aggregates(pair: (Tid, Tid), tid: Tid, other: Tid) {
    pair == (tid, other) || pair == (other, tid)
  }

  /** Increasing positions, all of them below `n`. */
  ghost predicate Positions(ps: seq<nat>, n: nat) {
    (forall i, j :: 0 <= i < j < |ps| ==> ps[i] < ps[j]) && forall i :: 0 <= i < |ps| ==> ps[i] < n
  }

  lemma {:induction false} AttributeEdgesAre(reg: Registry, attributes: seq<Attribute>) returns (ps: seq<nat>)
    ensures Positions(ps, |attributes|) && |ps| == |AttributeEdges(reg, attributes)|
    ensures forall i :: 0 <= i < |attributes| ==> (i in ps <==> IsFollowed(reg, attributes[i]))
    ensures forall k :: 0 <= k < |ps| ==> IsAttributeEdge(attributes[ps[k]], AttributeEdges(reg, attributes)[k])
  {
    ps := [];
    if attributes != [] {
      var n := |attributes| - 1;
      ps := AttributeEdgesAre(reg, attributes[..n]);
      if IsFollowed(reg, attributes[n]) {
        ps := ps + [n];
      }
    }
  }

  lemma {:induction false} ChildEdgesAre(reg: Registry, tid: Tid, candidates: seq<Tid>) returns (ps: seq<nat>)
    ensures Positions(ps, |candidates|) && |ps| == |ChildEdges(reg, tid, candidates)|
    ensures forall i :: 0 <= i < |candidates| ==> (i in ps <==> reg.isChildOf(candidates[i], tid))
    ensures forall k :: 0 <= k < |ps| ==> IsNamedEdge(reg, candidates[ps[k]], ChildEdges(reg, tid, candidates)[k])
  {
    ps := [];
    if candidates != [] {
      var n := |candidates| - 1;
      ps := ChildEdgesAre(reg, tid, candidates[..n]);
      if reg.isChildOf(candidates[n], tid) {
        ps := ps + [n];
      }
    }
  }

  ghost predicate IsAggregateEdge(reg: Registry, tid: Tid, pair: (Tid, Tid), e: Edge) {
    Aggregates(pair, tid, e.target) && IsNamedEdge(reg, e.target, e)
  }

  lemma {:induction false} AggregateEdgesAre(reg: Registry, tid: Tid, aggregates: seq<(Tid, Tid)>)
      returns (ps: seq<nat>)
    ensures Positions(ps, |aggregates|) && |ps| == |AggregateEdges(reg, tid, aggregates)|
    ensures forall i :: 0 <= i < |aggregates| ==> (i in ps <==> exists other :: Aggregates(aggregates[i], tid, other))
    ensures forall k :: 0 <= k < |ps| ==>
              IsAggregateEdge(reg, tid, aggregates[ps[k]], AggregateEdges(reg, tid, aggregates)[k])
  {
    ps := [];
    if aggregates != [] {
      var n := |aggregates| - 1;
      var pair := aggregates[n];
      ps := AggregateEdgesAre(reg, tid, aggregates[..n]);
      assert Aggregates(pair, tid, pair.0) || Aggregates(pair, tid, pair.1) <==> pair.0 == tid || pair.1 == tid;
      if pair.0 == tid || pair.1 == tid {
        assert Aggregates(pair, tid, OtherEnd(tid, pair));
        ps := ps + [n];
      }
    }
  }

  /** One step along a configuration path, read off the type system. */
  ghost predicate Leads(g: Graph, tid: Tid, e: Edge) {
    || (exists a :: a in g.reg.attributes(tid) && IsFollowed(g.reg, a) && IsAttributeEdge(a, e))
    || (e.target in g.reg.registered && g.reg.isChildOf(e.target, tid) && IsNamedEdge(g.reg, e.target, e))
    || (exists pair :: pair in g.aggregates && IsAggregateEdge(g.reg, tid, pair, e))
  }

  lemma AttributeEdgeIff(reg: Registry, attributes: seq<Attribute>, e: Edge)
    ensures e in AttributeEdges(reg, attributes) <==>
            exists a :: a in attributes && IsFollowed(reg, a) && IsAttributeEdge(a, e)
  {
    var ps := AttributeEdgesAre(reg, attributes);
    var es := AttributeEdges(reg, attributes);
    if k :| 0 <= k < |es| && es[k] == e {
      assert ps[k] in ps && attributes[ps[k]] in attributes;
    }
    if a :| a in attributes && IsFollowed(reg, a) && IsAttributeEdge(a, e) {
      var i :| 0 <= i < |attributes| && attributes[i] == a;
      var k :| 0 <= k < |ps| && ps[k] == i;
      assert IsAttributeEdge(a, es[k]);
    }
  }

  lemma ChildEdgeIff(reg: Registry, tid: Tid, candidates: seq<Tid>, e: Edge)
    ensures e in ChildEdges(reg, tid, candidates) <==>
            e.target in candidates && reg.isChildOf(e.target, tid) && IsNamedEdge(reg, e.target, e)
  {
    var ps := ChildEdgesAre(reg, tid, candidates);
    var es := ChildEdges(reg, tid, candidates);
    if k :| 0 <= k < |es| && es[k] == e {
      assert ps[k] in ps && candidates[ps[k]] in candidates;
    }
    if i :| 0 <= i < |candidates| && candidates[i] == e.target && reg.isChildOf(e.target, tid) && IsNamedEdge(reg, e.target, e) {
      var k :| 0 <= k < |ps| && ps[k] == i;
      assert es[k] == e;
    }
  }

  lemma AggregateEdgeIff(reg: Registry, tid: Tid, aggregates: seq<(Tid, Tid)>, e: Edge)
    ensures e in AggregateEdges(reg, tid, aggregates) <==>
            exists pair :: pair in aggregates && IsAggregateEdge(reg, tid, pair, e)
  {
    var ps := AggregateEdgesAre(reg, tid, aggregates);
    var es := AggregateEdges(reg, tid, aggregates);
    if k :| 0 <= k < |es| && es[k] == e {
      assert ps[k] in ps && aggregates[ps[k]] in aggregates;
    }
    if pair :| pair in aggregates && IsAggregateEdge(reg, tid, pair, e) {
      var i :| 0 <= i < |aggregates| && aggregates[i] == pair;
      assert Aggregates(aggregates[i], tid, e.target);
      var k :| 0 <= k < |ps| && ps[k] == i;
      assert es[k] == e;
    }
  }

  /** The edges out of a type are exactly the steps that the type system names. */
  lemma EdgeIff(g: Graph, tid: Tid, e: Edge)
    ensures e in Edges(g, tid) <==> Leads(g, tid, e)
  {
    AttributeEdgeIff(g.reg, g.reg.attributes(tid), e);
    ChildEdgeIff(g.reg, tid, g.reg.registered, e);
    AggregateEdgeIff(g.reg, tid, g.aggregates, e);
  }

  /** Every type that is named belongs to the finite set of types. */
  ghost predicate Closed(g: Graph) {
    && (forall t, a :: t in g.reg.types && a in g.reg.attributes(t) ==>
          match a.checker
          case Pointer(pointee) => pointee in g.reg.types
          case Container(item) => item in g.reg.types
          case Other => true)
    && (forall t :: t in g.reg.registered ==> t in g.reg.types)
    && (forall pair :: pair in g.aggregates ==> pair.0 in g.reg.types && pair.1 in g.reg.types)
  }

  ghost predicate TargetsIn(es: seq<Edge>, types: set<Tid>) {
    forall k :: 0 <= k < |es| ==> es[k].target in types
  }

  lemma {:induction false} AttributeTargets(g: Graph, attributes: seq<Attribute>)
    requires forall a :: a in attributes ==>
               match a.checker
               case Pointer(pointee) => pointee in g.reg.types
               case Container(item) => item in g.reg.types
               case Other => true
    ensures TargetsIn(AttributeEdges(g.reg, attributes), g.reg.types)
  {
    if attributes != [] {
      AttributeTargets(g, attributes[..|attributes| - 1]);
      assert attributes[|attributes| - 1] in attributes;
    }
  }

  lemma {:induction false} ChildTargets(g: Graph, tid: Tid, candidates: seq<Tid>)
    requires forall t :: t in candidates ==> t in g.reg.types
    ensures TargetsIn(ChildEdges(g.reg, tid, candidates), g.reg.types)
  {
    if candidates != [] {
      ChildTargets(g, tid, candidates[..|candidates| - 1]);
    }
  }

  lemma {:induction false} AggregateTargets(g: Graph, tid: Tid, aggregates: seq<(Tid, Tid)>)
    requires forall pair :: pair in aggregates ==> pair.0 in g.reg.types && pair.1 in g.reg.types
    ensures TargetsIn(AggregateEdges(g.reg, tid, aggregates), g.reg.types)
  {
    if aggregates != [] {
      AggregateTargets(g, tid, aggregates[..|aggregates| - 1]);
      assert aggregates[|aggregates| - 1] in aggregates;
    }
  }

  lemma EdgeTargets(g: Graph, tid: Tid)
    requires Closed(g) && tid in g.reg.types
    ensures TargetsIn(Edges(g, tid), g.reg.types)
  {
    AttributeTargets(g, g.reg.attributes(tid));
    ChildTargets(g, tid, g.reg.registered);
    AggregateTargets(g, tid, g.aggregates);
  }

  // ----- what the recursion appends

  function PathString(path: seq<string>): string {
    if path == [] then "" else PathString(path[..|path| - 1]) + "/" + path[|path| - 1]
  }

  /** The types that are not on the way. */
  function Remaining(g: Graph, ancestors: seq<Tid>): set<Tid> {
    g.reg.types - (set t | t in ancestors)
  }

  ghost function Gather(g: Graph, tid: Tid, ancestors: seq<Tid>, path: seq<string>): seq<Entry>
    requires Closed(g) && tid in g.reg.types
    decreases Remaining(g, ancestors), 1, 0
  {
    if tid in ancestors then []
    else
      EdgeTargets(g, tid);
      [(tid, PathString(path))] + GatherEdges(g, tid, Edges(g, tid), ancestors, path)
  }

  ghost function GatherEdges(g: Graph, tid: Tid, es: seq<Edge>, ancestors: seq<Tid>, path: seq<string>)
      : seq<Entry>
    requires Closed(g) && tid in g.reg.types && tid !in ancestors && TargetsIn(es, g.reg.types)
    decreases Remaining(g, ancestors), 0, |es|
  {
    if es == [] then []
    else
      var e := es[|es| - 1];
      assert Remaining(g, ancestors + [tid]) < Remaining(g, ancestors) by {
        assert tid in Remaining(g, ancestors) && tid !in Remaining(g, ancestors + [tid]);
      }
      GatherEdges(g, tid, es[..|es| - 1], ancestors, path) +
      Gather(g, e.target, ancestors + [tid], path + [e.segment])
  }

  lemma OneMoreEdge(g: Graph, tid: Tid, es: seq<Edge>, e: Edge, ancestors: seq<Tid>, path: seq<string>)
    requires Closed(g) && tid in g.reg.types && tid !in ancestors
    requires TargetsIn(es, g.reg.types) && e.target in g.reg.types
    ensures TargetsIn(es + [e], g.reg.types)
    ensures GatherEdges(g, tid, es + [e], ancestors, path) ==
            GatherEdges(g, tid, es, ancestors, path) + Gather(g, e.target, ancestors + [tid], path + [e.segment])
  {
    assert (es + [e])[..|es|] == es;
  }

  lemma OneMoreVisit(g: Graph, tid: Tid, es: seq<Edge>, e: Edge, ancestors: seq<Tid>, path: seq<string>,
                     base: seq<Entry>)
    requires Closed(g) && tid in g.reg.types && tid !in ancestors
    requires TargetsIn(es, g.reg.types) && e.target in g.reg.types
    ensures TargetsIn(es + [e], g.reg.types)
    ensures base + GatherEdges(g, tid, es + [e], ancestors, path) ==
            base + GatherEdges(g, tid, es, ancestors, path) +
            Gather(g, e.target, ancestors + [tid], path + [e.segment])
  {
    OneMoreEdge(g, tid, es, e, ancestors, path);
  }

  /** What a type that is not on the way adds to the output. */
  lemma GatherNew(g: Graph, tid: Tid, ancestors: seq<Tid>, path: seq<string>, before: seq<Entry>)
    requires Closed(g) && tid in g.reg.types && tid !in ancestors
    ensures TargetsIn(Edges(g, tid), g.reg.types)
    ensures before + Gather(g, tid, ancestors, path) ==
            before + [(tid, PathString(path))] + GatherEdges(g, tid, Edges(g, tid), ancestors, path)
  {
    EdgeTargets(g, tid);
  }

  lemma Pushed(g: Graph, tid: Tid, ancestors: seq<Tid>)
    requires tid in g.reg.types && tid !in ancestors
    ensures Remaining(g, ancestors + [tid]) < Remaining(g, ancestors)
    ensures Distinct(ancestors) ==> Distinct(ancestors + [tid])
  {
    assert tid in Remaining(g, ancestors) && tid !in Remaining(g, ancestors + [tid]);
  }

  lemma PushPop<T>(stack: seq<T>, top: T)
    ensures (stack + [top])[..|stack + [top]| - 1] == stack
  {
  }

  /** Gathering from one root after the other. */
  ghost function GatherRoots(g: Graph, roots: seq<Tid>): seq<Entry>
    requires Closed(g) && forall r :: r in roots ==> r in g.reg.types
  {
    if roots == [] then []
    else
      assert roots[|roots| - 1] in roots;
      GatherRoots(g, roots[..|roots| - 1]) + Gather(g, roots[|roots| - 1], [], [])
  }

  function PathsTo(output: seq<Entry>, tid: Tid): seq<string> {
    if output == [] then []
    else
      var last := output[|output| - 1];
      PathsTo(output[..|output| - 1], tid) + if last.0 == tid then [last.1] else []
  }

  class StaticInformation {
    const reg: Registry
    var output: seq<Entry>
    var currentPath: seq<string>
    var alreadyProcessed: seq<Tid>
    var aggregates: seq<(Tid, Tid)>
    var noTids: seq<string>

    ghost function G(): Graph
      reads this`aggregates
    {
      Graph(reg, aggregates)
    }

    constructor (reg: Registry)
      ensures this.reg == reg && output == [] && currentPath == [] && alreadyProcessed == []
      ensures aggregates == [] && noTids == []
    {
      this.reg := reg;
      output, currentPath, alreadyProcessed, aggregates, noTids := [], [], [], [], [];
    }

    /** Both names must be registered; the first one that is not is remembered instead. */
    method RecordAggregationInfo(lookup: map<string, Tid>, a: string, b: string)
      modifies this`aggregates, this`noTids
      ensures a in lookup && b in lookup ==>
                aggregates == old(aggregates) + [(lookup[a], lookup[b])] && noTids == old(noTids)
      ensures !(a in lookup && b in lookup) ==>
                aggregates == old(aggregates) &&
                noTids == old(noTids) + [if a !in lookup then a else b]
    {
      if a !in lookup {
        noTids := noTids + [a];
        return;
      }
      if b !in lookup {
        noTids := noTids + [b];
        return;
      }
      aggregates := aggregates + [(lookup[a], lookup[b])];
    }

    method GetCurrentPath() returns (path: string)
      ensures path == PathString(currentPath)
    {
      path := "";
      for i := 0 to |currentPath|
        invariant path == PathString(currentPath[..i])
      {
        path := path + "/" + currentPath[i];
        assert currentPath[..i + 1][..i] == currentPath[..i];
      }
      assert currentPath[..|currentPath|] == currentPath;
    }

    method HasAlreadyBeenProcessed(tid: Tid) returns (found: bool)
      ensures found <==> tid in alreadyProcessed
    {
      for i := 0 to |alreadyProcessed|
        invariant tid !in alreadyProcessed[..i]
      {
        if alreadyProcessed[i] == tid {
          return true;
        }
      }
      return false;
    }

    method Get(tid: Tid) returns (paths: seq<string>)
      ensures paths == PathsTo(output, tid)
    {
      paths := [];
      for i := 0 to |output|
        invariant paths == PathsTo(output[..i], tid)
      {
        if output[i].0 == tid {
          paths := paths + [output[i].1];
        }
        assert output[..i + 1][..i] == output[..i];
      }
      assert output[..|output|] == output;
    }

    method GatherFrom(tid: Tid)
      requires Closed(G()) && tid in reg.types
      requires currentPath == [] && alreadyProcessed == []
      modifies this`output, this`currentPath, this`alreadyProcessed
      ensures currentPath == [] && alreadyProcessed == []
      ensures output == old(output) + Gather(G(), tid, [], [])
    {
      DoGather(tid);
    }

    method GatherAll(roots: seq<Tid>)
      requires Closed(G()) && forall r :: r in roots ==> r in reg.types
      requires currentPath == [] && alreadyProcessed == []
      modifies this`output, this`currentPath, this`alreadyProcessed
      ensures currentPath == [] && alreadyProcessed == []
      ensures output == old(output) + GatherRoots(G(), roots)
    {
      for i := 0 to |roots|
        invariant currentPath == [] && alreadyProcessed == []
        invariant output == old(output) + GatherRoots(G(), roots[..i])
      {
        assert roots[i] in roots;
        GatherFrom(roots[i]);
        assert roots[..i + 1][..i] == roots[..i];
      }
      assert roots[..|roots|] == roots;
    }

    /** The walk stands at `tid`, which is not on the way, and has followed the edges `es`
        since the output was `base`. */
    ghost predicate Followed(tid: Tid, es: seq<Edge>, base: seq<Entry>)
      reads this
    {
      && Closed(G()) && tid in reg.types && tid !in alreadyProcessed && Distinct(alreadyProcessed)
      && TargetsIn(es, reg.types)
      && output == base + GatherEdges(G(), tid, es, alreadyProcessed, currentPath)
    }

    /** Whatever the graph, cycles included, the recursion ends; both stacks are as before,
        and the ancestor stack never holds a type twice. */
    method DoGather(tid: Tid)
      requires Closed(G()) && tid in reg.types && Distinct(alreadyProcessed)
      modifies this`output, this`currentPath, this`alreadyProcessed
      ensures currentPath == old(currentPath) && alreadyProcessed == old(alreadyProcessed)
      ensures output == old(output) + Gather(G(), tid, old(alreadyProcessed), old(currentPath))
      decreases Remaining(G(), alreadyProcessed), 2
    {
      var found := HasAlreadyBeenProcessed(tid);
      if found {
        return;
      }
      var path := GetCurrentPath();
      GatherNew(G(), tid, alreadyProcessed, currentPath, output);
      output := output + [(tid, path)];
      ghost var base := output;
      GatherAttributes(tid, base);
      GatherChildren(tid, base);
      GatherAggregates(tid, base);
    }

    /** Follows one edge: pushes the segment and the type, recurses, and pops both. */
    method Visit(tid: Tid, e: Edge, ghost es: seq<Edge>, ghost base: seq<Entry>)
      requires Followed(tid, es, base) && e.target in reg.types
      modifies this`output, this`currentPath, this`alreadyProcessed
      ensures currentPath == old(currentPath) && alreadyProcessed == old(alreadyProcessed)
      ensures Followed(tid, es + [e], base)
      decreases Remaining(G(), alreadyProcessed), 0
    {
      OneMoreVisit(G(), tid, es, e, alreadyProcessed, currentPath, base);
      Pushed(G(), tid, alreadyProcessed);
      PushPop(alreadyProcessed, tid);
      PushPop(currentPath, e.segment);
      currentPath := currentPath + [e.segment];
      alreadyProcessed := alreadyProcessed + [tid];
      DoGather(e.target);
      alreadyProcessed := alreadyProcessed[..|alreadyProcessed| - 1];
      currentPath := currentPath[..|currentPath| - 1];
      assert alreadyProcessed == old(alreadyProcessed) && currentPath == old(currentPath);
    }

    method GatherAttributes(tid: Tid, ghost base: seq<Entry>)
      requires Followed(tid, [], base)
      modifies this`output, this`currentPath, this`alreadyProcessed
      ensures currentPath == old(currentPath) && alreadyProcessed == old(alreadyProcessed)
      ensures Followed(tid, AttributeEdges(reg, reg.attributes(tid)), base)
      decreases Remaining(G(), alreadyProcessed), 1
    {
      var attributes := reg.attributes(tid);
      for i := 0 to |attributes|
        invariant currentPath == old(currentPath) && alreadyProcessed == old(alreadyProcessed)
        invariant Followed(tid, AttributeEdges(reg, attributes[..i]), base)
      {
        ghost var es := AttributeEdges(reg, attributes[..i]);
        var info := attributes[i];
        OneMoreAttribute(reg, attributes, i);
        assert info in attributes;
        if info.checker.Pointer? {
          if info.checker.pointee != reg.objectTid {
            Visit(tid, Edge(info.name, info.checker.pointee), es, base);
          }
        } else if info.checker.Container? {
          Visit(tid, Edge(info.name + "/[i]", info.checker.item), es, base);
        }
      }
      assert attributes[..|attributes|] == attributes;
    }

    method GatherChildren(tid: Tid, ghost base: seq<Entry>)
      requires Followed(tid, AttributeEdges(reg, reg.attributes(tid)), base)
      modifies this`output, this`currentPath, this`alreadyProcessed
      ensures currentPath == old(currentPath) && alreadyProcessed == old(alreadyProcessed)
      ensures Followed(tid, AttributeEdges(reg, reg.attributes(tid)) + ChildEdges(reg, tid, reg.registered), base)
      decreases Remaining(G(), alreadyProcessed), 1
    {
      ghost var first := AttributeEdges(reg, reg.attributes(tid));
      assert first + [] == first;
      for j := 0 to |reg.registered|
        invariant currentPath == old(currentPath) && alreadyProcessed == old(alreadyProcessed)
        invariant Followed(tid, first + ChildEdges(reg, tid, reg.registered[..j]), base)
      {
        ghost var es := first + ChildEdges(reg, tid, reg.registered[..j]);
        var child := reg.registered[j];
        OneMoreChild(reg, tid, reg.registered, j, first);
        if reg.isChildOf(child, tid) {
          var e := Edge("$" + reg.name(child), child);
          Visit(tid, e, es, base);
        }
      }
      assert reg.registered[..|reg.registered|] == reg.registered;
    }

    method GatherAggregates(tid: Tid, ghost base: seq<Entry>)
      requires Followed(tid, AttributeEdges(reg, reg.attributes(tid)) + ChildEdges(reg, tid, reg.registered), base)
      modifies this`output, this`currentPath, this`alreadyProcessed
      ensures currentPath == old(currentPath) && alreadyProcessed == old(alreadyProcessed)
      ensures Followed(tid, Edges(G(), tid), base)
      decreases Remaining(G(), alreadyProcessed), 1
    {
      ghost var first := AttributeEdges(reg, reg.attributes(tid)) + ChildEdges(reg, tid, reg.registered);
      assert first + [] == first;
      for k := 0 to |aggregates|
        invariant currentPath == old(currentPath) && alreadyProcessed == old(alreadyProcessed)
        invariant Followed(tid, first + AggregateEdges(reg, tid, aggregates[..k]), base)
      {
        ghost var es := first + AggregateEdges(reg, tid, aggregates[..k]);
        var item := aggregates[k];
        assert aggregates[..k + 1][..k] == aggregates[..k] && item in aggregates;
        if item.0 == tid || item.1 == tid {
          var other := item.1;
          if item.1 == tid {
            other := item.0;
          }
          var e := Edge("$" + reg.name(other), other);
          Visit(tid, e, es, base);
          assert first + AggregateEdges(reg, tid, aggregates[..k + 1]) == es + [e];
        } else {
          assert first + AggregateEdges(reg, tid, aggregates[..k + 1]) == es;
        }
      }
      assert aggregates[..|aggregates|] == aggregates;
    }
  }
}
