/** What the gathered entries are: exactly one for each walk from the root that visits no
    type twice. A walk names the edges it takes, so parallel edges give different walks. */
module SimpleWalks {
  import opened TypeWalk
  import opened Sequences

  /** The types on the way, and the position of the edge taken at each of them. */
  datatype Walk = Walk(types: seq<Tid>, edges: seq<nat>)

  ghost predicate TakesEdge(g: Graph, w: Walk, i: nat)
    requires |w.types| == |w.edges| + 1 && i < |w.edges|
  {
    && w.edges[i] < |Edges(g, w.types[i])|
    && w.types[i + 1] == Edges(g, w.types[i])[w.edges[i]].target
  }

  ghost predicate IsWalk(g: Graph, root: Tid, w: Walk) {
    && |w.types| == |w.edges| + 1 && w.types[0] == root
    && forall i: nat :: i < |w.edges| ==> TakesEdge(g, w, i)
  }

  ghost predicate SimpleWalk(g: Graph, root: Tid, w: Walk) {
    IsWalk(g, root, w) && Distinct(w.types)
  }

  ghost function Segment(g: Graph, w: Walk, i: nat): string
    requires |w.types| == |w.edges| + 1 && i < |w.edges| && TakesEdge(g, w, i)
  {
    Edges(g, w.types[i])[w.edges[i]].segment
  }

  ghost function Segments(g: Graph, root: Tid, w: Walk): seq<string>
    requires IsWalk(g, root, w)
  {
    seq(|w.edges|, i requires 0 <= i < |w.edges| => Segment(g, w, i))
  }

  /** The type a walk ends at, and the path it spells. */
  ghost function EntryOf(g: Graph, root: Tid, w: Walk): Entry
    requires IsWalk(g, root, w)
  {
    (w.types[|w.edges|], PathString(Segments(g, root, w)))
  }

  // ----- one step at a time, the way the recursion goes

  ghost predicate Avoids(w: Walk, ancestors: seq<Tid>) {
    forall t :: t in w.types ==> t !in ancestors
  }

  function Stay(root: Tid): Walk {
    Walk([root], [])
  }

  function Cons(root: Tid, k: nat, w: Walk): Walk {
    Walk([root] + w.types, [k] + w.edges)
  }

  lemma ConsInjective(root: Tid, k: nat, v: Walk, m: nat, w: Walk)
    requires Cons(root, k, v) == Cons(root, m, w)
    ensures k == m && v == w
  {
    assert ([root] + v.types)[1..] == v.types && ([root] + w.types)[1..] == w.types;
    assert ([k] + v.edges)[1..] == v.edges && ([m] + w.edges)[1..] == w.edges;
    assert ([k] + v.edges)[0] == k && ([m] + w.edges)[0] == m;
  }

  lemma ConsIsWalk(g: Graph, root: Tid, k: nat, w: Walk)
    requires k < |Edges(g, root)| && IsWalk(g, Edges(g, root)[k].target, w)
    ensures IsWalk(g, root, Cons(root, k, w))
  {
    var v := Cons(root, k, w);
    forall i: nat | i < |v.edges| ensures TakesEdge(g, v, i) {
      if i > 0 {
        assert TakesEdge(g, w, i - 1);
      }
    }
  }

  lemma ConsSegments(g: Graph, root: Tid, k: nat, w: Walk)
    requires k < |Edges(g, root)| && IsWalk(g, Edges(g, root)[k].target, w)
    requires IsWalk(g, root, Cons(root, k, w))
    ensures Segments(g, root, Cons(root, k, w)) ==
            [Edges(g, root)[k].segment] + Segments(g, Edges(g, root)[k].target, w)
  {
    var v := Cons(root, k, w);
    forall i: nat | 0 < i < |v.edges|
      ensures Segments(g, root, v)[i] == Segments(g, Edges(g, root)[k].target, w)[i - 1]
    {
      assert v.types[i] == w.types[i - 1] && v.edges[i] == w.edges[i - 1];
    }
  }

  /** A walk with at least one step splits into its first edge and a walk from there. */
  lemma Uncons(g: Graph, root: Tid, w: Walk) returns (k: nat, rest: Walk)
    requires IsWalk(g, root, w) && w.edges != []
    ensures w == Cons(root, k, rest) && k < |Edges(g, root)|
    ensures IsWalk(g, Edges(g, root)[k].target, rest)
  {
    k, rest := w.edges[0], Walk(w.types[1..], w.edges[1..]);
    assert TakesEdge(g, w, 0);
    assert Edges(g, root)[k].target == rest.types[0];
    forall i: nat | i < |rest.edges| ensures TakesEdge(g, rest, i) {
      assert TakesEdge(g, w, i + 1);
    }
  }

  lemma FreshCons(root: Tid, k: nat, w: Walk, ancestors: seq<Tid>)
    ensures Distinct(Cons(root, k, w).types) && Avoids(Cons(root, k, w), ancestors) <==>
            root !in ancestors && Distinct(w.types) && Avoids(w, ancestors + [root])
  {
    DistinctHead(root, w.types);
    var types := Cons(root, k, w).types;
    assert root in types && forall t :: t in types <==> t == root || t in w.types;
    if root !in w.types && Avoids(Cons(root, k, w), ancestors) {
      forall t | t in w.types ensures t !in ancestors + [root] {
        assert t in types;
      }
    }
    if root !in ancestors && Avoids(w, ancestors + [root]) {
      assert root in ancestors + [root];
      forall t | t in types ensures t !in ancestors {
        assert t in w.types ==> t !in ancestors + [root];
      }
    }
  }

  lemma DistinctHead<T>(x: T, s: seq<T>)
    ensures Distinct([x] + s) <==> x !in s && Distinct(s)
  {
    var xs := [x] + s;
    if Distinct(xs) {
      forall i, j | 0 <= i < j < |s| ensures s[i] != s[j] {
        assert xs[i + 1] != xs[j + 1];
      }
      forall i | 0 <= i < |s| ensures s[i] != x {
        assert xs[0] != xs[i + 1];
      }
    }
    if x !in s && Distinct(s) {
      forall i, j | 0 <= i < j < |xs| ensures xs[i] != xs[j] {
        assert xs[j] == s[j - 1];
        assert i > 0 ==> xs[i] == s[i - 1];
      }
    }
  }

  // ----- the walks in the order in which they are recorded

  ghost function ConsAll(root: Tid, k: nat, ws: seq<Walk>): seq<Walk> {
    seq(|ws|, i requires 0 <= i < |ws| => Cons(root, k, ws[i]))
  }

  ghost function WalksFrom(g: Graph, tid: Tid, ancestors: seq<Tid>): seq<Walk>
    requires Closed(g) && tid in g.reg.types
    decreases Remaining(g, ancestors), 1, 0
  {
    if tid in ancestors then []
    else [Stay(tid)] + WalksOver(g, tid, |Edges(g, tid)|, ancestors)
  }

  /** The walks that take one of the first `n` edges. */
  ghost function WalksOver(g: Graph, tid: Tid, n: nat, ancestors: seq<Tid>): seq<Walk>
    requires Closed(g) && tid in g.reg.types && tid !in ancestors && n <= |Edges(g, tid)|
    decreases Remaining(g, ancestors), 0, n
  {
    if n == 0 then []
    else
      EdgeTargets(g, tid);
      Pushed(g, tid, ancestors);
      WalksOver(g, tid, n - 1, ancestors) +
      ConsAll(tid, n - 1, WalksFrom(g, Edges(g, tid)[n - 1].target, ancestors + [tid]))
  }

  ghost predicate Fresh(g: Graph, tid: Tid, ancestors: seq<Tid>, w: Walk) {
    SimpleWalk(g, tid, w) && Avoids(w, ancestors)
  }

  /** Sound and complete: the recorded walks are the simple ones. */
  lemma {:induction false} RecordedIffSimple(g: Graph, tid: Tid, ancestors: seq<Tid>, w: Walk)
    requires Closed(g) && tid in g.reg.types
    ensures w in WalksFrom(g, tid, ancestors) <==> Fresh(g, tid, ancestors, w)
    decreases Remaining(g, ancestors), 1, 0
  {
    if tid in ancestors {
      if |w.types| > 0 {
        assert w.types[0] in w.types;
      }
    } else {
      var over := WalksOver(g, tid, |Edges(g, tid)|, ancestors);
      RecordedOver(g, tid, |Edges(g, tid)|, ancestors, w);
      assert w in WalksFrom(g, tid, ancestors) <==> w == Stay(tid) || w in over;
      if Fresh(g, tid, ancestors, w) {
        if w.edges == [] {
          assert w == Stay(tid);
        } else {
          assert TakesEdge(g, w, 0);
        }
      }
    }
  }

  /** The walks that start with one of the first `n` edges. */
  ghost predicate FreshOver(g: Graph, tid: Tid, n: nat, ancestors: seq<Tid>, w: Walk) {
    w.edges != [] && w.edges[0] < n && Fresh(g, tid, ancestors, w)
  }

  lemma {:induction false} RecordedOver(g: Graph, tid: Tid, n: nat, ancestors: seq<Tid>, w: Walk)
    requires Closed(g) && tid in g.reg.types && tid !in ancestors && n <= |Edges(g, tid)|
    ensures w in WalksOver(g, tid, n, ancestors) <==> FreshOver(g, tid, n, ancestors, w)
    decreases Remaining(g, ancestors), 0, n
  {
    if n > 0 {
      EdgeTargets(g, tid);
      Pushed(g, tid, ancestors);
      RecordedOver(g, tid, n - 1, ancestors, w);
      RecordedWith(g, tid, n - 1, ancestors, w);
    }
  }

  /** The walks that start with edge `k`. */
  lemma {:induction false} RecordedWith(g: Graph, tid: Tid, k: nat, ancestors: seq<Tid>, w: Walk)
    requires Closed(g) && tid in g.reg.types && tid !in ancestors && k < |Edges(g, tid)|
    requires Edges(g, tid)[k].target in g.reg.types
    requires Remaining(g, ancestors + [tid]) < Remaining(g, ancestors)
    ensures w in ConsAll(tid, k, WalksFrom(g, Edges(g, tid)[k].target, ancestors + [tid])) <==>
            w.edges != [] && w.edges[0] == k && Fresh(g, tid, ancestors, w)
    decreases Remaining(g, ancestors), 0, 0
  {
    var next := Edges(g, tid)[k].target;
    var ws := WalksFrom(g, next, ancestors + [tid]);
    if w in ConsAll(tid, k, ws) {
      var i :| 0 <= i < |ws| && w == Cons(tid, k, ws[i]);
      RecordedIffSimple(g, next, ancestors + [tid], ws[i]);
      ConsIsWalk(g, tid, k, ws[i]);
      FreshCons(tid, k, ws[i], ancestors);
    }
    if Fresh(g, tid, ancestors, w) && w.edges != [] && w.edges[0] == k {
      var m, rest := Uncons(g, tid, w);
      FreshCons(tid, m, rest, ancestors);
      RecordedIffSimple(g, next, ancestors + [tid], rest);
      var i :| 0 <= i < |ws| && ws[i] == rest;
      assert ConsAll(tid, k, ws)[i] == w;
    }
  }

  /** Exactly once: no walk is recorded twice. */
  lemma {:induction false} RecordedOnce(g: Graph, tid: Tid, ancestors: seq<Tid>)
    requires Closed(g) && tid in g.reg.types
    ensures Distinct(WalksFrom(g, tid, ancestors))
    decreases Remaining(g, ancestors), 1, 0
  {
    if tid !in ancestors {
      var over := WalksOver(g, tid, |Edges(g, tid)|, ancestors);
      RecordedOnceOver(g, tid, |Edges(g, tid)|, ancestors);
      RecordedOver(g, tid, |Edges(g, tid)|, ancestors, Stay(tid));
      DistinctAppend([Stay(tid)], over);
    }
  }

  lemma {:induction false} RecordedOnceOver(g: Graph, tid: Tid, n: nat, ancestors: seq<Tid>)
    requires Closed(g) && tid in g.reg.types && tid !in ancestors && n <= |Edges(g, tid)|
    ensures Distinct(WalksOver(g, tid, n, ancestors))
    decreases Remaining(g, ancestors), 0, n
  {
    if n > 0 {
      EdgeTargets(g, tid);
      Pushed(g, tid, ancestors);
      RecordedOnceOver(g, tid, n - 1, ancestors);
      var ws := WalksFrom(g, Edges(g, tid)[n - 1].target, ancestors + [tid]);
      RecordedOnce(g, Edges(g, tid)[n - 1].target, ancestors + [tid]);
      DistinctCons(tid, n - 1, ws);
      var left, right := WalksOver(g, tid, n - 1, ancestors), ConsAll(tid, n - 1, ws);
      forall w | w in left ensures w !in right {
        RecordedOver(g, tid, n - 1, ancestors, w);
      }
      DistinctAppend(left, right);
    }
  }

  lemma DistinctCons(root: Tid, k: nat, ws: seq<Walk>)
    requires Distinct(ws)
    ensures Distinct(ConsAll(root, k, ws))
  {
    forall i, j | 0 <= i < j < |ws| ensures ConsAll(root, k, ws)[i] != ConsAll(root, k, ws)[j] {
      if Cons(root, k, ws[i]) == Cons(root, k, ws[j]) {
        ConsInjective(root, k, ws[i], k, ws[j]);
      }
    }
  }

  // ----- depth first

  /** The order of a depth first walk: a walk comes before those that go on from it, and those
      that take an earlier edge come first. */
  predicate Earlier(a: seq<nat>, b: seq<nat>) {
    b != [] && (a == [] || a[0] < b[0] || (a[0] == b[0] && Earlier(a[1..], b[1..])))
  }

  ghost predicate DepthFirst(ws: seq<Walk>) {
    forall i, j :: 0 <= i < j < |ws| ==> Earlier(ws[i].edges, ws[j].edges)
  }

  ghost predicate StartWith(ws: seq<Walk>, n: nat) {
    forall w :: w in ws ==> w.edges != [] && w.edges[0] < n
  }

  lemma DepthFirstAppend(left: seq<Walk>, tid: Tid, n: nat, ws: seq<Walk>)
    requires DepthFirst(left) && StartWith(left, n) && DepthFirst(ws)
    ensures DepthFirst(left + ConsAll(tid, n, ws)) && StartWith(left + ConsAll(tid, n, ws), n + 1)
  {
    var right := ConsAll(tid, n, ws);
    forall i | 0 <= i < |ws| ensures right[i].edges[0] == n && right[i].edges[1..] == ws[i].edges {
    }
    forall i, j | 0 <= i < j < |left + right| ensures Earlier((left + right)[i].edges, (left + right)[j].edges) {
      if i < |left| <= j {
        assert left[i] in left;
      }
    }
  }

  lemma {:induction false} RecordedDepthFirst(g: Graph, tid: Tid, ancestors: seq<Tid>)
    requires Closed(g) && tid in g.reg.types
    ensures DepthFirst(WalksFrom(g, tid, ancestors))
    decreases Remaining(g, ancestors), 1, 0
  {
    if tid !in ancestors {
      var over := WalksOver(g, tid, |Edges(g, tid)|, ancestors);
      OverDepthFirst(g, tid, |Edges(g, tid)|, ancestors);
      forall j | 0 <= j < |over| ensures Earlier([], over[j].edges) {
        assert over[j] in over;
      }
    }
  }

  lemma {:induction false} OverDepthFirst(g: Graph, tid: Tid, n: nat, ancestors: seq<Tid>)
    requires Closed(g) && tid in g.reg.types && tid !in ancestors && n <= |Edges(g, tid)|
    ensures DepthFirst(WalksOver(g, tid, n, ancestors)) && StartWith(WalksOver(g, tid, n, ancestors), n)
    decreases Remaining(g, ancestors), 0, n
  {
    if n > 0 {
      EdgeTargets(g, tid);
      Pushed(g, tid, ancestors);
      OverDepthFirst(g, tid, n - 1, ancestors);
      var next := Edges(g, tid)[n - 1].target;
      RecordedDepthFirst(g, next, ancestors + [tid]);
      DepthFirstAppend(WalksOver(g, tid, n - 1, ancestors), tid, n - 1, WalksFrom(g, next, ancestors + [tid]));
    }
  }

  // ----- the entries

  /** Entry by entry, the output is what the walks say, below the current path. */
  ghost predicate Describes(g: Graph, tid: Tid, path: seq<string>, ws: seq<Walk>, entries: seq<Entry>) {
    && |entries| == |ws|
    && forall i :: 0 <= i < |ws| ==>
         IsWalk(g, tid, ws[i]) &&
         entries[i] == (ws[i].types[|ws[i].edges|], PathString(path + Segments(g, tid, ws[i])))
  }

  lemma {:induction false} EntriesFrom(g: Graph, tid: Tid, ancestors: seq<Tid>, path: seq<string>)
    requires Closed(g) && tid in g.reg.types
    ensures Describes(g, tid, path, WalksFrom(g, tid, ancestors), Gather(g, tid, ancestors, path))
    decreases Remaining(g, ancestors), 1, 0
  {
    if tid !in ancestors {
      EdgeTargets(g, tid);
      var n := |Edges(g, tid)|;
      EntriesOver(g, tid, n, ancestors, path);
      assert Edges(g, tid)[..n] == Edges(g, tid);
      assert path + Segments(g, tid, Stay(tid)) == path;
      assert Describes(g, tid, path, [Stay(tid)], [(tid, PathString(path))]);
      DescribesBoth(g, tid, path, [Stay(tid)], [(tid, PathString(path))],
                    WalksOver(g, tid, n, ancestors), GatherEdges(g, tid, Edges(g, tid), ancestors, path));
    }
  }

  lemma {:induction false} EntriesOver(g: Graph, tid: Tid, n: nat, ancestors: seq<Tid>, path: seq<string>)
    requires Closed(g) && tid in g.reg.types && tid !in ancestors && n <= |Edges(g, tid)|
    requires TargetsIn(Edges(g, tid)[..n], g.reg.types)
    ensures Describes(g, tid, path, WalksOver(g, tid, n, ancestors),
                      GatherEdges(g, tid, Edges(g, tid)[..n], ancestors, path))
    decreases Remaining(g, ancestors), 0, n
  {
    if n > 0 {
      EdgeTargets(g, tid);
      Pushed(g, tid, ancestors);
      var es, e := Edges(g, tid)[..n - 1], Edges(g, tid)[n - 1];
      EntriesOver(g, tid, n - 1, ancestors, path);
      EntriesFrom(g, e.target, ancestors + [tid], path + [e.segment]);
      var ws := WalksFrom(g, e.target, ancestors + [tid]);
      LiftEntries(g, tid, n - 1, path, ws, Gather(g, e.target, ancestors + [tid], path + [e.segment]));
      assert Edges(g, tid)[..n] == es + [e];
      OneMoreEdge(g, tid, es, e, ancestors, path);
      DescribesBoth(g, tid, path, WalksOver(g, tid, n - 1, ancestors),
                    GatherEdges(g, tid, es, ancestors, path), ConsAll(tid, n - 1, ws),
                    Gather(g, e.target, ancestors + [tid], path + [e.segment]));
    }
  }

  lemma DescribesBoth(g: Graph, tid: Tid, path: seq<string>, ws1: seq<Walk>, entries1: seq<Entry>,
                      ws2: seq<Walk>, entries2: seq<Entry>)
    requires Describes(g, tid, path, ws1, entries1) && Describes(g, tid, path, ws2, entries2)
    ensures Describes(g, tid, path, ws1 + ws2, entries1 + entries2)
  {
  }

  lemma LiftEntry(g: Graph, tid: Tid, k: nat, path: seq<string>, w: Walk)
    requires k < |Edges(g, tid)| && IsWalk(g, Edges(g, tid)[k].target, w)
    ensures IsWalk(g, tid, Cons(tid, k, w))
    ensures path + Segments(g, tid, Cons(tid, k, w)) ==
            path + [Edges(g, tid)[k].segment] + Segments(g, Edges(g, tid)[k].target, w)
  {
    ConsIsWalk(g, tid, k, w);
    ConsSegments(g, tid, k, w);
  }

  lemma LiftEntries(g: Graph, tid: Tid, k: nat, path: seq<string>, ws: seq<Walk>, entries: seq<Entry>)
    requires k < |Edges(g, tid)|
    requires Describes(g, Edges(g, tid)[k].target, path + [Edges(g, tid)[k].segment], ws, entries)
    ensures Describes(g, tid, path, ConsAll(tid, k, ws), entries)
  {
    forall i | 0 <= i < |ws|
      ensures IsWalk(g, tid, Cons(tid, k, ws[i]))
      ensures PathString(path + Segments(g, tid, Cons(tid, k, ws[i]))) == entries[i].1
    {
      LiftEntry(g, tid, k, path, ws[i]);
    }
  }

  /** Gathering from a root appends exactly one entry for each simple walk from it, and
      nothing else: there is a list of walks without repetition, depth first, holding all the
      simple walks and only those, whose entries are the output in order. */
  lemma GatherIsExact(g: Graph, root: Tid) returns (ws: seq<Walk>)
    requires Closed(g) && root in g.reg.types
    ensures Distinct(ws) && DepthFirst(ws)
    ensures forall w: Walk :: w in ws <==> SimpleWalk(g, root, w)
    ensures |Gather(g, root, [], [])| == |ws|
    ensures forall i :: 0 <= i < |ws| ==>
              IsWalk(g, root, ws[i]) && Gather(g, root, [], [])[i] == EntryOf(g, root, ws[i])
  {
    ws := WalksFrom(g, root, []);
    RecordedOnce(g, root, []);
    RecordedDepthFirst(g, root, []);
    forall w: Walk ensures w in ws <==> SimpleWalk(g, root, w) {
      RecordedIffSimple(g, root, [], w);
    }
    EntriesFrom(g, root, [], []);
    forall i | 0 <= i < |ws| ensures Gather(g, root, [], [])[i] == EntryOf(g, root, ws[i]) {
      assert [] + Segments(g, root, ws[i]) == Segments(g, root, ws[i]);
    }
  }

  // ----- all the roots

  lemma {:induction false} PathsToMember(output: seq<Entry>, tid: Tid, path: string)
    ensures path in PathsTo(output, tid) <==> (tid, path) in output
  {
    if output != [] {
      PathsToMember(output[..|output| - 1], tid, path);
      assert output == output[..|output| - 1] + [output[|output| - 1]];
    }
  }

  lemma {:induction false} GatherRootsMember(g: Graph, roots: seq<Tid>, e: Entry)
    requires Closed(g) && forall r :: r in roots ==> r in g.reg.types
    ensures e in GatherRoots(g, roots) <==> exists r :: r in roots && e in Gather(g, r, [], [])
  {
    if roots != [] {
      var rest, last := roots[..|roots| - 1], roots[|roots| - 1];
      GatherRootsMember(g, rest, e);
      assert roots == rest + [last];
      assert last in roots;
    }
  }

  ghost predicate Spells(g: Graph, root: Tid, w: Walk, tid: Tid, path: string) {
    SimpleWalk(g, root, w) && EntryOf(g, root, w) == (tid, path)
  }

  /** After gathering from any list of roots, a path is listed for a type if and only if
      some simple walk from some root ends at the type and spells the path. */
  lemma GetMeans(g: Graph, roots: seq<Tid>, tid: Tid, path: string)
    requires Closed(g) && forall r :: r in roots ==> r in g.reg.types
    ensures path in PathsTo(GatherRoots(g, roots), tid) <==>
            exists r, w :: r in roots && Spells(g, r, w, tid, path)
  {
    PathsToMember(GatherRoots(g, roots), tid, path);
    GatherRootsMember(g, roots, (tid, path));
    if r :| r in roots && (tid, path) in Gather(g, r, [], []) {
      var ws := GatherIsExact(g, r);
      var i :| 0 <= i < |ws| && Gather(g, r, [], [])[i] == (tid, path);
      assert ws[i] in ws;
      assert Spells(g, r, ws[i], tid, path);
    }
    if r, w :| r in roots && Spells(g, r, w, tid, path) {
      var ws := GatherIsExact(g, r);
      assert w in ws;
      var i :| 0 <= i < |ws| && ws[i] == w;
      assert Gather(g, r, [], [])[i] == (tid, path);
    }
  }

  /** The list of paths of a type keeps the order in which they were recorded. */
  lemma {:induction false} PathsToConcat(a: seq<Entry>, b: seq<Entry>, tid: Tid)
    ensures PathsTo(a + b, tid) == PathsTo(a, tid) + PathsTo(b, tid)
  {
    if b == [] {
      assert a + b == a;
    } else {
      assert (a + b)[..|a + b| - 1] == a + b[..|b| - 1];
      PathsToConcat(a, b[..|b| - 1], tid);
    }
  }

  // ----- configuration paths, read off the type system

  /** A path of types without repetition, and the segments between them. */
  ghost predicate IsPath(g: Graph, root: Tid, types: seq<Tid>, segments: seq<string>) {
    && |types| == |segments| + 1 && types[0] == root && Distinct(types)
    && forall i :: 0 <= i < |segments| ==> Leads(g, types[i], Edge(segments[i], types[i + 1]))
  }

  lemma WalkIsPath(g: Graph, root: Tid, w: Walk)
    requires SimpleWalk(g, root, w)
    ensures IsPath(g, root, w.types, Segments(g, root, w))
  {
    forall i: nat | i < |w.edges| ensures Leads(g, w.types[i], Edge(Segment(g, w, i), w.types[i + 1])) {
      assert TakesEdge(g, w, i);
      EdgeIff(g, w.types[i], Edges(g, w.types[i])[w.edges[i]]);
    }
  }

  lemma EdgeAt(g: Graph, tid: Tid, e: Edge) returns (k: nat)
    requires Leads(g, tid, e)
    ensures k < |Edges(g, tid)| && Edges(g, tid)[k] == e
  {
    EdgeIff(g, tid, e);
    k :| k < |Edges(g, tid)| && Edges(g, tid)[k] == e;
  }

  /** The position of a step among the edges of each type on the path. */
  lemma {:induction false} PathEdges(g: Graph, types: seq<Tid>, segments: seq<string>) returns (ks: seq<nat>)
    requires |types| == |segments| + 1
    requires forall i :: 0 <= i < |segments| ==> Leads(g, types[i], Edge(segments[i], types[i + 1]))
    ensures |ks| == |segments|
    ensures forall i :: 0 <= i < |ks| ==>
              ks[i] < |Edges(g, types[i])| && Edges(g, types[i])[ks[i]] == Edge(segments[i], types[i + 1])
  {
    ks := [];
    if segments != [] {
      var n := |segments| - 1;
      ks := PathEdges(g, types[..n + 1], segments[..n]);
      var k := EdgeAt(g, types[n], Edge(segments[n], types[n + 1]));
      ks := ks + [k];
    }
  }

  lemma PathIsWalk(g: Graph, root: Tid, types: seq<Tid>, segments: seq<string>) returns (w: Walk)
    requires IsPath(g, root, types, segments)
    ensures SimpleWalk(g, root, w) && w.types == types && Segments(g, root, w) == segments
  {
    var ks := PathEdges(g, types, segments);
    w := Walk(types, ks);
    forall i: nat | i < |ks| ensures TakesEdge(g, w, i) && Segment(g, w, i) == segments[i] {
      assert Edges(g, types[i])[ks[i]] == Edge(segments[i], types[i + 1]);
    }
  }

  ghost predicate PathTo(g: Graph, root: Tid, types: seq<Tid>, segments: seq<string>, tid: Tid, path: string) {
    IsPath(g, root, types, segments) && types[|segments|] == tid && PathString(segments) == path
  }

  /** After gathering from any list of roots, a path is listed for a type if and only if it is
      spelled by the attributes, children and aggregations along some types without repetition,
      from one of the roots to that type. */
  lemma ListedIffPath(g: Graph, roots: seq<Tid>, tid: Tid, path: string)
    requires Closed(g) && forall r :: r in roots ==> r in g.reg.types
    ensures path in PathsTo(GatherRoots(g, roots), tid) <==>
            exists r, types, segments :: r in roots && PathTo(g, r, types, segments, tid, path)
  {
    GetMeans(g, roots, tid, path);
    if r, w :| r in roots && Spells(g, r, w, tid, path) {
      WalkIsPath(g, r, w);
      assert PathTo(g, r, w.types, Segments(g, r, w), tid, path);
    }
    if r, types, segments :| r in roots && PathTo(g, r, types, segments, tid, path) {
      var w := PathIsWalk(g, r, types, segments);
      assert Spells(g, r, w, tid, path);
    }
  }

  /** A path is its segments, each after a slash, from the first to the last. */
  lemma {:induction false} PathFromFront(segment: string, rest: seq<string>)
    ensures PathString([segment] + rest) == "/" + segment + PathString(rest)
  {
    var all := [segment] + rest;
    if rest == [] {
      assert all[..0] == [];
    } else {
      assert all[..|all| - 1] == [segment] + rest[..|rest| - 1];
      PathFromFront(segment, rest[..|rest| - 1]);
    }
  }
}
