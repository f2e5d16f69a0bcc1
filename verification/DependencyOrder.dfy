/** The loading order of the libraries: rounds that load every pending module whose
    dependencies are already loaded. */
module DependencyOrder {
  import opened Sequences

  /** The file name of a library. */
  datatype Name = Name(text: string)

  /** For each library, the libraries it links. A linked library need not be a key. */
  type Deps = map<Name, seq<Name>>

  function Links(deps: Deps, m: Name): seq<Name> {
    if m in deps then deps[m] else []
  }

  predicate CanLoad(deps: Deps, m: Name, current: seq<Name>) {
    forall d :: d in Links(deps, m) ==> d in current
  }

  /** The pending modules that can be loaded, and those that cannot, in order. */
  function Loadable(deps: Deps, pending: seq<Name>, current: seq<Name>): seq<Name> {
    if pending == [] then []
    else
      var last := pending[|pending| - 1];
      Loadable(deps, pending[..|pending| - 1], current) + if CanLoad(deps, last, current) then [last] else []
  }

  function Blocked(deps: Deps, pending: seq<Name>, current: seq<Name>): (ms: seq<Name>)
    ensures |ms| + |Loadable(deps, pending, current)| == |pending|
  {
    if pending == [] then []
    else
      var last := pending[|pending| - 1];
      Blocked(deps, pending[..|pending| - 1], current) + if CanLoad(deps, last, current) then [] else [last]
  }

  /** The rounds, up to the first that loads nothing. */
  function Rounds(deps: Deps, pending: seq<Name>, current: seq<Name>): seq<seq<Name>>
    decreases |pending|
  {
    var ms := Loadable(deps, pending, current);
    if ms == [] then [] else [ms] + Rounds(deps, Blocked(deps, pending, current), current + ms)
  }

  /** What is still pending then. */
  function Stuck(deps: Deps, pending: seq<Name>, current: seq<Name>): seq<Name>
    decreases |pending|
  {
    var ms := Loadable(deps, pending, current);
    if ms == [] then pending else Stuck(deps, Blocked(deps, pending, current), current + ms)
  }

  lemma {:induction false} Members(deps: Deps, pending: seq<Name>, current: seq<Name>, m: Name)
    ensures m in Loadable(deps, pending, current) <==> m in pending && CanLoad(deps, m, current)
    ensures m in Blocked(deps, pending, current) <==> m in pending && !CanLoad(deps, m, current)
  {
    if pending != [] {
      Members(deps, pending[..|pending| - 1], current, m);
      assert pending == pending[..|pending| - 1] + [pending[|pending| - 1]];
    }
  }

  lemma AllMembers(deps: Deps, pending: seq<Name>, current: seq<Name>)
    ensures forall m :: m in Loadable(deps, pending, current) <==> m in pending && CanLoad(deps, m, current)
    ensures forall m :: m in Blocked(deps, pending, current) <==> m in pending && !CanLoad(deps, m, current)
  {
    forall m
      ensures m in Loadable(deps, pending, current) <==> m in pending && CanLoad(deps, m, current)
      ensures m in Blocked(deps, pending, current) <==> m in pending && !CanLoad(deps, m, current)
    {
      Members(deps, pending, current, m);
    }
  }

  function Flatten(rounds: seq<seq<Name>>): seq<Name> {
    if rounds == [] then [] else rounds[0] + Flatten(rounds[1..])
  }

  // ----- the code

  method ModulesThatCanBeLoaded(deps: Deps, pending: seq<Name>, current: seq<Name>) returns (modules: seq<Name>)
    requires forall m :: m in pending ==> m in deps
    ensures modules == Loadable(deps, pending, current)
  {
    modules := [];
    for i := 0 to |pending|
      invariant modules == Loadable(deps, pending[..i], current)
    {
      var module_ := pending[i];
      var canBeLoaded := true;
      for j := 0 to |deps[module_]|
        invariant canBeLoaded && forall d :: d in deps[module_][..j] ==> d in current
      {
        if deps[module_][j] !in current {
          canBeLoaded := false;
          break;
        }
      }
      assert canBeLoaded ==> deps[module_][..|deps[module_]|] == deps[module_];
      assert pending[..i + 1][..i] == pending[..i];
      if canBeLoaded {
        modules := modules + [module_];
      }
    }
    assert pending[..|pending|] == pending;
  }

  function RemoveFirst(s: seq<Name>, x: Name): seq<Name> {
    if s == [] then [] else if s[0] == x then s[1..] else [s[0]] + RemoveFirst(s[1..], x)
  }

  /** `finished` is false when the recursion goes on for ever: a round loads nothing while
      modules are pending, so the next call has the same arguments. */
  method Order(deps: Deps, pendingModules: seq<Name>, currentModules: seq<Name>)
      returns (finished: bool, steps: seq<seq<Name>>)
    requires forall m :: m in pendingModules ==> m in deps
    requires Distinct(pendingModules)
    ensures steps == Rounds(deps, pendingModules, currentModules)
    ensures finished <==> Stuck(deps, pendingModules, currentModules) == []
    decreases |pendingModules|
  {
    AllMembers(deps, pendingModules, currentModules);
    if |pendingModules| == 0 {
      return true, [];
    }
    var modules := ModulesThatCanBeLoaded(deps, pendingModules, currentModules);
    if modules == [] {
      return false, [];
    }
    DistinctLoadable(deps, pendingModules, currentModules);
    BlockedIsRest(deps, pendingModules, currentModules, modules);
    var pending, current := LoadRound(pendingModules, currentModules, modules);
    finished, steps := Order(deps, pending, current);
    steps := [modules] + steps;
  }

  /** Moves the modules of a round, one by one, from the pending to the loaded ones. */
  method LoadRound(pendingModules: seq<Name>, currentModules: seq<Name>, modules: seq<Name>)
      returns (pending: seq<Name>, current: seq<Name>)
    requires Distinct(pendingModules) && Distinct(modules) && forall m :: m in modules ==> m in pendingModules
    ensures pending == Without(pendingModules, modules)
    ensures current == currentModules + modules
  {
    pending, current := pendingModules, currentModules;
    WithoutNone(pending);
    for i := 0 to |modules|
      invariant current == currentModules + modules[..i]
      invariant pending == Without(pendingModules, modules[..i])
    {
      var m := modules[i];
      NextModule(modules, i);
      RemoveOne(pendingModules, modules[..i], m);
      pending := RemoveFirst(pending, m);
      current := current + [m];
    }
    assert modules[..|modules|] == modules;
  }

  lemma NextModule(modules: seq<Name>, i: nat)
    requires Distinct(modules) && i < |modules|
    ensures modules[i] in modules && modules[i] !in modules[..i]
    ensures modules[..i] + [modules[i]] == modules[..i + 1]
  {
  }

  method SortToDependencies(deps: Deps, libraries: seq<Name>) returns (finished: bool, sorted: seq<Name>)
    requires forall m :: m in libraries <==> m in deps
    requires Distinct(libraries)
    ensures finished <==> Stuck(deps, libraries, []) == []
    ensures finished ==> sorted == Flatten(Rounds(deps, libraries, []))
  {
    var steps: seq<seq<Name>>;
    finished, steps := Order(deps, libraries, []);
    sorted := [];
    for k := 0 to |steps|
      invariant sorted + Flatten(steps[k..]) == Flatten(steps)
    {
      sorted := sorted + steps[k];
      assert steps[k..][1..] == steps[k + 1..];
    }
  }

  // ----- removing the loaded modules one by one

  /** `s` without the elements of `xs`. */
  function Without(s: seq<Name>, xs: seq<Name>): seq<Name> {
    if s == [] then []
    else if s[0] in xs then Without(s[1..], xs)
    else [s[0]] + Without(s[1..], xs)
  }

  lemma {:induction false} WithoutNone(s: seq<Name>)
    ensures Without(s, []) == s
  {
    if s != [] {
      WithoutNone(s[1..]);
    }
  }

  lemma {:induction false} RemoveOne(s: seq<Name>, xs: seq<Name>, x: Name)
    requires Distinct(s) && x in s && x !in xs
    ensures RemoveFirst(Without(s, xs), x) == Without(s, xs + [x])
  {
    if s[0] == x {
      assert x !in s[1..];
      WithoutSame(s[1..], xs, x);
      assert Without(s, xs)[1..] == Without(s[1..], xs);
    } else {
      RemoveOne(s[1..], xs, x);
      if s[0] !in xs {
        assert Without(s, xs)[1..] == Without(s[1..], xs);
      }
    }
  }

  lemma {:induction false} WithoutSame(s: seq<Name>, xs: seq<Name>, x: Name)
    requires x !in s
    ensures Without(s, xs + [x]) == Without(s, xs)
  {
    if s != [] {
      WithoutSame(s[1..], xs, x);
    }
  }

  lemma {:induction false} WithoutAppend(s: seq<Name>, x: Name, xs: seq<Name>)
    ensures Without(s + [x], xs) == Without(s, xs) + if x in xs then [] else [x]
  {
    if s != [] {
      WithoutAppend(s[1..], x, xs);
      assert (s + [x])[1..] == s[1..] + [x];
    }
  }

  lemma {:induction false} BlockedIsRest(deps: Deps, pending: seq<Name>, current: seq<Name>, ms: seq<Name>)
    requires forall m :: m in pending ==> (m in ms <==> CanLoad(deps, m, current))
    ensures Blocked(deps, pending, current) == Without(pending, ms)
  {
    if pending != [] {
      var n := |pending| - 1;
      assert pending == pending[..n] + [pending[n]];
      BlockedIsRest(deps, pending[..n], current, ms);
      WithoutAppend(pending[..n], pending[n], ms);
    }
  }

  lemma DistinctSnoc(s: seq<Name>, x: Name)
    requires Distinct(s) && x !in s
    ensures Distinct(s + [x])
  {
  }

  lemma {:induction false} DistinctLoadable(deps: Deps, pending: seq<Name>, current: seq<Name>)
    requires Distinct(pending)
    ensures Distinct(Loadable(deps, pending, current))
    ensures Distinct(Blocked(deps, pending, current))
  {
    if pending != [] {
      var n := |pending| - 1;
      var init, last := pending[..n], pending[n];
      DistinctLoadable(deps, init, current);
      Members(deps, init, current, last);
      assert last !in init;
      DistinctSnoc(Loadable(deps, init, current), last);
      DistinctSnoc(Blocked(deps, init, current), last);
    }
  }

  /** The modules of a round keep the order in which they were pending. */
  lemma {:induction false} RoundInPendingOrder(deps: Deps, pending: seq<Name>, current: seq<Name>)
      returns (ps: seq<nat>)
    ensures |ps| == |Loadable(deps, pending, current)|
    ensures forall i, j :: 0 <= i < j < |ps| ==> ps[i] < ps[j]
    ensures forall i :: 0 <= i < |ps| ==>
              ps[i] < |pending| && pending[ps[i]] == Loadable(deps, pending, current)[i]
  {
    ps := [];
    if pending != [] {
      var n := |pending| - 1;
      ps := RoundInPendingOrder(deps, pending[..n], current);
      if CanLoad(deps, pending[n], current) {
        ps := ps + [n];
      }
    }
  }

  // ----- what the rounds mean

  /** A chain of dependencies: each module links the next. */
  ghost predicate Chain(deps: Deps, p: seq<Name>) {
    p != [] && forall i: nat :: i + 1 < |p| ==> p[i] in deps && p[i + 1] in deps[p[i]]
  }

  /** Every chain from `m` stays among the keys and never comes back: all transitive
      dependencies are present and there is no cycle. */
  ghost predicate WellFounded(deps: Deps, m: Name) {
    forall p: seq<Name> :: Chain(deps, p) && p[0] == m ==> AllKeys(deps, p) && Distinct(p)
  }

  ghost predicate AllKeys(deps: Deps, p: seq<Name>) {
    forall x :: x in p ==> x in deps
  }

  /** Every chain from `m` stays among the keys and has at most `k` modules, step by step. */
  ghost predicate Bounded(deps: Deps, m: Name, k: nat)
    decreases k
  {
    k > 0 && m in deps && forall d :: d in deps[m] ==> Bounded(deps, d, k - 1)
  }

  ghost predicate ChainsBounded(deps: Deps, m: Name, k: nat) {
    forall p: seq<Name> :: Chain(deps, p) && p[0] == m ==> AllKeys(deps, p) && |p| <= k
  }

  lemma {:induction false} BoundedChain(deps: Deps, m: Name, k: nat, p: seq<Name>)
    requires Bounded(deps, m, k) && Chain(deps, p) && p[0] == m
    ensures AllKeys(deps, p) && |p| <= k
    decreases k
  {
    if |p| > 1 {
      BoundedChain(deps, p[1], k - 1, p[1..]);
      assert p == [p[0]] + p[1..];
    }
  }

  lemma {:induction false} UnboundedChain(deps: Deps, m: Name, k: nat) returns (p: seq<Name>)
    requires !Bounded(deps, m, k)
    ensures Chain(deps, p) && p[0] == m && !(AllKeys(deps, p) && |p| <= k)
    decreases k
  {
    p := [m];
    if k == 0 || m !in deps {
      assert m in p;
    } else {
      var d :| d in deps[m] && !Bounded(deps, d, k - 1);
      var q := UnboundedChain(deps, d, k - 1);
      p := [m] + q;
      assert forall x :: x in q ==> x in p;
    }
  }

  lemma BoundedMeans(deps: Deps, m: Name, k: nat)
    ensures Bounded(deps, m, k) <==> ChainsBounded(deps, m, k)
  {
    if Bounded(deps, m, k) {
      forall p: seq<Name> | Chain(deps, p) && p[0] == m ensures AllKeys(deps, p) && |p| <= k {
        BoundedChain(deps, m, k, p);
      }
    } else {
      var p := UnboundedChain(deps, m, k);
    }
  }

  lemma {:induction false} BoundedGrows(deps: Deps, m: Name, k: nat, n: nat)
    requires Bounded(deps, m, k) && k <= n
    ensures Bounded(deps, m, n)
    decreases k
  {
    forall d | d in deps[m] ensures Bounded(deps, d, n - 1) {
      BoundedGrows(deps, d, k - 1, n - 1);
    }
  }

  /** The state after `k` rounds: what is loaded is what has chains of at most `k` modules. */
  ghost predicate AfterRounds(deps: Deps, pending: seq<Name>, current: seq<Name>, k: nat) {
    && Elements(current) == Low(deps, k)
    && Elements(pending) == deps.Keys - Low(deps, k)
  }

  ghost function Elements(s: seq<Name>): set<Name> {
    set m | m in s
  }

  ghost function Low(deps: Deps, k: nat): set<Name> {
    set m | m in deps && Bounded(deps, m, k)
  }

  lemma StateMeans(deps: Deps, pending: seq<Name>, current: seq<Name>, k: nat, m: Name)
    requires AfterRounds(deps, pending, current, k)
    ensures m in current <==> Bounded(deps, m, k)
    ensures m in pending <==> m in deps && !Bounded(deps, m, k)
  {
    assert m in current <==> m in Elements(current);
    assert m in pending <==> m in Elements(pending);
  }

  lemma CanLoadIffBounded(deps: Deps, pending: seq<Name>, current: seq<Name>, k: nat, m: Name)
    requires m in deps && AfterRounds(deps, pending, current, k)
    ensures CanLoad(deps, m, current) <==> Bounded(deps, m, k + 1)
  {
    forall d | d in deps[m] ensures d in current <==> Bounded(deps, d, k) {
      StateMeans(deps, pending, current, k, d);
    }
  }

  /** One round loads exactly the modules whose chains have just become short enough. */
  lemma OneRound(deps: Deps, pending: seq<Name>, current: seq<Name>, k: nat, m: Name)
    requires AfterRounds(deps, pending, current, k)
    ensures m in Loadable(deps, pending, current) <==> Bounded(deps, m, k + 1) && !Bounded(deps, m, k)
    ensures m in current + Loadable(deps, pending, current) <==> Bounded(deps, m, k + 1)
    ensures m in Blocked(deps, pending, current) <==> m in deps && !Bounded(deps, m, k + 1)
  {
    Members(deps, pending, current, m);
    StateMeans(deps, pending, current, k, m);
    if Bounded(deps, m, k) {
      BoundedGrows(deps, m, k, k + 1);
    }
    if m in deps {
      CanLoadIffBounded(deps, pending, current, k, m);
    }
  }

  lemma RoundKeeps(deps: Deps, pending: seq<Name>, current: seq<Name>, k: nat)
    requires AfterRounds(deps, pending, current, k)
    ensures AfterRounds(deps, Blocked(deps, pending, current), current + Loadable(deps, pending, current), k + 1)
  {
    forall m
      ensures m in current + Loadable(deps, pending, current) <==> m in Low(deps, k + 1)
      ensures m in Blocked(deps, pending, current) <==> m in deps.Keys - Low(deps, k + 1)
    {
      OneRound(deps, pending, current, k, m);
    }
  }

  lemma FirstRound(deps: Deps, pending: seq<Name>, current: seq<Name>, k: nat, m: Name)
    requires AfterRounds(deps, pending, current, k) && |Rounds(deps, pending, current)| > 0
    ensures m in Rounds(deps, pending, current)[0] <==> Bounded(deps, m, k + 1) && !Bounded(deps, m, k)
  {
    OneRound(deps, pending, current, k, m);
  }

  lemma LaterRound(deps: Deps, pending: seq<Name>, current: seq<Name>, k: nat, j: nat)
      returns (p: seq<Name>, c: seq<Name>)
    requires AfterRounds(deps, pending, current, k) && 0 < j < |Rounds(deps, pending, current)|
    ensures AfterRounds(deps, p, c, k + 1) && j - 1 < |Rounds(deps, p, c)|
    ensures Rounds(deps, p, c)[j - 1] == Rounds(deps, pending, current)[j]
  {
    RoundKeeps(deps, pending, current, k);
    p, c := Blocked(deps, pending, current), current + Loadable(deps, pending, current);
  }

  /** Round `j` from the state after `h - j` rounds holds the modules whose longest chain has
      `h + 1` modules. */
  lemma {:induction false} RoundsAreHeights(deps: Deps, pending: seq<Name>, current: seq<Name>, h: nat, j: nat, m: Name)
    requires j <= h && AfterRounds(deps, pending, current, h - j) && j < |Rounds(deps, pending, current)|
    ensures m in Rounds(deps, pending, current)[j] <==> Bounded(deps, m, h + 1) && !Bounded(deps, m, h)
    decreases j
  {
    if j == 0 {
      FirstRound(deps, pending, current, h, m);
    } else {
      var p, c := LaterRound(deps, pending, current, h - j, j);
      RoundsAreHeights(deps, p, c, h, j - 1, m);
    }
  }

  /** What is loaded in the end. */
  function Loaded(deps: Deps, pending: seq<Name>, current: seq<Name>): seq<Name>
    decreases |pending|
  {
    var ms := Loadable(deps, pending, current);
    if ms == [] then current else Loaded(deps, Blocked(deps, pending, current), current + ms)
  }

  lemma {:induction false} LoadedIsFlatten(deps: Deps, pending: seq<Name>, current: seq<Name>)
    ensures Loaded(deps, pending, current) == current + Flatten(Rounds(deps, pending, current))
    decreases |pending|
  {
    var ms := Loadable(deps, pending, current);
    if ms == [] {
      assert current + [] == current;
    } else {
      LoadedIsFlatten(deps, Blocked(deps, pending, current), current + ms);
      var rounds := Rounds(deps, pending, current);
      assert rounds[1..] == Rounds(deps, Blocked(deps, pending, current), current + ms);
      Associative(current, ms, Flatten(rounds[1..]));
    }
  }

  /** The end state: nothing more can be loaded. */
  lemma {:induction false} EndState(deps: Deps, pending: seq<Name>, current: seq<Name>, k: nat) returns (n: nat)
    requires AfterRounds(deps, pending, current, k)
    ensures n == k + |Rounds(deps, pending, current)|
    ensures AfterRounds(deps, Stuck(deps, pending, current), Loaded(deps, pending, current), n)
    ensures Loadable(deps, Stuck(deps, pending, current), Loaded(deps, pending, current)) == []
    decreases |pending|
  {
    var ms := Loadable(deps, pending, current);
    if ms == [] {
      n := k;
    } else {
      RoundKeeps(deps, pending, current, k);
      n := EndState(deps, Blocked(deps, pending, current), current + ms, k + 1);
    }
  }

  /** Once a round loads nothing, no later round would. */
  lemma {:induction false} FixedPoint(deps: Deps, pending: seq<Name>, current: seq<Name>, k: nat, n: nat, m: Name)
    requires AfterRounds(deps, pending, current, k) && Loadable(deps, pending, current) == []
    requires Bounded(deps, m, n)
    ensures m in current
    decreases n
  {
    StateMeans(deps, pending, current, k, m);
    if n <= k {
      BoundedGrows(deps, m, n, k);
    } else {
      forall d | d in deps[m] ensures d in current {
        FixedPoint(deps, pending, current, k, n - 1, d);
      }
      Members(deps, pending, current, m);
    }
  }

  // ----- bounded chains and well-founded modules

  lemma {:induction false} Pigeonhole(p: seq<Name>, keys: set<Name>)
    requires Distinct(p) && forall x :: x in p ==> x in keys
    ensures |p| <= |keys|
  {
    if p != [] {
      var n := |p| - 1;
      assert p[n] !in p[..n];
      Pigeonhole(p[..n], keys - {p[n]});
    }
  }

  /** Along a chain the bound goes down with every step. */
  lemma {:induction false} BoundDescends(deps: Deps, p: seq<Name>, k: nat, n: nat)
    requires Chain(deps, p) && Bounded(deps, p[0], k) && n < |p|
    ensures n < k && Bounded(deps, p[n], k - n)
  {
    if n > 0 {
      BoundDescends(deps, p[1..], k - 1, n - 1);
    }
  }

  /** A module with bounded chains is not on a cycle. */
  lemma {:induction false} NoReturn(deps: Deps, p: seq<Name>, k: nat)
    requires Chain(deps, p) && |p| > 1 && Bounded(deps, p[0], k)
    ensures p[|p| - 1] != p[0]
    decreases k
  {
    BoundDescends(deps, p, k, |p| - 1);
    if p[|p| - 1] == p[0] {
      NoReturn(deps, p, k - (|p| - 1));
    }
  }

  lemma WellFoundedIffBounded(deps: Deps, m: Name)
    ensures WellFounded(deps, m) <==> exists k: nat :: Bounded(deps, m, k)
  {
    if WellFounded(deps, m) {
      forall p: seq<Name> | Chain(deps, p) && p[0] == m ensures |p| <= |deps.Keys| {
        Pigeonhole(p, deps.Keys);
      }
      BoundedMeans(deps, m, |deps.Keys|);
    }
    if k: nat :| Bounded(deps, m, k) {
      BoundedMeans(deps, m, k);
      forall p: seq<Name> | Chain(deps, p) && p[0] == m ensures Distinct(p) {
        forall i, j | 0 <= i < j < |p| ensures p[i] != p[j] {
          BoundDescends(deps, p, k, i);
          NoReturn(deps, p[i..j + 1], k - i);
        }
      }
    }
  }

  // ----- the main results

  lemma StartState(deps: Deps, libraries: seq<Name>)
    requires Distinct(libraries) && forall m :: m in libraries <==> m in deps
    ensures AfterRounds(deps, libraries, [], 0)
  {
  }

  /** For every dependency map, cyclic or with missing libraries: the modules that are ever
      loaded are exactly the well-founded ones, and the recursion finishes if and only if
      that is all of them. */
  lemma LoadedIffWellFounded(deps: Deps, libraries: seq<Name>)
    requires Distinct(libraries) && forall m :: m in libraries <==> m in deps
    ensures forall m :: m in Flatten(Rounds(deps, libraries, [])) <==> WellFounded(deps, m)
    ensures Stuck(deps, libraries, []) == [] <==> forall m :: m in deps ==> WellFounded(deps, m)
  {
    StartState(deps, libraries);
    var n := EndState(deps, libraries, [], 0);
    LoadedIsFlatten(deps, libraries, []);
    var stuck, end := Stuck(deps, libraries, []), Loaded(deps, libraries, []);
    EndIsWellFounded(deps, stuck, end, n);
    assert end == Flatten(Rounds(deps, libraries, []));
  }

  lemma EndIsWellFounded(deps: Deps, stuck: seq<Name>, end: seq<Name>, n: nat)
    requires AfterRounds(deps, stuck, end, n) && Loadable(deps, stuck, end) == []
    ensures forall m :: m in end <==> WellFounded(deps, m)
    ensures stuck == [] <==> forall m :: m in deps ==> WellFounded(deps, m)
  {
    forall m
      ensures m in end <==> WellFounded(deps, m)
      ensures m in stuck <==> m in deps && !WellFounded(deps, m)
    {
      LoadedAtTheEnd(deps, stuck, end, n, m);
    }
    if stuck != [] {
      assert stuck[0] in stuck;
    }
  }

  lemma LoadedAtTheEnd(deps: Deps, stuck: seq<Name>, end: seq<Name>, n: nat, m: Name)
    requires AfterRounds(deps, stuck, end, n) && Loadable(deps, stuck, end) == []
    ensures m in end <==> WellFounded(deps, m)
    ensures m in stuck <==> m in deps && !WellFounded(deps, m)
  {
    WellFoundedIffBounded(deps, m);
    StateMeans(deps, stuck, end, n, m);
    if k: nat :| Bounded(deps, m, k) {
      FixedPoint(deps, stuck, end, n, k, m);
    }
  }

  ghost predicate InRound(deps: Deps, libraries: seq<Name>, k: nat, m: Name) {
    k < |Rounds(deps, libraries, [])| && m in Rounds(deps, libraries, [])[k]
  }

  /** The longest chain of dependencies from `m` has `k` links: there is one that long, and
      none longer or that leaves the modules. */
  ghost predicate LongestChain(deps: Deps, m: Name, k: nat) {
    (exists p: seq<Name> :: Chain(deps, p) && p[0] == m && |p| == k + 1) && ChainsBounded(deps, m, k + 1)
  }

  lemma LongestIsHeight(deps: Deps, m: Name, k: nat)
    ensures LongestChain(deps, m, k) <==> Bounded(deps, m, k + 1) && !Bounded(deps, m, k)
  {
    BoundedMeans(deps, m, k + 1);
    BoundedMeans(deps, m, k);
    if ChainsBounded(deps, m, k + 1) && !ChainsBounded(deps, m, k) {
      var p: seq<Name> :| Chain(deps, p) && p[0] == m && !(AllKeys(deps, p) && |p| <= k);
      assert |p| == k + 1;
    }
  }

  /** No height is left after the last round. */
  lemma NoHigherRound(deps: Deps, libraries: seq<Name>, k: nat, m: Name)
    requires AfterRounds(deps, libraries, [], 0) && k >= |Rounds(deps, libraries, [])|
    requires Bounded(deps, m, k + 1)
    ensures Bounded(deps, m, k)
  {
    var n := EndState(deps, libraries, [], 0);
    var stuck, end := Stuck(deps, libraries, []), Loaded(deps, libraries, []);
    FixedPoint(deps, stuck, end, n, k + 1, m);
    StateMeans(deps, stuck, end, n, m);
    BoundedGrows(deps, m, n, k);
  }

  /** For every number `k`, a module is placed in round `k` if and only if its longest chain
      of dependencies has `k` links. */
  lemma RoundIsLongestChain(deps: Deps, libraries: seq<Name>, k: nat, m: Name)
    requires Distinct(libraries) && forall m :: m in libraries <==> m in deps
    ensures InRound(deps, libraries, k, m) <==> LongestChain(deps, m, k)
  {
    StartState(deps, libraries);
    LongestIsHeight(deps, m, k);
    if k < |Rounds(deps, libraries, [])| {
      RoundsAreHeights(deps, libraries, [], k, k, m);
    } else if Bounded(deps, m, k + 1) {
      NoHigherRound(deps, libraries, k, m);
    }
  }

  ghost predicate Before(sorted: seq<Name>, d: Name, j: nat) {
    exists i :: 0 <= i < j && i < |sorted| && sorted[i] == d
  }

  /** The order is a permutation of the modules, each dependency before its dependents. */
  lemma SortedOrder(deps: Deps, libraries: seq<Name>)
    requires Distinct(libraries) && forall m :: m in libraries <==> m in deps
    requires Stuck(deps, libraries, []) == []
    ensures (var sorted := Flatten(Rounds(deps, libraries, []));
             && Distinct(sorted)
             && (forall m :: m in sorted <==> m in libraries)
             && Ordered(deps, sorted, 0))
  {
    AllLoaded(deps, libraries);
    RoundsInOrder(deps, libraries, []);
    Associative([], [], Flatten(Rounds(deps, libraries, [])));
  }

  lemma AllLoaded(deps: Deps, libraries: seq<Name>)
    requires Distinct(libraries) && forall m :: m in libraries <==> m in deps
    requires Stuck(deps, libraries, []) == []
    ensures forall m :: m in Flatten(Rounds(deps, libraries, [])) <==> m in libraries
  {
    LoadedIffWellFounded(deps, libraries);
    forall m ensures WellFounded(deps, m) ==> m in deps {
      assert Chain(deps, [m]) && [m][0] == m && m in [m];
    }
  }

  /** From position `from` on, each dependency comes before its dependents. */
  ghost predicate Ordered(deps: Deps, sorted: seq<Name>, from: nat) {
    forall j, d :: from <= j < |sorted| && d in Links(deps, sorted[j]) ==> Before(sorted, d, j)
  }

  lemma {:induction false} RoundsInOrder(deps: Deps, pending: seq<Name>, current: seq<Name>)
    requires Distinct(pending) && Distinct(current)
    requires forall m :: m in pending ==> m !in current
    ensures Distinct(current + Flatten(Rounds(deps, pending, current)))
    ensures Ordered(deps, current + Flatten(Rounds(deps, pending, current)), |current|)
    decreases |pending|
  {
    if Loadable(deps, pending, current) == [] {
      assert current + [] == current;
    } else {
      var ms, rest, later := FirstOfRounds(deps, pending, current);
      RoundsInOrder(deps, rest, current + ms);
      Associative(current, ms, later);
      RoundInOrder(deps, current, ms, later);
    }
  }

  lemma FirstOfRounds(deps: Deps, pending: seq<Name>, current: seq<Name>)
      returns (ms: seq<Name>, rest: seq<Name>, later: seq<Name>)
    requires Distinct(pending) && Distinct(current)
    requires forall m :: m in pending ==> m !in current
    requires Loadable(deps, pending, current) != []
    ensures Distinct(rest) && Distinct(current + ms) && forall m :: m in rest ==> m !in current + ms
    ensures |rest| < |pending| && forall m :: m in ms ==> CanLoad(deps, m, current)
    ensures later == Flatten(Rounds(deps, rest, current + ms))
    ensures Flatten(Rounds(deps, pending, current)) == ms + later
  {
    ms, rest := Loadable(deps, pending, current), Blocked(deps, pending, current);
    later := Flatten(Rounds(deps, rest, current + ms));
    DistinctLoadable(deps, pending, current);
    AllMembers(deps, pending, current);
    DistinctAppend(current, ms);
    var rounds := Rounds(deps, pending, current);
    assert rounds[1..] == Rounds(deps, rest, current + ms);
  }

  lemma Associative(a: seq<Name>, b: seq<Name>, c: seq<Name>)
    ensures a + (b + c) == a + b + c && [] + c == c
  {
  }

  lemma RoundInOrder(deps: Deps, current: seq<Name>, ms: seq<Name>, later: seq<Name>)
    requires forall m :: m in ms ==> CanLoad(deps, m, current)
    requires Ordered(deps, current + ms + later, |current + ms|)
    ensures Ordered(deps, current + ms + later, |current|)
  {
    var sorted := current + ms + later;
    forall j, d | |current| <= j < |sorted| && d in Links(deps, sorted[j])
      ensures Before(sorted, d, j)
    {
      if j < |current + ms| {
        assert sorted[j] == ms[j - |current|] && sorted[j] in ms;
        assert d in current;
        var i :| 0 <= i < |current| && current[i] == d;
        assert sorted[i] == d;
      }
    }
  }
}
