/** The converse: whenever a configuration is not safe, there is a run in which the
    parameter server delivers a packet that some worker never sent. In these runs no packet
    overtakes an earlier one of the same worker. */
module AtpUnsafe {
  import opened AtpJobTree
  import opened AtpSwitch
  import opened AtpReceiver
  import opened AtpSystem
  import opened AtpSafety
  import opened AtpProgress
  import opened Wrappers

  /** Every worker except `skip` sends. */
  lemma {:induction false} SendBelow(cfg: Config, key: Key, skip: Worker, p: nat) returns (s: State)
    requires key.0 in cfg.jobs && key.1 >= 1 && p <= Total(cfg.jobs[key.0])
    ensures Leads(cfg, [], s) && s.slots == map[]
    ensures s.server == NewReceiver && s.kept == s.sent
    ensures forall c :: c in s.sent ==>
              c.0 == key && IsWorker(cfg.jobs[key.0], c.1) && c.1 != skip && Position(cfg.jobs[key.0], c.1) < p
    ensures forall w: Worker ::
              IsWorker(cfg.jobs[key.0], w) && w != skip && Position(cfg.jobs[key.0], w) < p ==>
              (key, w) in s.sent && Original(cfg, key, w) in s.first
  {
    var job := cfg.jobs[key.0];
    if p == 0 {
      s := Init;
      Here(cfg, []);
    } else {
      s := SendBelow(cfg, key, skip, p - 1);
      var next := WorkerAt(job.fanIns, |job.fanIns|, p - 1);
      forall w: Worker | IsWorker(job, w) && Position(job, w) == p - 1 ensures w == next {
        PositionInjective(job, w, next);
      }
      if next != skip {
        Step(cfg, [], s, Send(key, next));
        s := Next(cfg, s, Send(key, next));
      }
    }
  }

  /** All workers but `skip` have sent and hold the packet, and the server has nothing. */
  ghost predicate AllButSent(cfg: Config, s: State, key: Key, skip: Worker)
    requires key.0 in cfg.jobs
  {
    && (key, skip) !in s.sent && s.server == NewReceiver
    && forall w: Worker :: IsWorker(cfg.jobs[key.0], w) && w != skip ==>
                             (key, w) in s.kept && Original(cfg, key, w) in s.first
  }

  lemma SendAllBut(cfg: Config, key: Key, skip: Worker) returns (s: State)
    requires key.0 in cfg.jobs && key.1 >= 1
    ensures Leads(cfg, [], s) && s.slots == map[]
    ensures AllButSent(cfg, s, key, skip)
  {
    var job := cfg.jobs[key.0];
    s := SendBelow(cfg, key, skip, Total(job));
    forall w: Worker | IsWorker(job, w) && w != skip
      ensures (key, w) in s.sent && Original(cfg, key, w) in s.first
    {
      PositionInjective(job, w, w);
    }
  }

  // ----- packets that pass unchanged

  /** The slots are as before, and so is everything else except the packets in the network. */
  ghost predicate Untouched(s: State, s': State) {
    && s'.sent == s.sent && s'.kept == s.kept && s'.server == s.server && s.first <= s'.first && s.net <= s'.net
    && forall k :: SlotAt(s'.slots, k) == SlotAt(s.slots, k)
  }

  /** A switch that lets the packet through as it is. */
  ghost predicate LetsPass(cfg: Config, s: State, switch: nat, t: Tag) {
    var a := SlotFor(cfg, s, switch, KeyOf(t));
    !t.isAck && Filter(cfg.hierarchical(switch), a, t) == (a, Some(t))
  }

  lemma {:induction false} TravelTo(cfg: Config, s: State, f: Flight, hop: nat) returns (s': State)
    requires Leads(cfg, [], s) && f in s.net && f.hop <= hop <= |cfg.later(f.tag.job, f.branch)|
    requires forall h :: f.hop <= h < hop ==> LetsPass(cfg, s, cfg.later(f.tag.job, f.branch)[h], f.tag)
    ensures Leads(cfg, [], s') && Untouched(s, s')
    ensures f.(hop := hop) in s'.net
    decreases hop - f.hop
  {
    if f.hop == hop {
      s' := s;
    } else {
      assert LetsPass(cfg, s, cfg.later(f.tag.job, f.branch)[f.hop], f.tag);
      var s1 := Next(cfg, s, AtLater(f));
      Step(cfg, [], s, AtLater(f));
      assert Untouched(s, s1);
      s' := TravelTo(cfg, s1, f.(hop := f.hop + 1), hop);
    }
  }

  /** A retransmission passes its edge switch unchanged if no slot waits for it there. */
  lemma PassEdge(cfg: Config, s: State, key: Key, w: Worker) returns (s': State)
    requires key.0 in cfg.jobs && IsWorker(cfg.jobs[key.0], w) && Leads(cfg, [], s) && (key, w) in s.kept
    requires SlotFor(cfg, s, cfg.edgeOf(key.0, w.0), key) == EmptySlot && key.1 >= 1
    ensures Leads(cfg, [], s') && Untouched(s, s')
    ensures Resent(cfg, key, w) in s'.net
  {
    var f := Resent(cfg, key, w);
    var s1 := Next(cfg, s, Retransmit(key, w));
    Step(cfg, [], s, Retransmit(key, w));
    s' := Next(cfg, s1, AtEdge(f));
    Step(cfg, [], s1, AtEdge(f));
  }

  /** The first time a route crosses a switch. */
  lemma {:induction false} FirstHop(route: seq<nat>, c: nat) returns (hop: nat)
    requires c in route
    ensures hop < |route| && route[hop] == c && forall h :: 0 <= h < hop ==> route[h] != c
  {
    hop := 0;
    if route[0] != c {
      hop := FirstHop(route[1..], c);
      hop := hop + 1;
      assert forall h :: 1 <= h < |route| ==> route[h] == route[1..][h - 1];
    }
  }

  /** A retransmission meets no slot of its key before the switch `c`. */
  lemma TravelToSwitch(cfg: Config, s: State, key: Key, w: Worker, c: nat) returns (s': State, hop: nat)
    requires key.0 in cfg.jobs && IsWorker(cfg.jobs[key.0], w) && Leads(cfg, [], s) && (key, w) in s.kept
    requires key.1 >= 1 && c in cfg.later(key.0, w.0)
    requires SlotFor(cfg, s, cfg.edgeOf(key.0, w.0), key) == EmptySlot
    requires forall d :: d in cfg.later(key.0, w.0) && d != c ==> SlotFor(cfg, s, d, key) == EmptySlot
    ensures Leads(cfg, [], s') && Untouched(s, s')
    ensures Resent(cfg, key, w).(hop := hop) in s'.net
    ensures hop < |cfg.later(key.0, w.0)|
    ensures cfg.later(key.0, w.0)[hop] == c
  {
    var f, route := Resent(cfg, key, w), cfg.later(key.0, w.0);
    var s1 := PassEdge(cfg, s, key, w);
    hop := FirstHop(route, c);
    forall h | 0 <= h < hop ensures LetsPass(cfg, s1, route[h], f.tag) {
      assert route[h] in route;
    }
    s' := TravelTo(cfg, s1, f, hop);
  }

  /** A retransmission takes along the bits that a later switch holds for its key. */
  lemma TakeBits(cfg: Config, s: State, f: Flight, bits: Bits) returns (s': State, x: Flight)
    requires Leads(cfg, [], s) && f in s.net && f.hop < |cfg.later(f.tag.job, f.branch)|
    requires f.tag.resend && f.tag.edge == 0 && !f.tag.isAck && !f.tag.collision
    requires SlotFor(cfg, s, cfg.later(f.tag.job, f.branch)[f.hop], KeyOf(f.tag)) ==
             Slot(bits, 1, f.tag.job, f.tag.seqNum)
    requires !(f.tag.bitmap0 <= bits)
    ensures Leads(cfg, [], s') && s'.first == s.first
    ensures s'.sent == s.sent && s'.kept == s.kept && s'.server == s.server
    ensures x in s'.net
    ensures x == Flight(f.tag.(edge := 1, bitmap0 := bits + f.tag.bitmap0), f.branch, f.hop + 1)
  {
    s' := Next(cfg, s, AtLater(f));
    Step(cfg, [], s, AtLater(f));
    x := Flight(f.tag.(edge := 1, bitmap0 := bits + f.tag.bitmap0), f.branch, f.hop + 1);
  }

  // ----- the runs

  /** A packet that names `skip` although it never sent is enough: with the retransmissions of
      the others, the server delivers. */
  lemma DeliverWithout(cfg: Config, s: State, key: Key, skip: Worker, x: Flight) returns (s': State)
    requires ConfigOk(cfg) && key.0 in cfg.jobs && IsWorker(cfg.jobs[key.0], skip)
    requires Leads(cfg, [], s) && AllButSent(cfg, s, key, skip) && x in s.net && Names(x, key, skip)
    requires x.hop <= |cfg.later(key.0, skip.0)|
    ensures Leads(cfg, [], s') && !Sound(cfg, s')
  {
    var s1, x1 := Travel(cfg, [], s, x, key, skip);
    assert Received(cfg.jobs, s1.server, [], key, {});
    var s2, bits := ServeNamed(cfg, [], s1, key, {}, skip, x1);
    s' := DeliverRest(cfg, [], s2, key, bits);
  }

  /** A packet of one worker is taken for a fully aggregated one. */
  lemma TakenForComplete(cfg: Config, s: State, key: Key, w: Worker, x: Flight) returns (s': State)
    requires key.0 in cfg.jobs && cfg.jobs[key.0].fullBitmap1 == {w.0}
    requires Leads(cfg, [], s) && s.server == NewReceiver
    requires x in s.net && Names(x, key, w) && x.hop == |cfg.later(key.0, w.0)|
    ensures Leads(cfg, [], s') && s'.sent == s.sent
    ensures key in s'.server.delivered
  {
    s' := Next(cfg, s, AtServer(x));
    Step(cfg, [], s, AtServer(x));
    assert s'.server.delivered == [] + [key];
  }

  lemma MistakenRun(cfg: Config, j: nat, b: nat) returns (s: State)
    requires ConfigOk(cfg) && j in cfg.jobs && b < |cfg.jobs[j].fanIns|
    requires cfg.jobs[j].fullBitmap1 == {b} && Total(cfg.jobs[j]) != 1
    ensures Leads(cfg, [], s) && !Sound(cfg, s)
  {
    var job, key, w := cfg.jobs[j], (j, 1), (b, 0);
    var p := Position(job, w);
    var other := WorkerAt(job.fanIns, |job.fanIns|, if p == 0 then 1 else 0);
    assert IsWorker(job, other) && other != w;
    Here(cfg, []);
    Step(cfg, [], Init, Send(key, w));
    s := Next(cfg, Init, Send(key, w));
    var x: Flight;
    s, x := Retransmitted(cfg, [], s, key, w);
    s := TakenForComplete(cfg, s, key, w, x);
    assert (key, other) !in s.sent;
  }

  /** Worker 0 of branch `b` waits in the slot of its edge switch. */
  lemma Waiting(cfg: Config, s: State, j: nat, b: nat) returns (s': State)
    requires j in cfg.jobs && IsWorker(cfg.jobs[j], (b, 0))
    requires Leads(cfg, [], s) && s.slots == map[] && Original(cfg, (j, 1), (b, 0)) in s.first
    ensures Leads(cfg, [], s') && s'.sent == s.sent
    ensures s'.kept == s.kept && s'.server == s.server
    ensures s'.first == s.first
    ensures SlotFor(cfg, s', cfg.edgeOf(j, b), (j, 1)) == Slot({0}, 1, j, 1)
    ensures forall d :: d != cfg.edgeOf(j, b) ==> SlotFor(cfg, s', d, (j, 1)) == EmptySlot
  {
    var f := Original(cfg, (j, 1), (b, 0));
    s' := Next(cfg, s, AtEdge(f));
    Step(cfg, [], s, AtEdge(f));
    assert 0 in f.tag.bitmap0 && {} + f.tag.bitmap0 == {0};
  }

  /** The retransmission of worker 1 of branch `a` crosses the edge switch of branch `b`, where
      worker 0 of that branch waits, and leaves as worker 0 and 1 of branch `a`. */
  lemma MixUp(cfg: Config, s: State, j: nat, a: nat, b: nat) returns (s': State, x: Flight)
    requires ConfigOk(cfg) && Leads(cfg, [], s) && s.slots == map[] && j in cfg.jobs && Mixes(cfg, j, a, b)
    requires cfg.jobs[j].fanIns[a] >= 2 && AllButSent(cfg, s, (j, 1), (a, 0))
    ensures Leads(cfg, [], s') && AllButSent(cfg, s', (j, 1), (a, 0))
    ensures x in s'.net && Names(x, (j, 1), (a, 0))
    ensures x.hop <= |cfg.later(j, a)|
  {
    var key, switch := (j, 1), cfg.edgeOf(j, b);
    assert IsWorker(cfg.jobs[j], (b, 0)) && IsWorker(cfg.jobs[j], (a, 1));
    var s1 := Waiting(cfg, s, j, b);
    var s2, hop := TravelToSwitch(cfg, s1, key, (a, 1), switch);
    s', x := TakeBits(cfg, s2, Resent(cfg, key, (a, 1)).(hop := hop), {0});
  }

  lemma MixedRun(cfg: Config, j: nat, a: nat, b: nat) returns (s: State)
    requires ConfigOk(cfg) && j in cfg.jobs && Mixes(cfg, j, a, b) && cfg.jobs[j].fanIns[a] >= 2
    ensures Leads(cfg, [], s) && !Sound(cfg, s)
  {
    s := SendAllBut(cfg, (j, 1), (a, 0));
    var x: Flight;
    s, x := MixUp(cfg, s, j, a, b);
    s := DeliverWithout(cfg, s, (j, 1), (a, 0), x);
  }

  // ----- hierarchical aggregation

  /** Packets of worker 0 to `m`-1 of branch `k` have filled the slot of their edge switch. */
  ghost predicate Filled(cfg: Config, s: State, j: nat, k: nat, m: nat)
    requires j in cfg.jobs && k < |cfg.jobs[j].fanIns|
  {
    && SlotFor(cfg, s, cfg.edgeOf(j, k), (j, 1)) == (if m == 0 then EmptySlot else Slot(Ones(m), m, j, 1))
    && (forall d :: d != cfg.edgeOf(j, k) ==> SlotFor(cfg, s, d, (j, 1)) == EmptySlot)
  }

  /** The fully aggregated packet of branch `k`. */
  function WholeBranch(cfg: Config, j: nat, k: nat): Flight
    requires j in cfg.jobs && k < |cfg.jobs[j].fanIns| && cfg.jobs[j].fanIns[k] >= 1
  {
    var n := cfg.jobs[j].fanIns[k];
    Flight(WorkerTag(cfg.jobs[j], (j, 1), (k, n - 1), false).(edge := 1, bitmap0 := Ones(n)), k, 0)
  }

  lemma {:induction false} Fill(cfg: Config, s: State, j: nat, k: nat, m: nat) returns (s': State)
    requires j in cfg.jobs && k < |cfg.jobs[j].fanIns| && 1 <= cfg.jobs[j].fanIns[k]
    requires m <= cfg.jobs[j].fanIns[k] && Leads(cfg, [], s) && s.slots == map[]
    requires forall i: nat :: i < m ==> Original(cfg, (j, 1), (k, i)) in s.first
    ensures Leads(cfg, [], s') && Filled(cfg, s', j, k, m)
    ensures s'.sent == s.sent && s'.kept == s.kept
    ensures s'.server == s.server && s'.first == s.first
    ensures m == cfg.jobs[j].fanIns[k] ==> WholeBranch(cfg, j, k) in s'.net
  {
    if m == 0 {
      s' := s;
    } else {
      var s1 := Fill(cfg, s, j, k, m - 1);
      var f := Original(cfg, (j, 1), (k, m - 1));
      s' := Next(cfg, s1, AtEdge(f));
      Step(cfg, [], s1, AtEdge(f));
      forall d | d != cfg.edgeOf(j, k) ensures SlotFor(cfg, s', d, (j, 1)) == EmptySlot {
        assert SlotFor(cfg, s1, d, (j, 1)) == EmptySlot;
      }
    }
  }

  /** The aggregated packet of branch `k` goes to its core switch and waits there. */
  lemma WaitInCore(cfg: Config, s: State, j: nat, k: nat, core: nat) returns (s': State)
    requires ConfigOk(cfg) && CoresApart(cfg) && j in cfg.jobs && IsCore(cfg, j, k, core)
    requires |cfg.jobs[j].fanIns| >= 2 && Filled(cfg, s, j, k, cfg.jobs[j].fanIns[k])
    requires Leads(cfg, [], s) && WholeBranch(cfg, j, k) in s.net
    ensures Leads(cfg, [], s') && s'.sent == s.sent
    ensures s'.kept == s.kept && s'.server == s.server
    ensures s.first <= s'.first
    ensures SlotFor(cfg, s', core, (j, 1)) == Slot({k}, 1, j, 1)
    ensures forall d :: d != cfg.edgeOf(j, k) && d != core ==> SlotFor(cfg, s', d, (j, 1)) == EmptySlot
  {
    var whole := WholeBranch(cfg, j, k);
    var hop: nat :| CoreAt(cfg, j, k, hop, core);
    forall h | 0 <= h < hop ensures LetsPass(cfg, s, cfg.later(j, k)[h], whole.tag) {
      assert !cfg.hierarchical(cfg.later(j, k)[h]);
    }
    var s1 := TravelTo(cfg, s, whole, hop);
    assert core != cfg.edgeOf(j, k);
    assert SlotFor(cfg, s, core, (j, 1)) == EmptySlot;
    s' := EnterCore(cfg, s1, whole.(hop := hop), j, k, core);
    forall d | d != cfg.edgeOf(j, k) && d != core ensures SlotFor(cfg, s', d, (j, 1)) == EmptySlot {
      assert SlotFor(cfg, s, d, (j, 1)) == EmptySlot;
      assert SlotFor(cfg, s1, d, (j, 1)) == EmptySlot;
    }
  }

  lemma EnterCore(cfg: Config, s: State, f: Flight, j: nat, k: nat, core: nat) returns (s': State)
    requires Leads(cfg, [], s) && f in s.net && KeyOf(f.tag) == (j, 1) && f.branch == k
    requires f.hop < |cfg.later(j, k)| && cfg.later(j, k)[f.hop] == core && cfg.hierarchical(core)
    requires SlotFor(cfg, s, core, (j, 1)) == EmptySlot && f.tag.bitmap1 == {k} && f.tag.edge == 1
    requires !f.tag.resend && !f.tag.collision && !f.tag.isAck
    ensures Leads(cfg, [], s') && s'.sent == s.sent
    ensures s'.kept == s.kept && s'.server == s.server
    ensures s'.first == s.first
    ensures SlotFor(cfg, s', core, (j, 1)) == Slot({k}, 1, j, 1)
    ensures forall d :: d != core ==> SlotFor(cfg, s', d, (j, 1)) == SlotFor(cfg, s, d, (j, 1))
  {
    s' := Next(cfg, s, AtLater(f));
    Step(cfg, [], s, AtLater(f));
    assert k in f.tag.bitmap1 && {} + f.tag.bitmap1 == {k};
  }

  /** The retransmission of worker `i` of branch `a` meets branch `k` in the core switch, and
      leaves as workers `i` and `k` of branch `a`. */
  lemma CoreMixUp(cfg: Config, s: State, j: nat, a: nat, i: nat, k: nat, core: nat) returns (s': State, x: Flight)
    requires ConfigOk(cfg) && CoresApart(cfg) && j in cfg.jobs && Meet(cfg, j, a, k, core)
    requires IsWorker(cfg.jobs[j], (a, i)) && i != k && !Mixes(cfg, j, a, k)
    requires Leads(cfg, [], s) && ((j, 1), (a, i)) in s.kept
    requires SlotFor(cfg, s, core, (j, 1)) == Slot({k}, 1, j, 1)
    requires forall d :: d != cfg.edgeOf(j, k) && d != core ==> SlotFor(cfg, s, d, (j, 1)) == EmptySlot
    ensures Leads(cfg, [], s') && s'.sent == s.sent
    ensures s'.kept == s.kept && s'.server == s.server
    ensures s.first <= s'.first
    ensures x in s'.net && Names(x, (j, 1), (a, k))
    ensures x.hop <= |cfg.later(j, a)|
  {
    var key := (j, 1);
    var s1, hop := TravelToSwitch(cfg, s, key, (a, i), core);
    s', x := TakeBits(cfg, s1, Resent(cfg, key, (a, i)).(hop := hop), {k});
  }

  /** A branch crosses the core switch of another, whose number is the index of one of its
      workers: that worker need not send. */
  lemma HierarchicalRun(cfg: Config, j: nat, a: nat, k: nat, core: nat) returns (s: State)
    requires ConfigOk(cfg) && CoresApart(cfg) && j in cfg.jobs && Meet(cfg, j, a, k, core)
    requires k < cfg.jobs[j].fanIns[a] && cfg.jobs[j].fanIns[a] >= 2 && !Mixes(cfg, j, a, k)
    ensures Leads(cfg, [], s) && !Sound(cfg, s)
  {
    var job, key, skip, i := cfg.jobs[j], (j, 1), (a, k), if k == 0 then 1 else 0;
    s := SendAllBut(cfg, key, skip);
    assert forall m: nat :: m < job.fanIns[k] ==> IsWorker(job, (k, m)) && (k, m) != skip;
    s := Fill(cfg, s, j, k, job.fanIns[k]);
    s := WaitInCore(cfg, s, j, k, core);
    assert IsWorker(job, (a, i)) && (a, i) != skip;
    var x: Flight;
    s, x := CoreMixUp(cfg, s, j, a, i, k, core);
    s := DeliverWithout(cfg, s, key, skip, x);
  }

  // ----- the main result

  lemma UnsafeRun(cfg: Config) returns (s: State)
    requires ConfigOk(cfg) && CoresApart(cfg) && !(Safe(cfg) && NeverCoreMixed(cfg))
    ensures Leads(cfg, [], s) && !Sound(cfg, s)
  {
    if Safe(cfg) {
      var j, a: nat, k: nat, c :| j in cfg.jobs && Meet(cfg, j, a, k, c) &&
                                  !(cfg.jobs[j].fanIns[a] == 1 || k >= cfg.jobs[j].fanIns[a]);
      s := HierarchicalRun(cfg, j, a, k, c);
    } else {
      var j :| j in cfg.jobs && !(NeverMistaken(cfg.jobs[j]) && NeverMixed(cfg, j));
      if b: nat :| b < |cfg.jobs[j].fanIns| && cfg.jobs[j].fullBitmap1 == {b} && Total(cfg.jobs[j]) != 1 {
        s := MistakenRun(cfg, j, b);
      } else {
        var a: nat, b: nat :| Mixes(cfg, j, a, b) && cfg.jobs[j].fanIns[a] != 1;
        s := MixedRun(cfg, j, a, b);
      }
    }
  }

  /** With core switches or without: every run is sound if and only if the configuration is
      safe, at the edge switches and at the core switches. */
  lemma SoundIffSafe(cfg: Config)
    requires ConfigOk(cfg) && CoresApart(cfg)
    ensures Safe(cfg) && NeverCoreMixed(cfg) <==> forall es: seq<Event> :: Sound(cfg, After(cfg, es))
  {
    if Safe(cfg) && NeverCoreMixed(cfg) {
      forall es: seq<Event> ensures Sound(cfg, After(cfg, es)) {
        SafeRunsAreSound(cfg, es);
      }
    } else {
      var s := UnsafeRun(cfg);
      var es: seq<Event> :| After(cfg, [] + es) == s;
      assert [] + es == es;
      assert !Sound(cfg, After(cfg, es));
    }
  }

  /** In the single-layer mode the edge switches decide. */
  lemma SingleLayerSoundIffSafe(cfg: Config)
    requires ConfigOk(cfg) && SingleLayer(cfg)
    ensures Safe(cfg) <==> forall es: seq<Event> :: Sound(cfg, After(cfg, es))
  {
    SoundIffSafe(cfg);
  }

  /** If one switch is the core switch of all branches of every job, it is safe exactly when
      no job with two branches or more has a branch with two workers or more. */
  lemma OneCoreSafeIff(cfg: Config, core: nat)
    requires ConfigOk(cfg)
    requires forall j, a: nat :: j in cfg.jobs && a < |cfg.jobs[j].fanIns| ==> IsCore(cfg, j, a, core)
    ensures NeverCoreMixed(cfg) <==>
            forall j, a: nat | j in cfg.jobs && |cfg.jobs[j].fanIns| >= 2 && a < |cfg.jobs[j].fanIns| ::
              cfg.jobs[j].fanIns[a] == 1
  {
    if NeverCoreMixed(cfg) {
      forall j, a: nat | j in cfg.jobs && |cfg.jobs[j].fanIns| >= 2 && a < |cfg.jobs[j].fanIns|
        ensures cfg.jobs[j].fanIns[a] == 1
      {
        var k := if a == 0 then 1 else 0;
        assert IsCore(cfg, j, a, core) && IsCore(cfg, j, k, core);
        assert Meet(cfg, j, a, k, core);
      }
    }
  }
}
