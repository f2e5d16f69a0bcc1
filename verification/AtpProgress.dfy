/** What a run can still reach: from every state, a packet can be delivered by retransmissions
    if each worker of its job still holds it or its bit has arrived, whatever the switches hold
    and whatever was lost. */
module AtpProgress {
  import opened AtpJobTree
  import opened AtpSwitch
  import opened AtpReceiver
  import opened AtpSystem

  /** Some continuation of `start` leads to `s`. */
  ghost predicate Leads(cfg: Config, start: seq<Event>, s: State) {
    exists es: seq<Event> :: After(cfg, start + es) == s
  }

  lemma Step(cfg: Config, start: seq<Event>, s: State, e: Event)
    requires Leads(cfg, start, s)
    ensures Leads(cfg, start, Next(cfg, s, e))
  {
    var es: seq<Event> :| After(cfg, start + es) == s;
    var run := start + (es + [e]);
    assert run[..|run| - 1] == start + es;
    assert After(cfg, run) == Next(cfg, s, e);
  }

  lemma Here(cfg: Config, start: seq<Event>)
    ensures Leads(cfg, start, After(cfg, start))
  {
    assert start + [] == start;
  }

  // ----- what the steps for one key leave alone

  /** Nothing of `key` is in flight or in a slot. */
  ghost predicate Quiet(s: State, key: Key) {
    && (forall f :: f in s.first || f in s.net ==> KeyOf(f.tag) != key)
    && (forall k :: k in s.slots && (s.slots[k].job, s.slots[k].seqNum) == key ==> s.slots[k].bitmap == {})
  }

  ghost predicate StaysQuiet(s: State, s': State, key: Key) {
    forall other: Key :: other != key && Quiet(s, other) ==> Quiet(s', other)
  }

  /** The server treats every other key as before. */
  ghost predicate SameElsewhere(r: Receiver, r': Receiver, key: Key) {
    forall other: Key :: other != key ==>
      (other in r'.delivered <==> other in r.delivered) && Merged(r'.aggregators, other) == Merged(r.aggregators, other)
  }

  /** The workers are as before, and so is every key that is quiet, except perhaps `key`. */
  ghost predicate Calm(s: State, s': State, key: Key) {
    s'.sent == s.sent && s'.kept == s.kept && StaysQuiet(s, s', key) && SameElsewhere(s.server, s'.server, key)
  }

  lemma ArriveElsewhere(trees: map<nat, JobTree>, r: Receiver, t: Tag)
    ensures SameElsewhere(r, Arrive(trees, r, t).0, KeyOf(t))
  {
  }

  lemma SwitchIsCalm(cfg: Config, s: State, switch: nat, t: Tag, branch: nat, hop: nat)
    ensures Calm(s, AtSwitch(cfg, s, switch, t, branch, hop), KeyOf(t))
  {
  }

  // ----- a retransmission gets through

  /** A resent packet for `key` on its way that names worker `w`. */
  ghost predicate Names(f: Flight, key: Key, w: Worker) {
    && KeyOf(f.tag) == key && !f.tag.isAck && f.tag.resend && f.branch == w.0
    && f.tag.bitmap1 == {w.0} && w.1 in f.tag.bitmap0
  }

  /** Whatever the slot of the next switch holds, the packet passes and names its worker. */
  lemma Hop(cfg: Config, start: seq<Event>, s: State, f: Flight, w: Worker) returns (s': State, x: Flight)
    requires Leads(cfg, start, s) && f in s.net && Names(f, KeyOf(f.tag), w)
    requires f.hop < |cfg.later(f.tag.job, f.branch)|
    ensures Leads(cfg, start, s') && Calm(s, s', KeyOf(f.tag))
    ensures s'.server == s.server && s'.first == s.first
    ensures x in s'.net && Names(x, KeyOf(f.tag), w) && x.hop == f.hop + 1
  {
    var switch := cfg.later(f.tag.job, f.branch)[f.hop];
    SwitchIsCalm(cfg, s, switch, f.tag, f.branch, f.hop + 1);
    s' := Next(cfg, s, AtLater(f));
    Step(cfg, start, s, AtLater(f));
    var out := Filter(cfg.hierarchical(switch), SlotFor(cfg, s, switch, KeyOf(f.tag)), f.tag).1;
    x := Flight(out.value, f.branch, f.hop + 1);
  }

  /** It reaches the server. */
  lemma {:induction false} Travel(cfg: Config, start: seq<Event>, s: State, f: Flight, key: Key, w: Worker)
      returns (s': State, x: Flight)
    requires Leads(cfg, start, s) && f in s.net && Names(f, key, w) && f.hop <= |cfg.later(key.0, w.0)|
    ensures Leads(cfg, start, s') && Calm(s, s', key)
    ensures s'.server == s.server && s'.first == s.first
    ensures x in s'.net && Names(x, key, w)
    ensures x.hop == |cfg.later(key.0, w.0)|
    decreases |cfg.later(key.0, w.0)| - f.hop
  {
    if f.hop == |cfg.later(key.0, w.0)| {
      s', x := s, f;
    } else {
      var s1, f1 := Hop(cfg, start, s, f, w);
      s', x := Travel(cfg, start, s1, f1, key, w);
    }
  }

  lemma PassesEdge(cfg: Config, start: seq<Event>, s: State, key: Key, w: Worker) returns (s': State, x: Flight)
    requires key.0 in cfg.jobs && IsWorker(cfg.jobs[key.0], w)
    requires Leads(cfg, start, s) && (key, w) in s.kept
    ensures Leads(cfg, start, s') && Calm(s, s', key)
    ensures s'.server == s.server
    ensures x in s'.net && Names(x, key, w) && x.hop == 0
  {
    var f := Resent(cfg, key, w);
    var switch := cfg.edgeOf(f.tag.job, f.branch);
    var s1 := Next(cfg, s, Retransmit(key, w));
    Step(cfg, start, s, Retransmit(key, w));
    assert Calm(s, s1, key);
    SwitchIsCalm(cfg, s1, switch, f.tag, f.branch, 0);
    s' := Next(cfg, s1, AtEdge(f));
    Step(cfg, start, s1, AtEdge(f));
    x := Flight(Resend(SlotFor(cfg, s1, switch, key), f.tag).1.value, w.0, 0);
  }

  /** Whatever the switches on its route hold, a retransmission reaches the server and names
      its worker. */
  lemma Retransmitted(cfg: Config, start: seq<Event>, s: State, key: Key, w: Worker) returns (s': State, x: Flight)
    requires key.0 in cfg.jobs && IsWorker(cfg.jobs[key.0], w)
    requires Leads(cfg, start, s) && (key, w) in s.kept
    ensures Leads(cfg, start, s') && Calm(s, s', key)
    ensures s'.server == s.server
    ensures x in s'.net && Names(x, key, w)
    ensures x.hop == |cfg.later(key.0, w.0)|
  {
    var s1, f := PassesEdge(cfg, start, s, key, w);
    s', x := Travel(cfg, start, s1, f, key, w);
  }

  lemma NamedFlat(cfg: Config, f: Flight, key: Key, w: Worker)
    requires ConfigOk(cfg) && key.0 in cfg.jobs && IsWorker(cfg.jobs[key.0], w) && Names(f, key, w)
    ensures Position(cfg.jobs[key.0], w) in FlatFor(cfg.jobs, f.tag, key)
  {
    var job := cfg.jobs[key.0];
    PositionInjective(job, w, w);
    if f.tag.bitmap1 != job.fullBitmap1 {
      FlatMeansWorkers(job, f.tag.bitmap0, f.tag.bitmap1);
    }
  }

  // ----- what the server has been given

  /** The server has been given exactly `bits` for `key`. */
  ghost predicate Served(cfg: Config, start: seq<Event>, s: State, key: Key, bits: Bits) {
    Leads(cfg, start, s) && exists ts: seq<Tag> :: Received(cfg.jobs, s.server, ts, key, bits)
  }

  ghost predicate Received(jobs: map<nat, Job>, r: Receiver, ts: seq<Tag>, key: Key, bits: Bits) {
    r == ReceiveAll(jobs, ts) && Claimed(jobs, ts, key) == bits
  }

  /** The server of every state is the result of some list of arrivals. */
  lemma {:induction false} History(cfg: Config, es: seq<Event>) returns (ts: seq<Tag>)
    ensures After(cfg, es).server == ReceiveAll(cfg.jobs, ts)
  {
    ts := [];
    if es != [] {
      var before, e := es[..|es| - 1], es[|es| - 1];
      ts := History(cfg, before);
      if After(cfg, es).server != After(cfg, before).server {
        assert e.AtServer?;
        assert (ts + [e.flight.tag])[..|ts|] == ts;
        ts := ts + [e.flight.tag];
      }
    }
  }

  lemma ReceivedMore(jobs: map<nat, Job>, r: Receiver, ts: seq<Tag>, key: Key, bits: Bits, t: Tag)
    requires Received(jobs, r, ts, key, bits)
    ensures Received(jobs, Arrive(TreesOf(jobs), r, t).0, ts + [t], key, bits + FlatFor(jobs, t, key))
  {
    assert (ts + [t])[..|ts|] == ts;
  }

  lemma Serve(cfg: Config, start: seq<Event>, s: State, key: Key, bits: Bits, f: Flight) returns (s': State)
    requires Served(cfg, start, s, key, bits) && f in s.net && f.hop == |cfg.later(f.tag.job, f.branch)|
    requires KeyOf(f.tag) == key
    ensures Served(cfg, start, s', key, bits + FlatFor(cfg.jobs, f.tag, key))
    ensures Calm(s, s', key)
  {
    var ts: seq<Tag> :| Received(cfg.jobs, s.server, ts, key, bits);
    s' := Next(cfg, s, AtServer(f));
    Step(cfg, start, s, AtServer(f));
    ReceivedMore(cfg.jobs, s.server, ts, key, bits, f.tag);
    ArriveElsewhere(TreesOf(cfg.jobs), s.server, f.tag);
  }

  lemma ServeNamed(cfg: Config, start: seq<Event>, s: State, key: Key, bits: Bits, w: Worker, x: Flight)
      returns (s': State, bits': Bits)
    requires ConfigOk(cfg) && key.0 in cfg.jobs && IsWorker(cfg.jobs[key.0], w)
    requires Served(cfg, start, s, key, bits) && x in s.net && Names(x, key, w)
    requires x.hop == |cfg.later(key.0, w.0)|
    ensures Served(cfg, start, s', key, bits') && Calm(s, s', key)
    ensures bits <= bits' && Position(cfg.jobs[key.0], w) in bits'
  {
    NamedFlat(cfg, x, key, w);
    s' := Serve(cfg, start, s, key, bits, x);
    bits' := bits + FlatFor(cfg.jobs, x.tag, key);
  }

  /** Worker `w` retransmits, and the packet reaches the server. */
  lemma ServeWorker(cfg: Config, start: seq<Event>, s: State, key: Key, bits: Bits, w: Worker)
      returns (s': State, bits': Bits)
    requires ConfigOk(cfg) && key.0 in cfg.jobs && IsWorker(cfg.jobs[key.0], w)
    requires Served(cfg, start, s, key, bits) && (key, w) in s.kept
    ensures Served(cfg, start, s', key, bits') && Calm(s, s', key)
    ensures bits <= bits' && Position(cfg.jobs[key.0], w) in bits'
  {
    var ts: seq<Tag> :| Received(cfg.jobs, s.server, ts, key, bits);
    var s1, x := Retransmitted(cfg, start, s, key, w);
    assert Received(cfg.jobs, s1.server, ts, key, bits);
    s', bits' := ServeNamed(cfg, start, s1, key, bits, w, x);
  }

  /** Every worker still holds the packet, or its bit is there already. */
  ghost predicate KeptOrServed(cfg: Config, s: State, key: Key, bits: Bits)
    requires key.0 in cfg.jobs
  {
    forall w: Worker :: IsWorker(cfg.jobs[key.0], w) ==>
                          (key, w) in s.kept || Position(cfg.jobs[key.0], w) in bits
  }

  /** The state has been reached, the bits served, and the workers are as in `s`. */
  ghost predicate ServedFrom(cfg: Config, start: seq<Event>, s: State, s': State, key: Key, bits: Bits) {
    Served(cfg, start, s', key, bits) && Calm(s, s', key)
  }

  /** The worker at flat position `p` retransmits, unless its bit is there. */
  lemma ServeNext(cfg: Config, start: seq<Event>, s: State, s1: State, key: Key, bits: Bits, p: nat)
      returns (s': State, bits': Bits)
    requires ConfigOk(cfg) && key.0 in cfg.jobs && ServedFrom(cfg, start, s, s1, key, bits)
    requires KeptOrServed(cfg, s, key, bits) && p < Total(cfg.jobs[key.0])
    ensures ServedFrom(cfg, start, s, s', key, bits')
    ensures bits <= bits' && p in bits'
  {
    s', bits' := s1, bits;
    var w := WorkerAt(cfg.jobs[key.0].fanIns, |cfg.jobs[key.0].fanIns|, p);
    assert IsWorker(cfg.jobs[key.0], w) && Position(cfg.jobs[key.0], w) == p;
    if p !in bits {
      s', bits' := ServeWorker(cfg, start, s1, key, bits, w);
    }
  }

  /** The workers below flat position `p` retransmit, one after the other. */
  lemma {:induction false} ServeBelow(cfg: Config, start: seq<Event>, s: State, key: Key, bits: Bits, p: nat)
      returns (s': State, bits': Bits)
    requires ConfigOk(cfg) && key.0 in cfg.jobs && Served(cfg, start, s, key, bits)
    requires KeptOrServed(cfg, s, key, bits) && p <= Total(cfg.jobs[key.0])
    ensures ServedFrom(cfg, start, s, s', key, bits') && bits <= bits'
    ensures forall q: nat :: q < p ==> q in bits'
  {
    if p == 0 {
      s', bits' := s, bits;
    } else {
      var s1, bits1 := ServeBelow(cfg, start, s, key, bits, p - 1);
      assert KeptOrServed(cfg, s, key, bits1);
      s', bits' := ServeNext(cfg, start, s, s1, key, bits1, p - 1);
      forall q: nat | q < p ensures q in bits' {
        assert q == p - 1 || q in bits1;
      }
    }
  }

  lemma DeliverRest(cfg: Config, start: seq<Event>, s: State, key: Key, bits: Bits) returns (s': State)
    requires ConfigOk(cfg) && key.0 in cfg.jobs && Served(cfg, start, s, key, bits)
    requires KeptOrServed(cfg, s, key, bits)
    ensures Leads(cfg, start, s') && Calm(s, s', key)
    ensures key in s'.server.delivered
  {
    var bits': Bits;
    s', bits' := ServeBelow(cfg, start, s, key, bits, Total(cfg.jobs[key.0]));
    var ts: seq<Tag> :| Received(cfg.jobs, s'.server, ts, key, bits');
    DeliveredIffCovered(cfg.jobs, ts);
    assert CoveredIffDelivered(cfg.jobs, ts, key);
  }

  /** Nothing of a packet is missing: it was delivered, or each worker still holds it or has
      its bit at the server. */
  ghost predicate Recoverable(cfg: Config, s: State, key: Key)
    requires key.0 in cfg.jobs
  {
    key in s.server.delivered || KeptOrServed(cfg, s, key, Merged(s.server.aggregators, key))
  }

  /** After every run, in every mode: what is recoverable is delivered by some continuation. */
  lemma CanStillDeliver(cfg: Config, es: seq<Event>, key: Key)
    requires ConfigOk(cfg) && key.0 in cfg.jobs && Recoverable(cfg, After(cfg, es), key)
    ensures exists more: seq<Event> :: key in After(cfg, es + more).server.delivered
  {
    var s := After(cfg, es);
    Here(cfg, es);
    if key in s.server.delivered {
      assert es + [] == es;
    } else {
      var ts := History(cfg, es);
      DeliveredIffCovered(cfg.jobs, ts);
      assert CoveredIffDelivered(cfg.jobs, ts, key);
      assert Received(cfg.jobs, s.server, ts, key, Claimed(cfg.jobs, ts, key));
      var s' := DeliverRest(cfg, es, s, key, Claimed(cfg.jobs, ts, key));
      var more: seq<Event> :| After(cfg, es + more) == s';
    }
  }
}
