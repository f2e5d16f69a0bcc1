/** Every run of a safe configuration is sound: an invariant of the whole system, and that
    every event keeps it. */
module AtpSafety {
  import opened AtpJobTree
  import opened AtpSwitch
  import opened AtpReceiver
  import opened AtpSystem
  import opened Wrappers

  // ----- the invariant

  ghost predicate AllSent(cfg: Config, sent: set<(Key, Worker)>, key: Key)
    requires key.0 in cfg.jobs
  {
    forall w: Worker :: IsWorker(cfg.jobs[key.0], w) ==> (key, w) in sent
  }

  ghost predicate BranchSent(cfg: Config, sent: set<(Key, Worker)>, key: Key, b: nat)
    requires key.0 in cfg.jobs
  {
    forall i: nat :: IsWorker(cfg.jobs[key.0], (b, i)) ==> (key, (b, i)) in sent
  }

  /** Every bit is the local index of a worker of branch `b` that sent `key`. */
  ghost predicate SentBits(cfg: Config, sent: set<(Key, Worker)>, key: Key, b: nat, bits: Bits)
    requires key.0 in cfg.jobs
  {
    forall i :: i in bits ==> IsWorker(cfg.jobs[key.0], (b, i)) && (key, (b, i)) in sent
  }

  ghost predicate FirstOk(cfg: Config, sent: set<(Key, Worker)>, f: Flight) {
    var key := KeyOf(f.tag);
    && key.0 in cfg.jobs && key.1 >= 1
    && exists i: nat, resend :: IsWorker(cfg.jobs[key.0], (f.branch, i)) && (key, (f.branch, i)) in sent &&
                                f.tag == WorkerTag(cfg.jobs[key.0], key, (f.branch, i), resend)
  }

  /** A packet past its edge switch that is not aggregated in a core switch: it names its own
      branch only, it names at least one worker that sent it and no worker that did not. It
      was aggregated or is a resent one; if it is not resent, its whole branch sent, and it
      has not reached its core switch. */
  ghost predicate Honest(cfg: Config, sent: set<(Key, Worker)>, f: Flight)
    requires f.tag.job in cfg.jobs && f.branch < |cfg.jobs[f.tag.job].fanIns|
    requires f.hop <= |cfg.later(f.tag.job, f.branch)|
  {
    var t := f.tag;
    var key := KeyOf(t);
    && t.bitmap1 == {f.branch} && t.fanIn1 == |cfg.jobs[key.0].fanIns|
    && (t.edge == 1 || (t.edge == 0 && t.resend)) && (t.collision ==> t.resend)
    && (!t.resend ==> BranchSent(cfg, sent, key, f.branch) && NoCoreBefore(cfg, t.job, f.branch, f.hop))
    && (exists i :: i in t.bitmap0 && IsWorker(cfg.jobs[key.0], (f.branch, i)))
    && SentBits(cfg, sent, key, f.branch, t.bitmap0 * Ones(cfg.jobs[key.0].fanIns[f.branch]))
  }

  ghost predicate FlightOk(cfg: Config, sent: set<(Key, Worker)>, f: Flight) {
    && f.tag.job in cfg.jobs && f.tag.seqNum >= 1
    && f.branch < |cfg.jobs[f.tag.job].fanIns| && !f.tag.isAck
    && f.hop <= |cfg.later(f.tag.job, f.branch)|
    && (AllSent(cfg, sent, KeyOf(f.tag)) || Honest(cfg, sent, f))
  }

  /** The slot holds workers of one branch, at its edge switch. */
  ghost predicate EdgeSlot(cfg: Config, sent: set<(Key, Worker)>, switch: nat, a: Slot)
    requires a.job in cfg.jobs
  {
    a.count == |a.bitmap| &&
    exists b :: 0 <= b < |cfg.jobs[a.job].fanIns| && cfg.edgeOf(a.job, b) == switch &&
                SentBits(cfg, sent, (a.job, a.seqNum), b, a.bitmap)
  }

  /** The slot holds branches that sent in full, at their core switch. */
  ghost predicate CoreSlot(cfg: Config, sent: set<(Key, Worker)>, switch: nat, a: Slot)
    requires a.job in cfg.jobs
  {
    a.count == |a.bitmap| &&
    forall k :: k in a.bitmap ==>
      IsCore(cfg, a.job, k, switch) && BranchSent(cfg, sent, (a.job, a.seqNum), k)
  }

  ghost predicate SlotOk(cfg: Config, sent: set<(Key, Worker)>, switch: nat, a: Slot) {
    && (a.count == 0 <==> a.bitmap == {})
    && (a.bitmap != {} ==>
          && a.job in cfg.jobs
          && (|| AllSent(cfg, sent, (a.job, a.seqNum))
              || EdgeSlot(cfg, sent, switch, a)
              || CoreSlot(cfg, sent, switch, a)))
  }

  ghost predicate ServerOk(cfg: Config, sent: set<(Key, Worker)>, r: Receiver) {
    && ReceiverOk(cfg.jobs, r)
    && (forall key, w :: key in r.delivered && key.0 in cfg.jobs && IsWorker(cfg.jobs[key.0], w) ==>
                           (key, w) in sent)
    && (forall key, w | key in r.aggregators && key.0 in cfg.jobs && IsWorker(cfg.jobs[key.0], w) ::
          Position(cfg.jobs[key.0], w) in r.aggregators[key] ==> (key, w) in sent)
  }

  ghost predicate SentOk(cfg: Config, c: (Key, Worker)) {
    c.0.0 in cfg.jobs && c.0.1 >= 1 && IsWorker(cfg.jobs[c.0.0], c.1)
  }

  ghost predicate Inv(cfg: Config, s: State) {
    && (forall c :: c in s.sent ==> SentOk(cfg, c)) && s.kept <= s.sent
    && (forall f :: f in s.first ==> FirstOk(cfg, s.sent, f))
    && (forall f :: f in s.net ==> FlightOk(cfg, s.sent, f))
    && (forall t :: t in s.acks ==> t.isAck)
    && (forall k :: k in s.slots ==> SlotOk(cfg, s.sent, k.0, s.slots[k]))
    && ServerOk(cfg, s.sent, s.server)
  }

  // ----- counting bits

  /** `n` bits below `n` are all of them. */
  lemma {:induction false} FullBits(bits: Bits, n: nat)
    requires (forall x :: x in bits ==> x < n) && |bits| == n
    ensures bits == Ones(n)
  {
    if n > 0 {
      if n - 1 !in bits {
        TooManyBits(bits, n - 1);
      } else {
        FullBits(bits - {n - 1}, n - 1);
      }
    }
  }

  lemma {:induction false} TooManyBits(bits: Bits, n: nat)
    requires forall x :: x in bits ==> x < n
    ensures |bits| <= n
  {
    if n > 0 {
      TooManyBits(bits - {n - 1}, n - 1);
      assert n - 1 !in bits ==> bits - {n - 1} == bits;
    }
  }

  // ----- a packet of a worker at its own edge switch

  /** What the slot holds for the key is the worker's own branch. */
  lemma OwnSlot(cfg: Config, sent: set<(Key, Worker)>, key: Key, b: nat, a: Slot)
    requires ConfigOk(cfg) && CoresApart(cfg) && key.0 in cfg.jobs && b < |cfg.jobs[key.0].fanIns|
    requires SlotOk(cfg, sent, cfg.edgeOf(key.0, b), a) && (a.job, a.seqNum) == key
    requires !AllSent(cfg, sent, key)
    ensures SentBits(cfg, sent, key, b, a.bitmap)
    ensures a.count == |a.bitmap|
  {
    var switch := cfg.edgeOf(key.0, b);
    if a.bitmap != {} {
      var c :| 0 <= c < |cfg.jobs[a.job].fanIns| && cfg.edgeOf(a.job, c) == switch &&
               SentBits(cfg, sent, key, c, a.bitmap);
      assert c == b;
    }
  }

  /** A packet that names sent workers of its branch. */
  lemma BuildHonest(cfg: Config, sent: set<(Key, Worker)>, f: Flight, i: nat)
    requires f.tag.job in cfg.jobs && f.tag.seqNum >= 1 && f.branch < |cfg.jobs[f.tag.job].fanIns|
    requires !f.tag.isAck && f.hop <= |cfg.later(f.tag.job, f.branch)|
    requires f.tag.bitmap1 == {f.branch} && f.tag.fanIn1 == |cfg.jobs[f.tag.job].fanIns|
    requires (f.tag.edge == 1 || (f.tag.edge == 0 && f.tag.resend)) && (f.tag.collision ==> f.tag.resend)
    requires i in f.tag.bitmap0 && IsWorker(cfg.jobs[f.tag.job], (f.branch, i))
    requires SentBits(cfg, sent, KeyOf(f.tag), f.branch, f.tag.bitmap0 * Ones(cfg.jobs[f.tag.job].fanIns[f.branch]))
    requires !f.tag.resend ==>
               BranchSent(cfg, sent, KeyOf(f.tag), f.branch) && NoCoreBefore(cfg, f.tag.job, f.branch, f.hop)
    ensures FlightOk(cfg, sent, f)
  {
  }

  /** What a switch does with a packet is fine: the slot it leaves, and the packet it lets
      through. */
  ghost predicate SwitchOk(cfg: Config, sent: set<(Key, Worker)>, switch: nat, result: (Slot, Option<Tag>),
                           branch: nat, hop: nat) {
    && SlotOk(cfg, sent, switch, result.0)
    && (result.1.Some? ==> FlightOk(cfg, sent, Flight(result.1.value, branch, hop)))
  }

  /** Whatever happens to a packet whose key everybody sent is fine. */
  lemma AllSentStep(cfg: Config, sent: set<(Key, Worker)>, t: Tag, branch: nat, hop: nat, switch: nat, a: Slot)
    requires t.job in cfg.jobs && t.seqNum >= 1 && branch < |cfg.jobs[t.job].fanIns| && !t.isAck
    requires hop <= |cfg.later(t.job, branch)|
    requires AllSent(cfg, sent, KeyOf(t)) && SlotOk(cfg, sent, switch, a)
    ensures SwitchOk(cfg, sent, switch, Filter(cfg.hierarchical(switch), a, t), branch, hop)
  {
  }

  lemma EdgeStep(cfg: Config, sent: set<(Key, Worker)>, f: Flight, a: Slot)
    requires ConfigOk(cfg) && CoresApart(cfg) && FirstOk(cfg, sent, f)
    requires SlotOk(cfg, sent, cfg.edgeOf(f.tag.job, f.branch), a)
    ensures (var switch := cfg.edgeOf(f.tag.job, f.branch);
             SwitchOk(cfg, sent, switch, Filter(cfg.hierarchical(switch), a, f.tag), f.branch, 0))
  {
    var t, key, b := f.tag, KeyOf(f.tag), f.branch;
    var job := cfg.jobs[key.0];
    var i: nat, resend :| IsWorker(job, (b, i)) && (key, (b, i)) in sent &&
                          t == WorkerTag(job, key, (b, i), resend);
    assert i in t.bitmap0 && t.bitmap0 * Ones(job.fanIns[b]) == t.bitmap0;
    if AllSent(cfg, sent, key) {
      AllSentStep(cfg, sent, t, b, 0, cfg.edgeOf(t.job, b), a);
    } else if resend {
      EdgeResend(cfg, sent, t, b, i, a);
    } else if a.IsEmpty() || a.Holds(t) {
      EdgeProcess(cfg, sent, t, b, i, a.(job := t.job, seqNum := t.seqNum));
    } else {
      BuildHonest(cfg, sent, Flight(t.(resend := true, collision := true), b, 0), i);
    }
  }

  lemma EdgeResend(cfg: Config, sent: set<(Key, Worker)>, t: Tag, b: nat, i: nat, a: Slot)
    requires ConfigOk(cfg) && CoresApart(cfg) && t.job in cfg.jobs && t.seqNum >= 1
    requires IsWorker(cfg.jobs[t.job], (b, i)) && (KeyOf(t), (b, i)) in sent
    requires t == WorkerTag(cfg.jobs[t.job], KeyOf(t), (b, i), true)
    requires SlotOk(cfg, sent, cfg.edgeOf(t.job, b), a) && !AllSent(cfg, sent, KeyOf(t))
    ensures SwitchOk(cfg, sent, cfg.edgeOf(t.job, b), Resend(a, t), b, 0)
  {
    var out := Resend(a, t).1.value;
    if a.Holds(t) {
      OwnSlot(cfg, sent, KeyOf(t), b, a);
    }
    assert i in out.bitmap0;
    BuildHonest(cfg, sent, Flight(out, b, 0), i);
  }

  lemma EdgeProcess(cfg: Config, sent: set<(Key, Worker)>, t: Tag, b: nat, i: nat, a: Slot)
    requires ConfigOk(cfg) && CoresApart(cfg) && t.job in cfg.jobs && t.seqNum >= 1
    requires IsWorker(cfg.jobs[t.job], (b, i)) && (KeyOf(t), (b, i)) in sent
    requires t == WorkerTag(cfg.jobs[t.job], KeyOf(t), (b, i), false)
    requires SlotOk(cfg, sent, cfg.edgeOf(t.job, b), a) && !AllSent(cfg, sent, KeyOf(t)) && a.Holds(t)
    ensures SwitchOk(cfg, sent, cfg.edgeOf(t.job, b), Process(a, t), b, 0)
  {
    var key, n := KeyOf(t), cfg.jobs[t.job].fanIns[b];
    OwnSlot(cfg, sent, key, b, a);
    var (a', out) := Process(a, t);
    if !(t.bitmap0 <= a.bitmap) {
      assert a'.bitmap == a.bitmap + {i} && i !in a.bitmap;
      assert SentBits(cfg, sent, key, b, a'.bitmap) && a'.count == |a'.bitmap|;
      assert EdgeSlot(cfg, sent, cfg.edgeOf(t.job, b), a');
      if out.Some? {
        FullBits(a'.bitmap, n);
        assert i in out.value.bitmap0;
        BuildHonest(cfg, sent, Flight(out.value, b, 0), i);
      }
    }
  }

  // ----- a packet that crosses a later switch

  /** A packet at the next switch of its route. */
  ghost predicate Arrives(cfg: Config, sent: set<(Key, Worker)>, f: Flight, switch: nat) {
    && FlightOk(cfg, sent, f) && f.hop < |cfg.later(f.tag.job, f.branch)|
    && switch == cfg.later(f.tag.job, f.branch)[f.hop]
  }

  /** A resent packet takes along what the slot holds. In a safe configuration that adds no
      index of a worker of its branch that did not send. */
  lemma TakesAlong(cfg: Config, sent: set<(Key, Worker)>, f: Flight, switch: nat, a: Slot)
    requires SafeEverywhere(cfg) && Arrives(cfg, sent, f, switch) && Honest(cfg, sent, f)
    requires a.Holds(f.tag) && a.bitmap != {} && SlotOk(cfg, sent, switch, a)
    requires !AllSent(cfg, sent, KeyOf(f.tag))
    ensures SentBits(cfg, sent, KeyOf(f.tag), f.branch,
                     (a.bitmap + f.tag.bitmap0) * Ones(cfg.jobs[f.tag.job].fanIns[f.branch]))
  {
    var t, key := f.tag, KeyOf(f.tag);
    var n := cfg.jobs[key.0].fanIns[f.branch];
    var i :| i in t.bitmap0 && IsWorker(cfg.jobs[key.0], (f.branch, i));
    assert i in t.bitmap0 * Ones(n) && Crosses(cfg, key.0, f.branch, switch);
    forall k: nat | k in a.bitmap && k < n ensures (key, (f.branch, k)) in sent {
      if EdgeSlot(cfg, sent, switch, a) {
        var b :| 0 <= b < |cfg.jobs[a.job].fanIns| && cfg.edgeOf(a.job, b) == switch &&
                 SentBits(cfg, sent, key, b, a.bitmap);
        assert b != f.branch ==> Mixes(cfg, key.0, f.branch, b);
        assert b != f.branch ==> k == i;
      } else {
        assert IsCore(cfg, key.0, k, switch) && BranchSent(cfg, sent, key, k);
        assert k != f.branch ==> Meet(cfg, key.0, f.branch, k, switch);
        assert k != f.branch ==> k == i;
        assert IsWorker(cfg.jobs[key.0], (f.branch, k));
      }
    }
  }

  lemma LaterResend(cfg: Config, sent: set<(Key, Worker)>, f: Flight, switch: nat, a: Slot)
    requires SafeEverywhere(cfg) && Arrives(cfg, sent, f, switch) && Honest(cfg, sent, f) && f.tag.resend
    requires SlotOk(cfg, sent, switch, a) && !AllSent(cfg, sent, KeyOf(f.tag))
    ensures SwitchOk(cfg, sent, switch, Resend(a, f.tag), f.branch, f.hop + 1)
  {
    var t, out := f.tag, Resend(a, f.tag).1.value;
    var i :| i in t.bitmap0 && IsWorker(cfg.jobs[t.job], (f.branch, i));
    if out != t {
      if a.bitmap != {} {
        TakesAlong(cfg, sent, f, switch, a);
      } else {
        assert a.bitmap + t.bitmap0 == t.bitmap0;
      }
    }
    assert i in out.bitmap0;
    BuildHonest(cfg, sent, Flight(out, f.branch, f.hop + 1), i);
  }

  /** An aggregated packet adds its branch to the slot of its core switch. */
  lemma CoreProcess(cfg: Config, sent: set<(Key, Worker)>, f: Flight, switch: nat, a: Slot)
    requires ConfigOk(cfg) && CoresApart(cfg) && cfg.hierarchical(switch)
    requires Arrives(cfg, sent, f, switch) && Honest(cfg, sent, f) && !f.tag.resend
    requires SlotOk(cfg, sent, switch, a) && a.Holds(f.tag) && !AllSent(cfg, sent, KeyOf(f.tag))
    ensures SwitchOk(cfg, sent, switch, Process(a, f.tag), f.branch, f.hop + 1)
  {
    var t, key := f.tag, KeyOf(f.tag);
    var (a', out) := Process(a, t);
    assert CoreAt(cfg, t.job, f.branch, f.hop, switch);
    assert IsCore(cfg, t.job, f.branch, switch);
    if !(t.bitmap1 <= a.bitmap) {
      CoreIsNotEdge(cfg, sent, f.branch, switch, a);
      assert a'.bitmap == a.bitmap + {f.branch} && f.branch !in a.bitmap;
      assert CoreSlot(cfg, sent, switch, a');
      if out.Some? {
        EveryBranch(cfg, sent, switch, a');
      }
    }
  }

  /** A core slot that holds as many branches as there are was sent by every worker. */
  lemma EveryBranch(cfg: Config, sent: set<(Key, Worker)>, switch: nat, a: Slot)
    requires a.job in cfg.jobs && CoreSlot(cfg, sent, switch, a) && a.count == |cfg.jobs[a.job].fanIns|
    ensures AllSent(cfg, sent, (a.job, a.seqNum))
  {
    FullBits(a.bitmap, |cfg.jobs[a.job].fanIns|);
    forall w: Worker | IsWorker(cfg.jobs[a.job], w) ensures ((a.job, a.seqNum), w) in sent {
      assert w.0 in a.bitmap && w == (w.0, w.1);
    }
  }

  lemma CoreIsNotEdge(cfg: Config, sent: set<(Key, Worker)>, b: nat, switch: nat, a: Slot)
    requires CoresApart(cfg) && a.job in cfg.jobs && IsCore(cfg, a.job, b, switch)
    ensures !EdgeSlot(cfg, sent, switch, a)
  {
  }

  /** In a safe configuration a later switch, core or not, keeps what is known about a packet
      and about its slots. */
  lemma LaterStep(cfg: Config, sent: set<(Key, Worker)>, f: Flight, switch: nat, a: Slot)
    requires SafeEverywhere(cfg) && Arrives(cfg, sent, f, switch) && SlotOk(cfg, sent, switch, a)
    ensures SwitchOk(cfg, sent, switch, Filter(cfg.hierarchical(switch), a, f.tag), f.branch, f.hop + 1)
  {
    var t := f.tag;
    if AllSent(cfg, sent, KeyOf(t)) {
      AllSentStep(cfg, sent, t, f.branch, f.hop + 1, switch, a);
    } else {
      var i :| i in t.bitmap0 && IsWorker(cfg.jobs[t.job], (f.branch, i));
      if t.collision || (!cfg.hierarchical(switch) && t.edge == 1) {
        Forwarded(cfg, sent, f, switch, i);
      } else if t.resend {
        LaterResend(cfg, sent, f, switch, a);
      } else if a.IsEmpty() || a.Holds(t) {
        CoreProcess(cfg, sent, f, switch, a.(job := t.job, seqNum := t.seqNum));
      } else {
        BuildHonest(cfg, sent, Flight(t.(resend := true, collision := true), f.branch, f.hop + 1), i);
      }
    }
  }

  lemma Forwarded(cfg: Config, sent: set<(Key, Worker)>, f: Flight, switch: nat, i: nat)
    requires Arrives(cfg, sent, f, switch) && Honest(cfg, sent, f)
    requires f.tag.resend || !cfg.hierarchical(switch)
    requires i in f.tag.bitmap0 && IsWorker(cfg.jobs[f.tag.job], (f.branch, i))
    ensures FlightOk(cfg, sent, f.(hop := f.hop + 1))
  {
    BuildHonest(cfg, sent, f.(hop := f.hop + 1), i);
  }

  // ----- the server

  lemma OneWorker(job: Job, v: Worker, w: Worker)
    requires Total(job) == 1 && IsWorker(job, v) && IsWorker(job, w)
    ensures v == w
  {
    PositionInjective(job, v, w);
    PositionInjective(job, w, v);
  }

  /** A packet that reaches the server names only workers that sent it. */
  lemma FlatSent(cfg: Config, sent: set<(Key, Worker)>, f: Flight, w: Worker)
    requires ConfigOk(cfg) && Safe(cfg) && FlightOk(cfg, sent, f)
    requires IsWorker(cfg.jobs[f.tag.job], w)
    requires Position(cfg.jobs[f.tag.job], w) in Flat(TreeOf(cfg.jobs[f.tag.job]), f.tag.bitmap0, f.tag.bitmap1)
    ensures (KeyOf(f.tag), w) in sent
  {
    var t := f.tag;
    var job := cfg.jobs[t.job];
    if AllSent(cfg, sent, KeyOf(t)) {
      assert ((KeyOf(t), w)) in sent;
    } else if job.fullBitmap1 == {f.branch} {
      var i :| i in t.bitmap0 && IsWorker(job, (f.branch, i));
      assert i in t.bitmap0 * Ones(job.fanIns[f.branch]);
      OneWorker(job, w, (f.branch, i));
    } else {
      FlatMeansWorkers(job, t.bitmap0, t.bitmap1);
      assert w.1 in t.bitmap0 * Ones(job.fanIns[f.branch]);
      assert w == (f.branch, w.1);
    }
  }

  lemma ServerStep(cfg: Config, sent: set<(Key, Worker)>, f: Flight, r: Receiver)
    requires ConfigOk(cfg) && Safe(cfg) && FlightOk(cfg, sent, f) && ServerOk(cfg, sent, r)
    ensures ServerOk(cfg, sent, Arrive(TreesOf(cfg.jobs), r, f.tag).0)
  {
    var key := KeyOf(f.tag);
    var job := cfg.jobs[key.0];
    var flat := Flat(TreeOf(job), f.tag.bitmap0, f.tag.bitmap1);
    FlatWithinExpected(job, f.tag.bitmap0, f.tag.bitmap1);
    forall w: Worker | IsWorker(job, w) && Position(job, w) in Merged(r.aggregators, key) + flat
      ensures (key, w) in sent
    {
      if Position(job, w) in flat {
        FlatSent(cfg, sent, f, w);
      }
    }
    MergeSound(cfg, sent, r, key, flat);
  }

  lemma MergeSound(cfg: Config, sent: set<(Key, Worker)>, r: Receiver, key: Key, flat: Bits)
    requires JobsOk(cfg.jobs) && key.0 in cfg.jobs && ServerOk(cfg, sent, r)
    requires flat <= TreeOf(cfg.jobs[key.0]).expected
    requires forall w: Worker | IsWorker(cfg.jobs[key.0], w) ::
               Position(cfg.jobs[key.0], w) in Merged(r.aggregators, key) + flat ==> (key, w) in sent
    ensures ServerOk(cfg, sent, Merge(r, key, flat, TreeOf(cfg.jobs[key.0]).expected).0)
  {
    var job := cfg.jobs[key.0];
    var expected := TreeOf(job).expected;
    var merged := Merged(r.aggregators, key) + flat;
    assert 0 in expected;
    MergeEffect(cfg.jobs, r, key, flat, expected);
    CompleteMeansAllWorkers(job, merged);
    var r' := Merge(r, key, flat, expected).0;
    forall k, w | k in r'.aggregators && k.0 in cfg.jobs && IsWorker(cfg.jobs[k.0], w) &&
                  Position(cfg.jobs[k.0], w) in r'.aggregators[k]
      ensures (k, w) in sent
    {
      assert Merged(r'.aggregators, k) == r'.aggregators[k];
    }
  }

  // ----- every event

  /** Sending more keeps everything that was said about what was sent. */
  lemma SentGrows(cfg: Config, s: State, sent': set<(Key, Worker)>)
    requires Inv(cfg, s) && s.sent <= sent' && forall c :: c in sent' ==> SentOk(cfg, c)
    ensures Inv(cfg, s.(sent := sent'))
  {
    forall f | f in s.first ensures FirstOk(cfg, sent', f) {
      assert FirstOk(cfg, s.sent, f);
    }
    forall f | f in s.net ensures FlightOk(cfg, sent', f) {
      assert FlightOk(cfg, s.sent, f);
    }
    forall k | k in s.slots ensures SlotOk(cfg, sent', k.0, s.slots[k]) {
      assert SlotOk(cfg, s.sent, k.0, s.slots[k]);
    }
  }

  lemma SendKeeps(cfg: Config, s: State, key: Key, w: Worker)
    requires Inv(cfg, s) && SentOk(cfg, (key, w))
    ensures Inv(cfg, s.(sent := s.sent + {(key, w)}, kept := s.kept + {(key, w)},
                        first := s.first + {Original(cfg, key, w)}))
  {
    var sent := s.sent + {(key, w)};
    SentGrows(cfg, s, sent);
  }

  lemma RetransmitKeeps(cfg: Config, s: State, key: Key, w: Worker)
    requires Inv(cfg, s) && (key, w) in s.kept
    ensures SentOk(cfg, (key, w))
    ensures Inv(cfg, s.(first := s.first + {Resent(cfg, key, w)}))
  {
    assert SentOk(cfg, (key, w));
  }

  lemma WorkerAckKeeps(cfg: Config, s: State, j: nat, q: nat, w: Worker)
    requires Inv(cfg, s) && j in cfg.jobs && IsWorker(cfg.jobs[j], w)
    ensures Inv(cfg, s.(kept := s.kept - HeldUpTo(s.kept, j, q, w),
                        first := s.first + Overtaken(cfg, s.kept, j, q, w)))
  {
    forall f | f in Overtaken(cfg, s.kept, j, q, w) ensures FirstOk(cfg, s.sent, f) {
      var c :| c in HeldUpTo(s.kept, j, q, w) && f == Original(cfg, c.0, w);
      assert c == (c.0, w) && SentOk(cfg, c);
    }
  }

  lemma LoseKeeps(cfg: Config, s: State, f: Flight)
    requires Inv(cfg, s)
    ensures Inv(cfg, s.(first := s.first - {f}, net := s.net - {f}))
  {
  }

  lemma EdgeKeeps(cfg: Config, s: State, f: Flight)
    requires ConfigOk(cfg) && CoresApart(cfg) && Inv(cfg, s) && f in s.first
    ensures Inv(cfg, AtSwitch(cfg, s, cfg.edgeOf(f.tag.job, f.branch), f.tag, f.branch, 0))
  {
    var switch := cfg.edgeOf(f.tag.job, f.branch);
    EdgeStep(cfg, s.sent, f, SlotFor(cfg, s, switch, KeyOf(f.tag)));
  }

  lemma LaterKeeps(cfg: Config, s: State, f: Flight, switch: nat)
    requires SafeEverywhere(cfg) && Inv(cfg, s) && f in s.net && f.hop < |cfg.later(f.tag.job, f.branch)|
    requires switch == cfg.later(f.tag.job, f.branch)[f.hop]
    ensures Inv(cfg, AtSwitch(cfg, s, switch, f.tag, f.branch, f.hop + 1))
  {
    LaterStep(cfg, s.sent, f, switch, SlotFor(cfg, s, switch, KeyOf(f.tag)));
  }

  lemma SwitchAckKeeps(cfg: Config, s: State, ack: Tag, switch: nat)
    requires Inv(cfg, s) && ack in s.acks
    ensures Inv(cfg, AtSwitch(cfg, s, switch, ack, 0, 0))
  {
  }

  lemma Preserved(cfg: Config, s: State, e: Event)
    requires SafeEverywhere(cfg) && Inv(cfg, s)
    ensures Inv(cfg, Next(cfg, s, e))
  {
    if Next(cfg, s, e) != s {
      match e
      case Send(key, w) => SendKeeps(cfg, s, key, w);
      case Retransmit(key, w) => RetransmitKeeps(cfg, s, key, w);
      case Lose(f) => LoseKeeps(cfg, s, f);
      case AtEdge(f) => EdgeKeeps(cfg, s, f);
      case AtLater(f) => LaterKeeps(cfg, s, f, cfg.later(f.tag.job, f.branch)[f.hop]);
      case AtServer(f) =>
        ServerStep(cfg, s.sent, f, s.server);
      case AckAtSwitch(ack, switch) => SwitchAckKeeps(cfg, s, ack, switch);
      case AckAtWorker(ack, w) => WorkerAckKeeps(cfg, s, ack.job, ack.seqNum, w);
    }
  }

  /** In a safe configuration, every state of every run is sound. */
  lemma {:induction false} SafeRunsAreSound(cfg: Config, es: seq<Event>)
    requires SafeEverywhere(cfg)
    ensures Inv(cfg, After(cfg, es)) && Sound(cfg, After(cfg, es))
  {
    if es != [] {
      SafeRunsAreSound(cfg, es[..|es| - 1]);
      Preserved(cfg, After(cfg, es[..|es| - 1]), es[|es| - 1]);
    }
  }
}
