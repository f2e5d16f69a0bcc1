/** What is lost for good. A sender drops a packet from its queue when a later one is
    acknowledged, whether it arrived or not. Once nothing of a packet is under way and a worker
    no longer holds it, no continuation delivers it. */
module AtpLoss {
  import opened AtpJobTree
  import opened AtpSwitch
  import opened AtpReceiver
  import opened AtpSystem
  import opened AtpSafety
  import opened AtpProgress
  import opened AtpAcks
  import AtpSender

  /** The numbers that worker `w` holds of job `j` are those in the queue of its sender. */
  ghost predicate Follows(s: State, j: nat, w: Worker, t: AtpSender.Tx) {
    forall q: nat :: ((j, q), w) in s.kept <==> q in AtpSender.KeptNumbers(t)
  }

  ghost predicate SentAgain(cfg: Config, frames: seq<AtpSender.Frame>, j: nat, w: Worker, f: Flight)
    requires j in cfg.jobs && w.0 < |cfg.jobs[j].fanIns|
  {
    exists q: nat :: AtpSender.Frame(q, false) in frames && f == Original(cfg, (j, q), w)
  }

  /** An acknowledgement does to a worker what it does to its sender: the same numbers are
      kept, and the same packets are sent once more. */
  lemma WorkerFollowsSender(cfg: Config, s: State, ack: Tag, w: Worker, t: AtpSender.Tx, window: nat)
    requires ack in s.acks && ack.job in cfg.jobs && IsWorker(cfg.jobs[ack.job], w)
    requires AtpSender.TxOk(t) && window >= 1 && Follows(s, ack.job, w, t)
    ensures (var s', t' := Next(cfg, s, AckAtWorker(ack, w)), AtpSender.Ack(t, ack.seqNum, window);
             && Follows(s', ack.job, w, t') && t.wire <= t'.wire
             && forall f :: f in s'.first <==>
                            f in s.first || SentAgain(cfg, t'.wire[|t.wire|..], ack.job, w, f))
  {
    var s', t' := Next(cfg, s, AckAtWorker(ack, w)), AtpSender.Ack(t, ack.seqNum, window);
    AtpSender.AckKept(t, ack.seqNum, window);
    forall q: nat ensures ((ack.job, q), w) in s'.kept <==> q in AtpSender.KeptNumbers(t') {
      assert ((ack.job, q), w) in s.kept <==> q in AtpSender.KeptNumbers(t);
    }
    var frames := t'.wire[|t.wire|..];
    forall f ensures f in Overtaken(cfg, s.kept, ack.job, ack.seqNum, w) <==> SentAgain(cfg, frames, ack.job, w, f) {
      if f in Overtaken(cfg, s.kept, ack.job, ack.seqNum, w) {
        var c :| c in HeldUpTo(s.kept, ack.job, ack.seqNum, w) && c.0.1 < ack.seqNum && f == Original(cfg, c.0, w);
        assert c == ((ack.job, c.0.1), w) && AtpSender.Frame(c.0.1, false) in frames;
      }
      if SentAgain(cfg, frames, ack.job, w, f) {
        var q: nat :| AtpSender.Frame(q, false) in frames && f == Original(cfg, (ack.job, q), w);
        var c := ((ack.job, q), w);
        assert c in HeldUpTo(s.kept, ack.job, ack.seqNum, w) && c.0.1 < ack.seqNum;
      }
    }
  }

  /** The same state, had `c` never been sent. */
  function Without(s: State, c: (Key, Worker)): State {
    s.(sent := s.sent - {c})
  }

  ghost predicate Dropped(s: State, c: (Key, Worker)) {
    c in s.sent && c !in s.kept
  }

  /** A dropped packet stays dropped, and every event does the same with it and without it. */
  lemma NextWithout(cfg: Config, s: State, e: Event, c: (Key, Worker))
    requires Dropped(s, c)
    ensures Dropped(Next(cfg, s, e), c)
    ensures Next(cfg, s, e) == s || Without(Next(cfg, s, e), c) == Next(cfg, Without(s, c), e)
  {
    if e.Send? && (e.key, e.w) != c {
      assert s.sent + {(e.key, e.w)} - {c} == s.sent - {c} + {(e.key, e.w)};
    }
  }

  /** The worker has dropped the packet, and all that is known about the state would also hold
      had it never been sent. */
  ghost predicate Gone(cfg: Config, s: State, c: (Key, Worker)) {
    Dropped(s, c) && Inv(cfg, Without(s, c))
  }

  lemma NextGone(cfg: Config, s: State, e: Event, c: (Key, Worker))
    requires SafeEverywhere(cfg) && Gone(cfg, s, c)
    ensures Gone(cfg, Next(cfg, s, e), c)
  {
    NextWithout(cfg, s, e, c);
    if Next(cfg, s, e) != s {
      Preserved(cfg, Without(s, c), e);
    }
  }

  lemma {:induction false} StaysGone(cfg: Config, es: seq<Event>, more: seq<Event>, c: (Key, Worker))
    requires SafeEverywhere(cfg) && Gone(cfg, After(cfg, es), c)
    ensures Gone(cfg, After(cfg, es + more), c)
  {
    if more == [] {
      assert es + more == es;
    } else {
      var n := |more| - 1;
      StaysGone(cfg, es, more[..n], c);
      assert (es + more)[..|es + more| - 1] == es + more[..n];
      NextGone(cfg, After(cfg, es + more[..n]), more[n], c);
    }
  }

  /** No continuation delivers the key of a packet that is gone. */
  lemma GoneForGood(cfg: Config, es: seq<Event>, more: seq<Event>, key: Key, w: Worker)
    requires SafeEverywhere(cfg) && key.0 in cfg.jobs && IsWorker(cfg.jobs[key.0], w)
    requires Gone(cfg, After(cfg, es), (key, w))
    ensures key !in After(cfg, es + more).server.delivered
  {
    StaysGone(cfg, es, more, (key, w));
  }

  /** A packet of which nothing is under way and which has no bit at the server: the state is
      one in which it might never have been sent. */
  lemma QuietWithout(cfg: Config, s: State, key: Key, w: Worker)
    requires Inv(cfg, s) && key.0 in cfg.jobs && IsWorker(cfg.jobs[key.0], w) && Quiet(s, key)
    requires (key, w) !in s.kept && key !in s.server.delivered
    requires Position(cfg.jobs[key.0], w) !in Merged(s.server.aggregators, key)
    ensures Inv(cfg, Without(s, (key, w)))
  {
    var sent := s.sent - {(key, w)};
    forall f | f in s.first ensures FirstOk(cfg, sent, f) {
      assert FirstOk(cfg, s.sent, f);
    }
    forall f | f in s.net ensures FlightOk(cfg, sent, f) {
      assert FlightOk(cfg, s.sent, f);
    }
    forall k | k in s.slots ensures SlotOk(cfg, sent, k.0, s.slots[k]) {
      assert SlotOk(cfg, s.sent, k.0, s.slots[k]);
    }
  }

  /** In a safe configuration, once all workers sent a packet and nothing of it is in flight or
      in a slot: some continuation delivers it if and only if it was delivered, or each worker
      still holds it or has its bit at the server. */
  lemma DeliverableIff(cfg: Config, es: seq<Event>, key: Key)
    requires SafeEverywhere(cfg) && key.0 in cfg.jobs
    requires AllSent(cfg, After(cfg, es).sent, key) && Quiet(After(cfg, es), key)
    ensures (exists more: seq<Event> :: key in After(cfg, es + more).server.delivered) <==>
            Recoverable(cfg, After(cfg, es), key)
  {
    var s := After(cfg, es);
    if Recoverable(cfg, s, key) {
      CanStillDeliver(cfg, es, key);
    } else {
      var w: Worker :| IsWorker(cfg.jobs[key.0], w) && (key, w) !in s.kept &&
                       Position(cfg.jobs[key.0], w) !in Merged(s.server.aggregators, key);
      SafeRunsAreSound(cfg, es);
      QuietWithout(cfg, s, key, w);
      forall more: seq<Event> ensures key !in After(cfg, es + more).server.delivered {
        GoneForGood(cfg, es, more, key, w);
      }
    }
  }

  // ----- it happens

  /** A worker sends, and the packet is lost. */
  lemma SendAndLose(cfg: Config, s: State, key: Key, w: Worker) returns (s': State)
    requires key.0 in cfg.jobs && key.1 >= 1 && IsWorker(cfg.jobs[key.0], w)
    requires Leads(cfg, [], s) && (key, w) !in s.sent
    ensures Leads(cfg, [], s')
    ensures s'.sent == s.sent + {(key, w)}
    ensures s'.kept == s.kept + {(key, w)}
    ensures s'.first <= s.first && s'.net <= s.net
    ensures s'.slots == s.slots && s'.server == s.server
  {
    Step(cfg, [], s, Send(key, w));
    var s1 := Next(cfg, s, Send(key, w));
    Step(cfg, [], s1, Lose(Original(cfg, key, w)));
    s' := Next(cfg, s1, Lose(Original(cfg, key, w)));
  }

  /** All workers send, and all of it is lost. */
  lemma {:induction false} SendInVain(cfg: Config, s: State, key: Key, p: nat) returns (s': State)
    requires key.0 in cfg.jobs && key.1 >= 1 && p <= Total(cfg.jobs[key.0]) && Leads(cfg, [], s)
    requires forall c :: c in s.sent ==> c.0 != key
    ensures Leads(cfg, [], s') && s.sent <= s'.sent && s.kept <= s'.kept
    ensures s'.first <= s.first && s'.net <= s.net
    ensures s'.slots == s.slots && s'.server == s.server
    ensures forall c :: c in s'.sent - s.sent ==>
              c.0 == key && IsWorker(cfg.jobs[key.0], c.1) && Position(cfg.jobs[key.0], c.1) < p
    ensures forall w: Worker :: IsWorker(cfg.jobs[key.0], w) && Position(cfg.jobs[key.0], w) < p ==>
              (key, w) in s'.sent && (key, w) in s'.kept
  {
    var job := cfg.jobs[key.0];
    if p == 0 {
      s' := s;
    } else {
      var s1 := SendInVain(cfg, s, key, p - 1);
      var next := WorkerAt(job.fanIns, |job.fanIns|, p - 1);
      forall w: Worker | IsWorker(job, w) && Position(job, w) == p - 1 ensures w == next {
        PositionInjective(job, w, next);
      }
      s' := SendAndLose(cfg, s1, key, next);
    }
  }

  /** The acknowledgement of packet 2 makes a worker drop packet 1; it is sent once more, and
      lost again. */
  lemma DropFirst(cfg: Config, s: State, j: nat, w: Worker) returns (s': State)
    requires j in cfg.jobs && IsWorker(cfg.jobs[j], w) && Leads(cfg, [], s)
    requires AckTag((j, 2)) in s.acks && Quiet(s, (j, 1))
    ensures Leads(cfg, [], s') && s'.sent == s.sent
    ensures s'.server == s.server
    ensures ((j, 1), w) !in s'.kept && Quiet(s', (j, 1))
  {
    var ack, f := AckTag((j, 2)), Original(cfg, (j, 1), w);
    Step(cfg, [], s, AckAtWorker(ack, w));
    var s1 := Next(cfg, s, AckAtWorker(ack, w));
    assert ((j, 1), w) in s.kept ==> ((j, 1), w) in HeldUpTo(s.kept, j, 2, w);
    Step(cfg, [], s1, Lose(f));
    s' := Next(cfg, s1, Lose(f));
    forall x | x in s'.first ensures KeyOf(x.tag) != (j, 1) {
      if x in Overtaken(cfg, s.kept, j, 2, w) {
        var c :| c in HeldUpTo(s.kept, j, 2, w) && c.0.1 < 2 && x == Original(cfg, c.0, w);
        assert c.0 == (j, 1) ==> x == f;
      }
    }
  }

  /** In every safe configuration and for every job there is a run after which a packet that all
      workers sent can never be delivered. */
  lemma LosingRun(cfg: Config, j: nat) returns (es: seq<Event>)
    requires SafeEverywhere(cfg) && j in cfg.jobs
    ensures AllSent(cfg, After(cfg, es).sent, (j, 1))
    ensures forall more: seq<Event> :: (j, 1) !in After(cfg, es + more).server.delivered
  {
    var lost, late := (j, 1), (j, 2);
    var w := WorkerAt(cfg.jobs[j].fanIns, |cfg.jobs[j].fanIns|, 0);
    Here(cfg, []);
    var total := Total(cfg.jobs[j]);
    var s := SendInVain(cfg, Init, lost, total);
    s := SendInVain(cfg, s, late, total);
    forall w: Worker | IsWorker(cfg.jobs[j], w) ensures Position(cfg.jobs[j], w) < total {
      PositionInjective(cfg.jobs[j], w, w);
    }
    assert Quiet(s, lost) && s.server == NewReceiver;
    assert AllSent(cfg, s.sent, lost);
    assert Received(cfg.jobs, s.server, [], late, {});
    s := DeliverRest(cfg, [], s, late, {});
    var run: seq<Event> :| After(cfg, [] + run) == s;
    DeliveredIsAcked(cfg, [] + run, late);
    s := DropFirst(cfg, s, j, w);
    es :| After(cfg, [] + es) == s;
    assert [] + es == es;
    assert !Recoverable(cfg, s, lost);
    DeliverableIff(cfg, es, lost);
  }
}
