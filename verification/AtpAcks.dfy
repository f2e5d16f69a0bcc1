/** Acknowledgements: what they say, and what they free. */
module AtpAcks {
  import opened AtpJobTree
  import opened AtpSwitch
  import opened AtpReceiver
  import opened AtpSystem
  import opened AtpProgress

  /** Whatever was delivered is acknowledged. */
  lemma {:induction false} DeliveredIsAcked(cfg: Config, es: seq<Event>, key: Key)
    requires key in After(cfg, es).server.delivered
    ensures AckTag(key) in After(cfg, es).acks
  {
    var before := After(cfg, es[..|es| - 1]);
    AckedStep(cfg, before, es[|es| - 1], key);
    if key in before.server.delivered {
      DeliveredIsAcked(cfg, es[..|es| - 1], key);
    }
  }

  lemma AckedStep(cfg: Config, s: State, e: Event, key: Key)
    requires key in Next(cfg, s, e).server.delivered
    ensures s.acks <= Next(cfg, s, e).acks
    ensures key in s.server.delivered || AckTag(key) in Next(cfg, s, e).acks
  {
    if e.AtServer? {
      ArriveElsewhere(TreesOf(cfg.jobs), s.server, e.flight.tag);
    }
  }

  lemma ServerIsOk(cfg: Config, es: seq<Event>)
    requires ConfigOk(cfg)
    ensures ReceiverOk(cfg.jobs, After(cfg, es).server)
  {
    var ts := History(cfg, es);
    DeliveredIffCovered(cfg.jobs, ts);
  }

  /** Every acknowledgement is that of a delivered key. */
  ghost predicate AcksOk(s: State) {
    forall ack :: ack in s.acks ==> ack == AckTag(KeyOf(ack)) && KeyOf(ack) in s.server.delivered
  }

  lemma AcksStep(cfg: Config, s: State, e: Event)
    requires ConfigOk(cfg) && ReceiverOk(cfg.jobs, s.server) && AcksOk(s)
    ensures AcksOk(Next(cfg, s, e))
  {
    if e.AtServer? {
      AckedWhenComplete(cfg.jobs, s.server, e.flight.tag);
      DeliveredInOrder(TreesOf(cfg.jobs), s.server, e.flight.tag);
    }
  }

  lemma {:induction false} AckedIsDelivered(cfg: Config, es: seq<Event>)
    requires ConfigOk(cfg)
    ensures AcksOk(After(cfg, es))
  {
    if es != [] {
      AckedIsDelivered(cfg, es[..|es| - 1]);
      ServerIsOk(cfg, es[..|es| - 1]);
      AcksStep(cfg, After(cfg, es[..|es| - 1]), es[|es| - 1]);
    }
  }

  /** In every state of every run, in every mode: a key is acknowledged if and only if it was
      delivered. */
  lemma AckedIffDelivered(cfg: Config, es: seq<Event>, key: Key)
    requires ConfigOk(cfg)
    ensures (exists ack :: ack in After(cfg, es).acks && KeyOf(ack) == key) <==>
            key in After(cfg, es).server.delivered
  {
    AckedIsDelivered(cfg, es);
    if key in After(cfg, es).server.delivered {
      DeliveredIsAcked(cfg, es, key);
      assert KeyOf(AckTag(key)) == key;
    }
  }

  // ----- what an acknowledgement frees

  /** Numbers start at 1, acknowledgements are marked as such, and bits wait only in the slot
      that their key hashes to. */
  ghost predicate Placed(cfg: Config, s: State) {
    && (forall c :: c in s.kept ==> c.0.1 >= 1)
    && (forall f :: f in s.first || f in s.net ==> f.tag.seqNum >= 1)
    && (forall ack :: ack in s.acks ==> ack.isAck && ack.seqNum >= 1)
    && (forall k :: k in s.slots && s.slots[k].bitmap != {} ==> k.1 == cfg.hash(s.slots[k].job, s.slots[k].seqNum))
  }

  lemma PlacedAtSwitch(cfg: Config, s: State, switch: nat, t: Tag, branch: nat, hop: nat)
    requires Placed(cfg, s) && t.seqNum >= 1
    ensures Placed(cfg, AtSwitch(cfg, s, switch, t, branch, hop))
  {
  }

  lemma PlacedAtServer(cfg: Config, s: State, server: Receiver, t: Tag)
    requires Placed(cfg, s) && t.seqNum >= 1
    ensures Placed(cfg, s.(server := server, acks := s.acks + {AckTag(KeyOf(t))}))
    ensures Placed(cfg, s.(server := server))
  {
  }

  lemma PlacedStep(cfg: Config, s: State, e: Event)
    requires Placed(cfg, s)
    ensures Placed(cfg, Next(cfg, s, e))
  {
    if Next(cfg, s, e) != s {
      match e
      case AtEdge(f) => PlacedAtSwitch(cfg, s, cfg.edgeOf(f.tag.job, f.branch), f.tag, f.branch, 0);
      case AtLater(f) =>
        PlacedAtSwitch(cfg, s, cfg.later(f.tag.job, f.branch)[f.hop], f.tag, f.branch, f.hop + 1);
      case AtServer(f) => PlacedAtServer(cfg, s, Next(cfg, s, e).server, f.tag);
      case AckAtSwitch(ack, switch) => PlacedAtSwitch(cfg, s, switch, ack, 0, 0);
      case _ =>
    }
  }

  lemma {:induction false} EverPlaced(cfg: Config, es: seq<Event>)
    ensures Placed(cfg, After(cfg, es))
  {
    if es != [] {
      EverPlaced(cfg, es[..|es| - 1]);
      PlacedStep(cfg, After(cfg, es[..|es| - 1]), es[|es| - 1]);
    }
  }

  /** Switch `c` holds no bits of the key. */
  ghost predicate HoldsNothing(s: State, c: nat, key: Key) {
    forall k :: k in s.slots && k.0 == c && (s.slots[k].job, s.slots[k].seqNum) == key ==> s.slots[k].bitmap == {}
  }

  /** After every run, in every mode: once an acknowledgement has crossed a switch, that switch
      holds nothing of its key, and its other slots are as before. */
  lemma AckFreesSwitch(cfg: Config, es: seq<Event>, ack: Tag, c: nat)
    requires ack in After(cfg, es).acks
    ensures (var s, s' := After(cfg, es), After(cfg, es + [AckAtSwitch(ack, c)]);
             && HoldsNothing(s', c, KeyOf(ack))
             && (forall k :: k != (c, cfg.hash(ack.job, ack.seqNum)) ==> SlotAt(s'.slots, k) == SlotAt(s.slots, k))
             && s' == s.(slots := s'.slots))
  {
    var s := After(cfg, es);
    var run := es + [AckAtSwitch(ack, c)];
    assert run[..|run| - 1] == es;
    EverPlaced(cfg, es);
    EverPlaced(cfg, run);
    AckFrees(cfg.hierarchical(c), SlotFor(cfg, s, c, KeyOf(ack)), ack);
  }
}
