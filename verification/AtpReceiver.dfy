/** The receiving side of the socket at the parameter server: packets that are not fully
    aggregated are merged here, and each (job, sequence number) is handed to the
    application when it is complete. */
module AtpReceiver {
  import opened AtpJobTree
  import opened AtpSwitch
  import opened Sequences

  /** (job, sequence number) */
  type Key = (nat, nat)

  // ----- the receive window of a job

  /** Every number below `rcvNext` has been received, and those in `outOfOrder`. */
  datatype Window = Window(rcvNext: nat, outOfOrder: set<nat>)

  const NewWindow := Window(0, {})

  ghost predicate Seen(w: Window, q: nat) {
    q < w.rcvNext || q in w.outOfOrder
  }

  ghost predicate WindowOk(w: Window) {
    forall x :: x in w.outOfOrder ==> x > w.rcvNext
  }

  function Advance(w: Window): Window
    decreases w.outOfOrder
  {
    if w.rcvNext in w.outOfOrder then
      Advance(Window(w.rcvNext + 1, w.outOfOrder - {w.rcvNext}))
    else w
  }

  function Update(w: Window, q: nat): Window {
    if q == w.rcvNext then Advance(w.(rcvNext := q + 1))
    else if q > w.rcvNext then w.(outOfOrder := w.outOfOrder + {q})
    else w
  }

  predicate IsDuplicate(w: Window, q: nat) {
    q < w.rcvNext || (q > w.rcvNext && q in w.outOfOrder)
  }

  lemma {:induction false} AdvanceKeeps(w: Window)
    requires forall x :: x in w.outOfOrder ==> x >= w.rcvNext
    ensures WindowOk(Advance(w)) && Advance(w).rcvNext >= w.rcvNext
    ensures forall x :: Seen(Advance(w), x) <==> Seen(w, x)
    decreases w.outOfOrder
  {
    if w.rcvNext in w.outOfOrder {
      AdvanceKeeps(Window(w.rcvNext + 1, w.outOfOrder - {w.rcvNext}));
    }
  }

  /** Receiving `q` adds exactly `q` to the numbers the window knows, and the duplicate
      test is exactly membership. */
  lemma UpdateAddsOne(w: Window, q: nat)
    requires WindowOk(w)
    ensures WindowOk(Update(w, q))
    ensures forall x :: Seen(Update(w, q), x) <==> Seen(w, x) || x == q
    ensures IsDuplicate(w, q) <==> Seen(w, q)
  {
    if q == w.rcvNext {
      AdvanceKeeps(w.(rcvNext := q + 1));
    }
  }

  // ----- one arrival

  datatype Receiver = Receiver(aggregators: map<Key, Bits>, windows: map<nat, Window>,
                               delivered: seq<Key>)

  const NewReceiver := Receiver(map[], map[], [])

  function WindowOf(windows: map<nat, Window>, j: nat): Window {
    if j in windows then windows[j] else NewWindow
  }

  function Merged(aggregators: map<Key, Bits>, key: Key): Bits {
    if key in aggregators then aggregators[key] else {}
  }

  function Deliver(r: Receiver, key: Key): Receiver {
    var w := WindowOf(r.windows, key.0);
    if IsDuplicate(w, key.1) then r
    else r.(windows := r.windows[key.0 := Update(w, key.1)], delivered := r.delivered + [key])
  }

  /** A packet for `key` brings the bits `flat`. The new state, and whether an
      acknowledgement is scheduled. */
  function Merge(r: Receiver, key: Key, flat: Bits, expected: Bits): (Receiver, bool) {
    if flat == expected then (Deliver(r, key), true)
    else
      var merged := Merged(r.aggregators, key) + flat;
      if merged == expected then (Deliver(r.(aggregators := r.aggregators - {key}), key), true)
      else (r.(aggregators := r.aggregators[key := merged]), false)
  }

  function Arrive(trees: map<nat, JobTree>, r: Receiver, t: Tag): (Receiver, bool) {
    if t.isAck || t.job !in trees then (r, false)
    else Merge(r, (t.job, t.seqNum), Flat(trees[t.job], t.bitmap0, t.bitmap1), trees[t.job].expected)
  }

  class Socket {
    const trees: map<nat, JobTree>
    var aggregators: map<Key, Bits>
    var rcvWindows: map<nat, Window>
    /** Everything handed to the application so far, in order. */
    var delivered: seq<Key>

    function State(): Receiver
      reads this
    {
      Receiver(aggregators, rcvWindows, delivered)
    }

    constructor (trees: map<nat, JobTree>)
      ensures State() == NewReceiver && this.trees == trees
    {
      this.trees := trees;
      aggregators, rcvWindows, delivered := map[], map[], [];
    }

    method IsDuplicatePacket(job: nat, q: nat) returns (duplicate: bool)
      ensures duplicate == IsDuplicate(WindowOf(rcvWindows, job), q)
    {
      var win := WindowOf(rcvWindows, job);
      if q < win.rcvNext {
        return true;
      }
      if q > win.rcvNext {
        return q in win.outOfOrder;
      }
      return false;
    }

    method UpdateRcvWindow(job: nat, q: nat)
      modifies this`rcvWindows
      ensures rcvWindows == old(rcvWindows)[job := Update(WindowOf(old(rcvWindows), job), q)]
    {
      var win := WindowOf(rcvWindows, job);
      if q == win.rcvNext {
        win := win.(rcvNext := win.rcvNext + 1);
        while win.rcvNext in win.outOfOrder
          invariant Advance(win) == Update(WindowOf(old(rcvWindows), job), q)
          decreases win.outOfOrder
        {
          win := Window(win.rcvNext + 1, win.outOfOrder - {win.rcvNext});
        }
      } else if q > win.rcvNext {
        win := win.(outOfOrder := win.outOfOrder + {q});
      }
      rcvWindows := rcvWindows[job := win];
    }

    method DeliverOnce(key: Key)
      modifies this
      ensures State() == Deliver(old(State()), key)
    {
      var duplicate := IsDuplicatePacket(key.0, key.1);
      if !duplicate {
        UpdateRcvWindow(key.0, key.1);
        delivered := delivered + [key];
      }
    }

    method ForwardUp(t: Tag) returns (sendAck: bool)
      modifies this
      ensures (State(), sendAck) == Arrive(trees, old(State()), t)
    {
      if t.isAck || t.job !in trees {
        return false;
      }
      var flat := ConvertToFlatBitmap(trees[t.job], t.bitmap0, t.bitmap1);
      if flat == trees[t.job].expected {
        DeliverOnce((t.job, t.seqNum));
        sendAck := true;
      } else {
        sendAck := AggregatePacket(t, flat);
      }
    }

    method AggregatePacket(t: Tag, flat: Bits) returns (complete: bool)
      requires t.job in trees && flat != trees[t.job].expected
      modifies this
      ensures (State(), complete) ==
              Merge(old(State()), (t.job, t.seqNum), flat, trees[t.job].expected)
    {
      var key := (t.job, t.seqNum);
      if key !in aggregators {
        aggregators := aggregators[key := {}];
      }
      ghost var merged := Merged(old(aggregators), key) + flat;
      if flat - aggregators[key] != {} {
        aggregators := aggregators[key := aggregators[key] + flat];
      } else {
        assert forall x :: x in flat ==> x in flat - aggregators[key] || x in aggregators[key];
      }
      assert aggregators[key] == merged;
      assert aggregators == old(aggregators)[key := merged];
      complete := aggregators[key] == trees[t.job].expected;
      if complete {
        aggregators := aggregators - {key};
        assert aggregators == old(aggregators) - {key};
        DeliverOnce(key);
      }
    }
  }

  // ----- every sequence of arrivals

  function TreesOf(jobs: map<nat, Job>): map<nat, JobTree> {
    map j | j in jobs :: TreeOf(jobs[j])
  }

  ghost predicate JobsOk(jobs: map<nat, Job>) {
    forall j :: j in jobs ==> WellFormed(jobs[j])
  }

  function ReceiveAll(jobs: map<nat, Job>, ts: seq<Tag>): Receiver {
    if ts == [] then NewReceiver
    else Arrive(TreesOf(jobs), ReceiveAll(jobs, ts[..|ts| - 1]), ts[|ts| - 1]).0
  }

  /** The flat bits a packet brings for `key`. */
  function FlatFor(jobs: map<nat, Job>, t: Tag, key: Key): Bits {
    if t.isAck || t.job !in jobs || (t.job, t.seqNum) != key then {}
    else Flat(TreeOf(jobs[t.job]), t.bitmap0, t.bitmap1)
  }

  /** All the flat bits that arrived for `key`. */
  function Claimed(jobs: map<nat, Job>, ts: seq<Tag>, key: Key): Bits {
    if ts == [] then {}
    else Claimed(jobs, ts[..|ts| - 1], key) + FlatFor(jobs, ts[|ts| - 1], key)
  }

  /** The window of each job knows exactly what was delivered, and nothing was delivered
      twice. */
  ghost predicate DeliveredOk(windows: map<nat, Window>, delivered: seq<Key>) {
    && (forall j: nat :: WindowOk(WindowOf(windows, j)))
    && (forall key: Key :: Seen(WindowOf(windows, key.0), key.1) <==> key in delivered)
    && Distinct(delivered)
  }

  /** Only known jobs wait, and no complete set of bits is left waiting. */
  ghost predicate WaitingOk(jobs: map<nat, Job>, aggregators: map<Key, Bits>) {
    forall k :: k in aggregators ==>
      k.0 in jobs && aggregators[k] <= TreeOf(jobs[k.0]).expected &&
      aggregators[k] != TreeOf(jobs[k.0]).expected
  }

  ghost predicate ReceiverOk(jobs: map<nat, Job>, r: Receiver) {
    DeliveredOk(r.windows, r.delivered) && WaitingOk(jobs, r.aggregators)
  }

  lemma FlatWithinExpected(job: Job, bitmap0: Bits, bitmap1: Bits)
    requires WellFormed(job)
    ensures Flat(TreeOf(job), bitmap0, bitmap1) <= TreeOf(job).expected
    ensures TreeOf(job).expected != {}
  {
    if bitmap1 != job.fullBitmap1 {
      FlatMeansWorkers(job, bitmap0, bitmap1);
    }
    assert 0 in TreeOf(job).expected;
  }

  lemma DeliverKeeps(r: Receiver, key: Key)
    requires DeliveredOk(r.windows, r.delivered)
    ensures DeliveredOk(Deliver(r, key).windows, Deliver(r, key).delivered)
    ensures Deliver(r, key).aggregators == r.aggregators
    ensures forall k :: k in Deliver(r, key).delivered <==> k in r.delivered || k == key
  {
    var w := WindowOf(r.windows, key.0);
    UpdateAddsOne(w, key.1);
    var r' := Deliver(r, key);
    assert Seen(w, key.1) <==> key in r.delivered;
    if !IsDuplicate(w, key.1) {
      forall j: nat ensures WindowOk(WindowOf(r'.windows, j)) {
        assert WindowOk(WindowOf(r.windows, j));
      }
      forall k: Key ensures Seen(WindowOf(r'.windows, k.0), k.1) <==> k in r'.delivered {
        assert Seen(WindowOf(r.windows, k.0), k.1) <==> k in r.delivered;
      }
    }
  }

  /** One packet with some of the bits expected for its key: the key is delivered exactly
      when it was already or its bits are now complete, and otherwise the new bits wait
      with the old ones. Nothing changes for another key. */
  lemma MergeEffect(jobs: map<nat, Job>, r: Receiver, key: Key, flat: Bits, expected: Bits)
    requires ReceiverOk(jobs, r) && key.0 in jobs
    requires expected == TreeOf(jobs[key.0]).expected && flat <= expected && expected != {}
    ensures (var r' := Merge(r, key, flat, expected).0;
             var merged := Merged(r.aggregators, key) + flat;
             && ReceiverOk(jobs, r')
             && (forall k: Key ::
                   (k in r'.delivered <==> k in r.delivered || (k == key && merged == expected)))
             && (key !in r'.delivered ==> Merged(r'.aggregators, key) == merged)
             && (forall k: Key :: k != key ==> Merged(r'.aggregators, k) == Merged(r.aggregators, k)))
  {
    assert Merged(r.aggregators, key) <= expected && Merged(r.aggregators, key) != expected;
    if flat == expected {
      DeliverKeeps(r, key);
    } else if Merged(r.aggregators, key) + flat == expected {
      Released(jobs, r.aggregators, key);
      DeliverKeeps(r.(aggregators := r.aggregators - {key}), key);
    } else {
      Waits(jobs, r.aggregators, key, Merged(r.aggregators, key) + flat);
    }
  }

  lemma Released(jobs: map<nat, Job>, aggregators: map<Key, Bits>, key: Key)
    requires WaitingOk(jobs, aggregators)
    ensures WaitingOk(jobs, aggregators - {key})
    ensures forall k: Key :: k != key ==> Merged(aggregators - {key}, k) == Merged(aggregators, k)
  {
  }

  lemma Waits(jobs: map<nat, Job>, aggregators: map<Key, Bits>, key: Key, bits: Bits)
    requires WaitingOk(jobs, aggregators) && key.0 in jobs
    requires bits <= TreeOf(jobs[key.0]).expected && bits != TreeOf(jobs[key.0]).expected
    ensures WaitingOk(jobs, aggregators[key := bits]) && Merged(aggregators[key := bits], key) == bits
    ensures forall k: Key :: k != key ==> Merged(aggregators[key := bits], k) == Merged(aggregators, k)
  {
  }

  lemma ArriveEffect(jobs: map<nat, Job>, r: Receiver, t: Tag)
    requires JobsOk(jobs) && ReceiverOk(jobs, r)
    ensures (var r' := Arrive(TreesOf(jobs), r, t).0;
             && ReceiverOk(jobs, r')
             && forall key: Key :: key.0 in jobs ==>
                  (var merged := Merged(r.aggregators, key) + FlatFor(jobs, t, key);
                   && (key in r'.delivered <==>
                         key in r.delivered || merged == TreeOf(jobs[key.0]).expected)
                   && (key !in r'.delivered ==> Merged(r'.aggregators, key) == merged)))
  {
    forall key: Key | key.0 in jobs
      ensures Merged(r.aggregators, key) + {} == Merged(r.aggregators, key)
      ensures Merged(r.aggregators, key) != TreeOf(jobs[key.0]).expected
    {
      FlatWithinExpected(jobs[key.0], {}, {});
    }
    if !t.isAck && t.job in jobs {
      FlatWithinExpected(jobs[t.job], t.bitmap0, t.bitmap1);
      var tree := TreeOf(jobs[t.job]);
      MergeEffect(jobs, r, (t.job, t.seqNum), Flat(tree, t.bitmap0, t.bitmap1), tree.expected);
    }
  }

  /** A packet is acknowledged if and only if it completes its key, by its own bits or with
      those that wait; then the key has been delivered. */
  lemma AckedWhenComplete(jobs: map<nat, Job>, r: Receiver, t: Tag)
    requires JobsOk(jobs) && ReceiverOk(jobs, r)
    ensures (var (r', ack) := Arrive(TreesOf(jobs), r, t);
             var key := (t.job, t.seqNum);
             && (ack <==> !t.isAck && t.job in jobs &&
                          Merged(r.aggregators, key) + FlatFor(jobs, t, key) == TreeOf(jobs[t.job]).expected)
             && (ack ==> key in r'.delivered))
  {
    var key := (t.job, t.seqNum);
    ArriveEffect(jobs, r, t);
    if t.job in jobs {
      FlatWithinExpected(jobs[t.job], t.bitmap0, t.bitmap1);
      assert Merged(r.aggregators, key) <= TreeOf(jobs[t.job]).expected;
    }
  }

  /** What was handed to the application stays, in order; at most this packet's key is added. */
  lemma DeliveredInOrder(trees: map<nat, JobTree>, r: Receiver, t: Tag)
    ensures Arrive(trees, r, t).0.delivered == r.delivered ||
            Arrive(trees, r, t).0.delivered == r.delivered + [(t.job, t.seqNum)]
  {
  }

  ghost predicate CoveredIffDelivered(jobs: map<nat, Job>, ts: seq<Tag>, key: Key)
    requires key.0 in jobs
  {
    var r := ReceiveAll(jobs, ts);
    && (key in r.delivered <==> Claimed(jobs, ts, key) == TreeOf(jobs[key.0]).expected)
    && (key !in r.delivered ==> Merged(r.aggregators, key) == Claimed(jobs, ts, key))
    && Claimed(jobs, ts, key) <= TreeOf(jobs[key.0]).expected
  }

  lemma FlatForWithinExpected(jobs: map<nat, Job>, t: Tag, key: Key)
    requires JobsOk(jobs) && key.0 in jobs
    ensures FlatFor(jobs, t, key) <= TreeOf(jobs[key.0]).expected
  {
    FlatWithinExpected(jobs[key.0], t.bitmap0, t.bitmap1);
  }

  /** For every sequence of arrivals, in any order and with any repetition: a key has been
      delivered if and only if the arrivals for it together name every worker's bit; each
      key is delivered at most once. */
  lemma {:induction false} DeliveredIffCovered(jobs: map<nat, Job>, ts: seq<Tag>)
    requires JobsOk(jobs)
    ensures ReceiverOk(jobs, ReceiveAll(jobs, ts))
    ensures forall key: Key :: key.0 in jobs ==> CoveredIffDelivered(jobs, ts, key)
  {
    if ts == [] {
      forall key: Key | key.0 in jobs ensures CoveredIffDelivered(jobs, ts, key) {
        FlatWithinExpected(jobs[key.0], {}, {});
      }
    } else {
      var before, t := ts[..|ts| - 1], ts[|ts| - 1];
      DeliveredIffCovered(jobs, before);
      ArriveEffect(jobs, ReceiveAll(jobs, before), t);
      forall key: Key | key.0 in jobs ensures CoveredIffDelivered(jobs, ts, key) {
        assert CoveredIffDelivered(jobs, before, key);
        FlatForWithinExpected(jobs, t, key);
      }
    }
  }

  /** Sequence numbers start at 1 while the window expects 0 first, so it never advances:
      every delivered number stays in the out-of-order set. */
  lemma {:induction false} WindowNeverAdvances(jobs: map<nat, Job>, ts: seq<Tag>, j: nat)
    requires JobsOk(jobs)
    requires forall t :: t in ts ==> t.seqNum >= 1
    ensures WindowOf(ReceiveAll(jobs, ts).windows, j).rcvNext == 0
    ensures forall q: nat :: q in WindowOf(ReceiveAll(jobs, ts).windows, j).outOfOrder <==>
                        (j, q) in ReceiveAll(jobs, ts).delivered
  {
    var r := ReceiveAll(jobs, ts);
    if ts != [] {
      WindowNeverAdvances(jobs, ts[..|ts| - 1], j);
    }
    DeliveredIffCovered(jobs, ts);
    forall q: nat ensures q in WindowOf(r.windows, j).outOfOrder <==> (j, q) in r.delivered {
      var key := (j, q);
      assert Seen(WindowOf(r.windows, key.0), key.1) <==> key in r.delivered;
    }
  }
}
