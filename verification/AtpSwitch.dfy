/** The aggregation stage of a switch: a table of aggregator slots indexed by a hash of
    (job, sequence number). The hash is a parameter, so everything holds for every
    pattern of collisions. */
module AtpSwitch {
  import opened AtpJobTree
  import opened Wrappers

  /** The fields of the packet tag that decide how a packet is aggregated. `edge` is the
      edge switch identifier: 0 before the first aggregation, 1 after it. */
  datatype Tag = Tag(job: nat, seqNum: nat, fanIn0: nat, fanIn1: nat, bitmap0: Bits, bitmap1: Bits,
                     isAck: bool, resend: bool, collision: bool, edge: nat)

  datatype Slot = Slot(bitmap: Bits, count: nat, job: nat, seqNum: nat) {
    predicate IsEmpty() {
      count == 0
    }

    predicate Holds(t: Tag) {
      job == t.job && seqNum == t.seqNum
    }
  }

  const EmptySlot := Slot({}, 0, 0, 0)

  // ----- what one packet does to the slot it hashes to

  function Process(a: Slot, t: Tag): (Slot, Option<Tag>) {
    var bits := if t.edge == 0 then t.bitmap0 else t.bitmap1;
    var fanIn := if t.edge == 0 then t.fanIn0 else t.fanIn1;
    if bits <= a.bitmap then (a, None)
    else
      var a' := a.(bitmap := a.bitmap + bits, count := a.count + 1);
      if a'.count != fanIn then (a', None)
      else if t.edge == 0 then (a', Some(t.(edge := 1, bitmap0 := a'.bitmap)))
      else if t.edge == 1 then (a', Some(t.(edge := 0, bitmap1 := a'.bitmap)))
      else (a', Some(t.(edge := 0)))
  }

  function Resend(a: Slot, t: Tag): (Slot, Option<Tag>) {
    if !a.Holds(t) then (a, Some(t))
    else if t.edge == 0 && !(t.bitmap0 <= a.bitmap) then
      (EmptySlot, Some(t.(edge := 1, bitmap0 := a.bitmap + t.bitmap0)))
    else (EmptySlot, Some(t))
  }

  function Aggregate(a: Slot, t: Tag): (Slot, Option<Tag>) {
    if t.resend then Resend(a, t)
    else if a.IsEmpty() then Process(a.(job := t.job, seqNum := t.seqNum), t)
    else if a.Holds(t) then Process(a, t)
    else (a, Some(t.(resend := true, collision := true)))
  }

  /** The new slot, and the packet that is forwarded if there is one. */
  function Filter(hierarchical: bool, a: Slot, t: Tag): (Slot, Option<Tag>) {
    if t.isAck then (if a.Holds(t) then EmptySlot else a, Some(t))
    else if t.collision || (!hierarchical && t.edge == 1) then (a, Some(t))
    else Aggregate(a, t)
  }

  // ----- what that means

  /** An acknowledgement always goes on, and frees the slot if and only if it is held by its
      job and number. */
  lemma AckFrees(hierarchical: bool, a: Slot, t: Tag)
    requires t.isAck && t.seqNum >= 1
    ensures (var (a', out) := Filter(hierarchical, a, t);
             && out == Some(t) && !a'.Holds(t)
             && (if a.Holds(t) then a'.IsEmpty() && a'.bitmap == {} else a' == a))
  {
  }

  /** A packet that collided before, and in the single-layer mode one that was aggregated
      before, is forwarded as it is and leaves the slot alone. */
  lemma ForwardedAsIs(hierarchical: bool, a: Slot, t: Tag)
    requires !t.isAck && (t.collision || (!hierarchical && t.edge == 1))
    ensures Filter(hierarchical, a, t) == (a, Some(t))
  {
  }

  /** The packet is to be aggregated and finds the slot taken by another job or number. */
  predicate Collides(hierarchical: bool, a: Slot, t: Tag) {
    && !t.isAck && !t.collision && !t.resend && (hierarchical || t.edge != 1)
    && !a.IsEmpty() && !a.Holds(t)
  }

  /** A packet that finds the slot taken by another job or number goes on, marked, with all its
      other fields, and the slot is left alone. */
  lemma CollisionGoesOn(hierarchical: bool, a: Slot, t: Tag)
    requires Collides(hierarchical, a, t)
    ensures (var (a', out) := Filter(hierarchical, a, t);
             && a' == a && out.Some? && out.value.resend && out.value.collision
             && out.value.(resend := false, collision := false) == t)
  {
  }

  /** A retransmission always goes on. It empties the slot of its job and number and no other;
      before the first aggregation it takes along the bits that waited there, unless its own
      are among them: then they are dropped. */
  lemma RetransmissionGoesOn(hierarchical: bool, a: Slot, t: Tag)
    requires !t.isAck && !t.collision && t.resend && t.seqNum >= 1 && (hierarchical || t.edge != 1)
    ensures (var (a', out) := Filter(hierarchical, a, t);
             && out.Some? && !a'.Holds(t)
             && (if a.Holds(t) then a'.IsEmpty() && a'.bitmap == {} else a' == a)
             && (if t.edge == 0 && a.Holds(t) && !(t.bitmap0 <= a.bitmap)
                 then out.value.bitmap0 == a.bitmap + t.bitmap0 && out.value.edge == 1
                 else out.value == t)
             && out.value.(bitmap0 := t.bitmap0, edge := t.edge) == t)
  {
  }

  /** A data packet that is aggregated at level `edge`: nothing special about it. */
  predicate Plain(hierarchical: bool, t: Tag, job: nat, seqNum: nat, edge: nat) {
    && !t.isAck && !t.collision && !t.resend && t.job == job && t.seqNum == seqNum
    && t.edge == edge && (edge != 1 || hierarchical)
  }

  function BitsOf(t: Tag): Bits {
    if t.edge == 0 then t.bitmap0 else t.bitmap1
  }

  /** The bits that a list of packets names, and the number of those that named a new one. */
  function Union(ts: seq<Tag>): Bits {
    if ts == [] then {} else Union(ts[..|ts| - 1]) + BitsOf(ts[|ts| - 1])
  }

  predicate BringsNews(before: seq<Tag>, t: Tag) {
    exists x :: x in BitsOf(t) && x !in Union(before)
  }

  function News(ts: seq<Tag>): nat {
    if ts == [] then 0
    else News(ts[..|ts| - 1]) + if BringsNews(ts[..|ts| - 1], ts[|ts| - 1]) then 1 else 0
  }

  function SlotAfter(hierarchical: bool, ts: seq<Tag>): Slot {
    if ts == [] then EmptySlot
    else Filter(hierarchical, SlotAfter(hierarchical, ts[..|ts| - 1]), ts[|ts| - 1]).0
  }

  ghost predicate AllPlain(hierarchical: bool, ts: seq<Tag>, job: nat, seqNum: nat, edge: nat) {
    forall t :: t in ts ==> Plain(hierarchical, t, job, seqNum, edge)
  }

  /** Whatever packets of a job and number a free slot is given, in any order and with
      repetitions: it holds the union of their bits and counts those that brought a new one. */
  lemma {:induction false} SlotHoldsUnion(hierarchical: bool, ts: seq<Tag>, job: nat, seqNum: nat, edge: nat)
    requires AllPlain(hierarchical, ts, job, seqNum, edge)
    ensures SlotAfter(hierarchical, ts).bitmap == Union(ts)
    ensures SlotAfter(hierarchical, ts).count == News(ts)
    ensures ts != [] ==> (SlotAfter(hierarchical, ts).job, SlotAfter(hierarchical, ts).seqNum) == (job, seqNum)
    ensures News(ts) == 0 ==> Union(ts) == {}
  {
    if ts != [] {
      var before, t := ts[..|ts| - 1], ts[|ts| - 1];
      assert t in ts && forall x :: x in before ==> x in ts;
      SlotHoldsUnion(hierarchical, before, job, seqNum, edge);
      assert BringsNews(before, t) <==> !(BitsOf(t) <= Union(before));
    }
  }

  /** A packet leaves the slot if and only if it is the one that brings the count to its
      fan-in; it then names the union of all, and its level changes. All others are held. */
  lemma LeavesWhenFull(hierarchical: bool, before: seq<Tag>, t: Tag)
    requires AllPlain(hierarchical, before + [t], t.job, t.seqNum, t.edge)
    ensures (var out := Filter(hierarchical, SlotAfter(hierarchical, before), t).1;
             var fanIn := if t.edge == 0 then t.fanIn0 else t.fanIn1;
             && (out.Some? <==> BringsNews(before, t) && News(before + [t]) == fanIn)
             && (out.Some? && t.edge == 0 ==> out.value == t.(edge := 1, bitmap0 := Union(before + [t])))
             && (out.Some? && t.edge == 1 ==> out.value == t.(edge := 0, bitmap1 := Union(before + [t])))
             && (out.Some? && t.edge > 1 ==> out.value == t.(edge := 0)))
  {
    assert (before + [t])[..|before|] == before;
    assert t in before + [t] && forall x :: x in before ==> x in before + [t];
    SlotHoldsUnion(hierarchical, before, t.job, t.seqNum, t.edge);
    assert BringsNews(before, t) <==> !(BitsOf(t) <= Union(before));
  }

  // ----- occupancy accounting

  /** How many slots job `j` occupies. */
  function LiveSlots(slots: seq<Slot>, j: nat): nat {
    if slots == [] then 0
    else LiveSlots(slots[..|slots| - 1], j) + Occupies(slots[|slots| - 1], j)
  }

  function Occupies(a: Slot, j: nat): nat {
    if !a.IsEmpty() && a.job == j then 1 else 0
  }

  lemma {:induction false} LiveSlotsUpdate(slots: seq<Slot>, k: nat, a: Slot, j: nat)
    requires k < |slots|
    ensures LiveSlots(slots[k := a], j) + Occupies(slots[k], j) == LiveSlots(slots, j) + Occupies(a, j)
  {
    var last := |slots| - 1;
    if k < last {
      assert slots[k := a][..last] == slots[..last][k := a];
      LiveSlotsUpdate(slots[..last], k, a, j);
    } else {
      assert slots[k := a][..last] == slots[..last];
    }
  }

  function Counter(counts: map<nat, nat>, j: nat): nat {
    if j in counts then counts[j] else 0
  }

  /** What every data packet satisfies: numbering starts at 1 and both bitmaps name somebody.
      An acknowledgement has empty bitmaps. */
  predicate Genuine(t: Tag) {
    t.seqNum >= 1 && t.bitmap0 != {} && t.bitmap1 != {}
  }

  class Switch {
    const hierarchical: bool
    const enableAggCount: bool
    const hash: (nat, nat) -> nat
    const slots: array<Slot>
    var occupancy: map<nat, nat>
    var collisions: map<nat, nat>

    ghost predicate Valid()
      reads this
    {
      forall j, q :: hash(j, q) < slots.Length
    }

    /** If slots are counted, the counter of every job is the number of slots it holds; and a
        free slot is blank. */
    ghost predicate Accounted()
      reads this, slots
    {
      && (enableAggCount ==> forall j :: Counter(occupancy, j) == LiveSlots(slots[..], j))
      && (forall k :: 0 <= k < slots.Length ==> (slots[k].IsEmpty() ==> slots[k] == EmptySlot))
      && (forall k :: 0 <= k < slots.Length ==> (!slots[k].IsEmpty() ==> slots[k].seqNum >= 1))
    }

    constructor (hierarchical: bool, enableAggCount: bool, hash: (nat, nat) -> nat, maxAggregators: nat)
      requires forall j, q :: hash(j, q) < maxAggregators
      ensures Valid() && Accounted() && fresh(slots)
      ensures this.hierarchical == hierarchical && this.enableAggCount == enableAggCount
      ensures slots[..] == seq(maxAggregators, _ => EmptySlot)
    {
      this.hierarchical, this.enableAggCount := hierarchical, enableAggCount;
      this.hash := hash;
      slots := new Slot[maxAggregators](_ => EmptySlot);
      occupancy, collisions := map[], map[];
      new;
      forall j ensures LiveSlots(slots[..], j) == 0 {
        BlankSlots(slots[..], j);
      }
    }

    static lemma {:induction false} BlankSlots(s: seq<Slot>, j: nat)
      requires forall k :: 0 <= k < |s| ==> s[k] == EmptySlot
      ensures LiveSlots(s, j) == 0
    {
      if s != [] {
        BlankSlots(s[..|s| - 1], j);
      }
    }

    method Acquire(job: nat)
      modifies this`occupancy
      ensures occupancy == if enableAggCount then old(occupancy)[job := Counter(old(occupancy), job) + 1]
                           else old(occupancy)
    {
      if !enableAggCount {
        return;
      }
      if job in occupancy {
        occupancy := occupancy[job := occupancy[job] + 1];
      } else {
        occupancy := occupancy[job := 1];
      }
    }

    method Release(job: nat)
      modifies this`occupancy
      ensures forall j :: Counter(occupancy, j) ==
                if enableAggCount && j == job && Counter(old(occupancy), j) > 0 then Counter(old(occupancy), j) - 1
                else Counter(old(occupancy), j)
    {
      if !enableAggCount {
        return;
      }
      if job in occupancy && occupancy[job] > 0 {
        occupancy := occupancy[job := occupancy[job] - 1];
      }
    }

    method FilterPacket(t: Tag) returns (out: Option<Tag>)
      requires Valid()
      modifies this, slots
      ensures Valid()
      ensures (var h := hash(t.job, t.seqNum);
               var (a, o) := Filter(hierarchical, old(slots[h]), t);
               slots[..] == old(slots[..])[h := a] && out == o)
      ensures t.isAck && t.seqNum >= 1 ==>
                (var h := hash(t.job, t.seqNum);
                 out == Some(t) && !slots[h].Holds(t) &&
                 (!old(slots[h]).Holds(t) ==> slots[h] == old(slots[h])))
      ensures collisions == if Collides(hierarchical, old(slots[hash(t.job, t.seqNum)]), t)
                            then old(collisions)[t.job := Counter(old(collisions), t.job) + 1]
                            else old(collisions)
      ensures (Genuine(t) || (t.isAck && t.seqNum >= 1)) && old(Accounted()) ==> Accounted()
    {
      if t.isAck {
        var h := hash(t.job, t.seqNum);
        if slots[h].Holds(t) {
          ResetSlot(h, t);
        }
        out := Some(t);
      } else if t.collision || (!hierarchical && t.edge == 1) {
        out := Some(t);
      } else {
        out := AggregatePacket(t);
      }
    }

    method ResetSlot(h: nat, t: Tag)
      requires Valid() && h < slots.Length && slots[h].Holds(t)
      modifies this`occupancy, slots
      ensures slots[..] == old(slots[..])[h := EmptySlot]
      ensures t.seqNum >= 1 && old(Accounted()) ==> Accounted()
    {
      ghost var before := slots[..];
      slots[h] := EmptySlot;
      Release(t.job);
      assert slots[..] == before[h := EmptySlot];
      forall j: nat
        ensures LiveSlots(slots[..], j) + Occupies(before[h], j) == LiveSlots(before, j)
      {
        LiveSlotsUpdate(before, h, EmptySlot, j);
      }
    }

    method AggregatePacket(t: Tag) returns (out: Option<Tag>)
      requires Valid()
      modifies this, slots
      ensures (var h := hash(t.job, t.seqNum);
               var (a, o) := Aggregate(old(slots[h]), t);
               slots[..] == old(slots[..])[h := a] && out == o)
      ensures (var a := old(slots[hash(t.job, t.seqNum)]);
               collisions == if !t.resend && !a.IsEmpty() && !a.Holds(t)
                             then old(collisions)[t.job := Counter(old(collisions), t.job) + 1]
                             else old(collisions))
      ensures Genuine(t) && old(Accounted()) ==> Accounted()
    {
      var h := hash(t.job, t.seqNum);
      var a := slots[h];
      if t.resend {
        if a.Holds(t) {
          if t.edge == 0 && !(t.bitmap0 <= a.bitmap) {
            out := Some(t.(edge := 1, bitmap0 := a.bitmap + t.bitmap0));
          } else {
            out := Some(t);
          }
          ResetSlot(h, t);
        } else {
          out := Some(t);
        }
      } else if a.IsEmpty() || a.Holds(t) {
        out := ProcessPacket(h, t);
      } else {
        collisions := collisions[t.job := Counter(collisions, t.job) + 1];
        out := Some(t.(resend := true, collision := true));
      }
    }

    method ProcessPacket(h: nat, t: Tag) returns (out: Option<Tag>)
      requires Valid() && h < slots.Length
      requires slots[h].IsEmpty() || slots[h].Holds(t)
      modifies this`occupancy, slots
      ensures (var a := old(slots[h]);
               var start := if a.IsEmpty() then a.(job := t.job, seqNum := t.seqNum) else a;
               slots[..] == old(slots[..])[h := Process(start, t).0] && out == Process(start, t).1)
      ensures Genuine(t) && old(Accounted()) ==> Accounted()
    {
      ghost var before := slots[..];
      var a := slots[h];
      if a.IsEmpty() {
        a := a.(job := t.job, seqNum := t.seqNum);
        Acquire(t.job);
      }
      var bits := if t.edge == 0 then t.bitmap0 else t.bitmap1;
      var fanIn := if t.edge == 0 then t.fanIn0 else t.fanIn1;
      out := None;
      if !(bits <= a.bitmap) {
        a := a.(bitmap := a.bitmap + bits, count := a.count + 1);
        if a.count == fanIn {
          if t.edge == 0 {
            out := Some(t.(edge := 1, bitmap0 := a.bitmap));
          } else if t.edge == 1 {
            out := Some(t.(edge := 0, bitmap1 := a.bitmap));
          } else {
            out := Some(t.(edge := 0));
          }
        }
      }
      slots[h] := a;
      assert slots[..] == before[h := a];
      forall j: nat
        ensures LiveSlots(slots[..], j) + Occupies(before[h], j) == LiveSlots(before, j) + Occupies(a, j)
      {
        LiveSlotsUpdate(before, h, a, j);
      }
    }
  }
}
