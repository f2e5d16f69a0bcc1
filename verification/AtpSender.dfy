/** The sending side of a worker's socket: the transmission buffer with its three queues,
    the send window, acknowledgements and the retransmission timeout.

    The congestion controller is left open: an in-order acknowledgement may set the window
    to any value from 1 up. */
module AtpSender {
  import opened MachineWords

  datatype Item = Item(id: nat, size: nat, lastSent: nat)

  /** One transmission: the packet number, and whether it carries the resend flag. */
  datatype Frame = Frame(id: nat, resend: bool)

  datatype Tx = Tx(pending: seq<Item>, sent: seq<Item>, retx: seq<Frame>, bufferSize: nat,
                   dataSize: nat, packetNum: nat, leftBound: nat, window: nat, wire: seq<Frame>)

  function NewTx(bufferSize: nat, window: nat): Tx {
    Tx([], [], [], bufferSize, 0, 0, 0, window, [])
  }

  // ----- one operation each

  function Add(t: Tx, size: nat): Tx {
    if (size + t.dataSize) % UINT32 > t.bufferSize then t
    else
      t.(packetNum := t.packetNum + 1,
         pending := t.pending + [Item(t.packetNum + 1, size, 0)],
         dataSize := (t.dataSize + size) % UINT32)
  }

  function SendFront(t: Tx, now: nat): Tx
    requires t.pending != []
  {
    var item := t.pending[0];
    t.(pending := t.pending[1..],
       dataSize := (t.dataSize - item.size) % UINT32,
       sent := t.sent + [item.(lastSent := now)],
       wire := t.wire + [Frame(item.id, false)])
  }

  function SendWhileOpen(t: Tx, now: nat): Tx
    decreases |t.pending|
  {
    if t.pending != [] && t.pending[0].id <= t.leftBound + t.window then
      SendWhileOpen(SendFront(t, now), now)
    else t
  }

  /** With a window of one packet, a call sends at most one. */
  function SendWindow(t: Tx, now: nat): Tx {
    if t.window != 1 then SendWhileOpen(t, now)
    else if t.pending != [] && t.pending[0].id <= t.leftBound + t.window then SendFront(t, now)
    else t
  }

  /** The items of `sent` numbered above, and below, `id`. */
  function Above(sent: seq<Item>, id: nat): seq<Item> {
    if sent == [] then []
    else Above(sent[..|sent| - 1], id) + if sent[|sent| - 1].id > id then [sent[|sent| - 1]] else []
  }

  function Below(sent: seq<Item>, id: nat): seq<Frame> {
    if sent == [] then []
    else Below(sent[..|sent| - 1], id) +
         if sent[|sent| - 1].id < id then [Frame(sent[|sent| - 1].id, false)] else []
  }

  function Expired(sent: seq<Item>, now: nat, timeout: nat): seq<Frame> {
    if sent == [] then []
    else
      var last := sent[|sent| - 1];
      Expired(sent[..|sent| - 1], now, timeout) +
      if (now - last.lastSent) % UINT32 >= timeout then [Frame(last.id, true)] else []
  }

  function Flush(t: Tx): Tx {
    t.(wire := t.wire + t.retx, retx := [])
  }

  function Ack(t: Tx, id: nat, window: nat): Tx {
    if t.sent == [] then t
    else if t.sent[0].id == id then t.(sent := t.sent[1..], leftBound := id, window := window)
    else if id > t.sent[0].id then
      Flush(t.(sent := Above(t.sent, id), retx := t.retx + Below(t.sent, id)))
    else Flush(t)
  }

  function Timeout(t: Tx, now: nat, timeout: nat): Tx {
    var expired := Expired(t.sent, now, timeout);
    if expired == [] then t else Flush(t.(retx := t.retx + expired))
  }

  // ----- the object that does it

  class TxBuffer {
    var pendingQueue: seq<Item>
    var sentQueue: seq<Item>
    var retxQueue: seq<Frame>
    const bufferSize: nat
    var bufferDataSize: nat
    var packetNum: nat
    var leftBound: nat
    var lcw: nat
    /** Everything handed down to the network so far. */
    var wire: seq<Frame>

    function State(): Tx
      reads this
    {
      Tx(pendingQueue, sentQueue, retxQueue, bufferSize, bufferDataSize, packetNum, leftBound, lcw, wire)
    }

    constructor (bufferSize: nat, initCwnd: nat)
      ensures State() == NewTx(bufferSize, initCwnd)
    {
      pendingQueue, sentQueue, retxQueue, wire := [], [], [], [];
      this.bufferSize := bufferSize;
      bufferDataSize, packetNum, leftBound, lcw := 0, 0, 0, initCwnd;
    }

    method AddPacket(size: nat) returns (ok: bool)
      modifies this
      ensures ok <==> (size + old(bufferDataSize)) % UINT32 <= bufferSize
      ensures State() == Add(old(State()), size)
    {
      if (size + bufferDataSize) % UINT32 > bufferSize {
        return false;
      }
      packetNum := packetNum + 1;
      pendingQueue := pendingQueue + [Item(packetNum, size, 0)];
      bufferDataSize := (bufferDataSize + size) % UINT32;
      return true;
    }

    method SendPacket(now: nat) returns (found: bool)
      modifies this
      ensures found == (old(pendingQueue) != [])
      ensures State() == if found then SendFront(old(State()), now) else old(State())
    {
      if pendingQueue == [] {
        return false;
      }
      var item := pendingQueue[0];
      pendingQueue := pendingQueue[1..];
      bufferDataSize := (bufferDataSize - item.size) % UINT32;
      sentQueue := sentQueue + [item.(lastSent := now)];
      wire := wire + [Frame(item.id, false)];
      return true;
    }

    /** The number of the first waiting packet, 0 if there is none. */
    function PendingFrontPacketId(): nat
      reads this
    {
      if pendingQueue == [] then 0 else pendingQueue[0].id
    }

    method SendWindowData(now: nat)
      modifies this
      ensures State() == SendWindow(old(State()), now)
    {
      var bound := leftBound + lcw;
      if lcw == 1 {
        if PendingFrontPacketId() <= bound {
          var _ := SendPacket(now);
        }
        return;
      }
      while PendingFrontPacketId() <= bound
        invariant bound == leftBound + lcw && lcw != 1
        invariant SendWhileOpen(State(), now) == SendWhileOpen(old(State()), now)
        decreases |pendingQueue|
      {
        var found := SendPacket(now);
        if !found {
          break;
        }
      }
    }

    method Retransmit()
      modifies this
      ensures State() == Flush(old(State()))
    {
      while retxQueue != []
        invariant State() == old(State()).(wire := wire, retx := retxQueue)
        invariant wire + retxQueue == old(wire + retxQueue)
        decreases |retxQueue|
      {
        wire := wire + [retxQueue[0]];
        retxQueue := retxQueue[1..];
      }
    }

    method ProcessUnorderedAck(id: nat) returns (found: bool)
      modifies this`sentQueue, this`retxQueue
      ensures found == (old(sentQueue) != [])
      ensures found && id > old(sentQueue)[0].id ==>
                sentQueue == Above(old(sentQueue), id) && retxQueue == old(retxQueue) + Below(old(sentQueue), id)
      ensures !(found && id > old(sentQueue)[0].id) ==>
                sentQueue == old(sentQueue) && retxQueue == old(retxQueue)
    {
      if sentQueue == [] {
        return false;
      }
      if id > sentQueue[0].id {
        ghost var all := sentQueue;
        ghost var n := 0;
        var tempQueue: seq<Item> := [];
        while sentQueue != []
          invariant n <= |all| && sentQueue == all[n..]
          invariant tempQueue == Above(all[..n], id)
          invariant retxQueue == old(retxQueue) + Below(all[..n], id)
          decreases |sentQueue|
        {
          var front := sentQueue[0];
          sentQueue := sentQueue[1..];
          if front.id == id {
          } else if front.id < id {
            retxQueue := retxQueue + [Frame(front.id, false)];
          } else {
            tempQueue := tempQueue + [front];
          }
          assert all[..n + 1][..n] == all[..n];
          n := n + 1;
        }
        assert all[..n] == all;
        sentQueue := tempQueue;
      }
      return true;
    }

    /** `window` is what the congestion controller decides after an in-order
        acknowledgement. */
    method ReceiveAck(id: nat, window: nat)
      modifies this
      ensures State() == Ack(old(State()), id, window)
    {
      if sentQueue != [] && sentQueue[0].id == id {
        sentQueue := sentQueue[1..];
        leftBound := id;
        lcw := window;
      } else {
        var found := ProcessUnorderedAck(id);
        if found {
          Retransmit();
        }
      }
    }

    method CheckRetransmitTimeout(now: nat, timeout: nat)
      modifies this
      ensures State() == Timeout(old(State()), now, timeout)
    {
      var timeoutCount := 0;
      for n := 0 to |sentQueue|
        invariant State() == old(State()).(retx := retxQueue)
        invariant retxQueue == old(retxQueue) + Expired(sentQueue[..n], now, timeout)
        invariant timeoutCount == |Expired(sentQueue[..n], now, timeout)|
      {
        var item := sentQueue[n];
        if (now - item.lastSent) % UINT32 >= timeout {
          retxQueue := retxQueue + [Frame(item.id, true)];
          timeoutCount := timeoutCount + 1;
        }
        assert sentQueue[..n + 1][..n] == sentQueue[..n];
      }
      assert sentQueue[..|sentQueue|] == sentQueue;
      if timeoutCount > 0 {
        Retransmit();
      }
    }
  }

  // ----- every run

  datatype Event =
    | Enqueue(size: nat)
    | Transmit(now: nat)
    | Acked(id: nat, window: nat)
    | Tick(now: nat, timeout: nat)

  function Next(t: Tx, e: Event): Tx {
    match e
    case Enqueue(size) => Add(t, size)
    case Transmit(now) => SendWindow(t, now)
    case Acked(id, window) => Ack(t, id, if window == 0 then 1 else window)
    case Tick(now, timeout) => Timeout(t, now, timeout)
  }

  function Run(t: Tx, es: seq<Event>): Tx
    decreases |es|
  {
    if es == [] then t else Run(Next(t, es[0]), es[1..])
  }

  /** The last number sent, and the last number that was dropped from the sent queue. */
  function Highest(t: Tx): int {
    t.packetNum - |t.pending|
  }

  function Dropped(t: Tx): int {
    Highest(t) - |t.sent|
  }

  function TotalSize(items: seq<Item>): nat {
    if items == [] then 0 else TotalSize(items[..|items| - 1]) + items[|items| - 1].size
  }

  /** The two queues hold consecutive numbers, sent first and pending after it; the byte
      count is that of the waiting packets, modulo 2^32. */
  ghost predicate TxOk(t: Tx) {
    && 0 <= t.leftBound <= Dropped(t)
    && (forall k :: 0 <= k < |t.sent| ==> t.sent[k].id == Dropped(t) + 1 + k)
    && (forall k :: 0 <= k < |t.pending| ==> t.pending[k].id == Highest(t) + 1 + k)
    && t.retx == [] && t.window >= 1
    && t.dataSize == TotalSize(t.pending) % UINT32
  }

  lemma {:induction false} AboveIs(sent: seq<Item>, first: nat, id: nat)
    requires forall k :: 0 <= k < |sent| ==> sent[k].id == first + k
    ensures Above(sent, id) == if id < first then sent
                               else if id - first + 1 <= |sent| then sent[id - first + 1..] else []
  {
    if sent != [] {
      var n := |sent| - 1;
      AboveIs(sent[..n], first, id);
      if id < first {
        assert sent[..n] + [sent[n]] == sent;
      } else if id - first + 1 <= n {
        assert sent[..n][id - first + 1..] + [sent[n]] == sent[id - first + 1..];
      } else {
        assert Above(sent[..n], id) == [];
      }
    }
  }

  lemma {:induction false} TotalSizeOfRest(items: seq<Item>)
    requires items != []
    ensures TotalSize(items) == items[0].size + TotalSize(items[1..])
  {
    if |items| > 1 {
      TotalSizeOfRest(items[..|items| - 1]);
      assert items[1..][..|items| - 2] == items[..|items| - 1][1..];
    }
  }

  lemma AddKeeps(t: Tx, size: nat)
    requires TxOk(t)
    ensures TxOk(Add(t, size)) && Add(t, size).wire == t.wire
  {
    var t' := Add(t, size);
    if t' != t {
      assert t'.pending[..|t.pending|] == t.pending;
      ModAdd32(TotalSize(t.pending), size);
    }
  }

  lemma SendFrontKeeps(t: Tx, now: nat)
    requires TxOk(t) && t.pending != []
    ensures TxOk(SendFront(t, now))
  {
    TotalSizeOfRest(t.pending);
    ModAdd32(TotalSize(t.pending), 0 - t.pending[0].size);
  }

  lemma {:induction false} SendWhileOpenKeeps(t: Tx, now: nat)
    requires TxOk(t)
    ensures TxOk(SendWhileOpen(t, now))
    ensures SendWhileOpen(t, now).leftBound == t.leftBound
    ensures t.wire <= SendWhileOpen(t, now).wire
    ensures forall f :: f in SendWhileOpen(t, now).wire[|t.wire|..] ==> f.id <= t.leftBound + t.window
    decreases |t.pending|
  {
    if t.pending != [] && t.pending[0].id <= t.leftBound + t.window {
      var t1 := SendFront(t, now);
      SendFrontKeeps(t, now);
      SendWhileOpenKeeps(t1, now);
      var w := SendWhileOpen(t1, now).wire;
      assert w[|t.wire|..] == [w[|t.wire|]] + w[|t1.wire|..];
    }
  }

  /** An acknowledgement forgets every sent packet numbered at or below it, whether that
      packet was acknowledged or not; those overtaken are transmitted once more. The window
      moves only if the oldest packet is the one acknowledged. */
  lemma AckForgets(t: Tx, id: nat, window: nat)
    requires TxOk(t) && window >= 1
    ensures TxOk(Ack(t, id, window))
    ensures Ack(t, id, window).sent == Above(t.sent, id)
    ensures Ack(t, id, window).leftBound ==
            if t.sent != [] && t.sent[0].id == id then id else t.leftBound
    ensures Ack(t, id, window).window ==
            if t.sent != [] && t.sent[0].id == id then window else t.window
    ensures Ack(t, id, window).wire ==
            if t.sent != [] && t.sent[0].id != id then t.wire + Below(t.sent, id) else t.wire
    ensures Ack(t, id, window).pending == t.pending
  {
    if t.sent != [] {
      var first := Dropped(t) + 1;
      AboveIs(t.sent, first, id);
      if id <= t.sent[0].id {
        BelowNone(t.sent, id);
        assert t.wire + [] == t.wire;
      } else {
        assert Above(t.sent, id) == if id - first + 1 <= |t.sent| then t.sent[id - first + 1..] else [];
      }
    }
  }

  lemma {:induction false} BelowNone(sent: seq<Item>, id: nat)
    requires forall k :: 0 <= k < |sent| ==> sent[k].id >= id
    ensures Below(sent, id) == []
  {
    if sent != [] {
      BelowNone(sent[..|sent| - 1], id);
    }
  }

  lemma SendWindowKeeps(t: Tx, now: nat)
    requires TxOk(t)
    ensures TxOk(SendWindow(t, now))
    ensures t.wire <= SendWindow(t, now).wire
    ensures forall f :: f in SendWindow(t, now).wire[|t.wire|..] ==> f.id <= t.leftBound + t.window
  {
    if t.window != 1 {
      SendWhileOpenKeeps(t, now);
    } else if t.pending != [] {
      SendFrontKeeps(t, now);
    }
  }

  /** The waiting packets that the window lets through, counted from the first. */
  function InWindow(t: Tx): nat {
    var bound := t.leftBound + t.window;
    if bound <= Highest(t) then 0
    else if bound - Highest(t) <= |t.pending| then bound - Highest(t)
    else |t.pending|
  }

  function Stamped(items: seq<Item>, now: nat): seq<Item> {
    seq(|items|, i requires 0 <= i < |items| => items[i].(lastSent := now))
  }

  function Frames(items: seq<Item>): seq<Frame> {
    seq(|items|, i requires 0 <= i < |items| => Frame(items[i].id, false))
  }

  /** The first `n` waiting packets have gone out, in order, and nothing else has changed. */
  ghost predicate SentFirst(t: Tx, t': Tx, n: nat, now: nat) {
    && n <= |t.pending| && t'.pending == t.pending[n..]
    && t'.sent == t.sent + Stamped(t.pending[..n], now)
    && t'.wire == t.wire + Frames(t.pending[..n])
    && (t'.leftBound, t'.window, t'.packetNum, t'.retx) == (t.leftBound, t.window, t.packetNum, t.retx)
  }

  lemma SentOneMore(t: Tx, t': Tx, n: nat, now: nat)
    requires t.pending != [] && SentFirst(SendFront(t, now), t', n, now)
    ensures SentFirst(t, t', n + 1, now)
  {
    var t1 := SendFront(t, now);
    assert t.pending[..n + 1] == [t.pending[0]] + t1.pending[..n];
    assert Stamped(t.pending[..n + 1], now) == [t.pending[0].(lastSent := now)] + Stamped(t1.pending[..n], now);
    assert Frames(t.pending[..n + 1]) == [Frame(t.pending[0].id, false)] + Frames(t1.pending[..n]);
  }

  lemma {:induction false} SendWhileOpenIs(t: Tx, now: nat)
    requires TxOk(t)
    ensures SentFirst(t, SendWhileOpen(t, now), InWindow(t), now)
    decreases |t.pending|
  {
    if t.pending != [] && t.pending[0].id <= t.leftBound + t.window {
      SendFrontKeeps(t, now);
      SendWhileOpenIs(SendFront(t, now), now);
      SentOneMore(t, SendWhileOpen(t, now), InWindow(t) - 1, now);
    } else {
      assert t.sent + Stamped(t.pending[..0], now) == t.sent && t.wire + Frames(t.pending[..0]) == t.wire;
    }
  }

  /** A call sends exactly the waiting packets whose numbers the window allows, in order, and
      stamps them with the time; whatever still waits is beyond the window. */
  lemma SendsTheWindow(t: Tx, now: nat)
    requires TxOk(t)
    ensures SentFirst(t, SendWindow(t, now), InWindow(t), now)
    ensures forall k :: 0 <= k < |t.pending| ==> (k < InWindow(t) <==> t.pending[k].id <= t.leftBound + t.window)
    ensures SendWindow(t, now).pending != [] ==> SendWindow(t, now).pending[0].id > t.leftBound + t.window
  {
    SendWhileOpenIs(t, now);
    if t.window == 1 && InWindow(t) == 1 {
      var t1 := SendFront(t, now);
      assert t1.sent + Stamped(t1.pending[..0], now) == t1.sent && t1.wire + Frames(t1.pending[..0]) == t1.wire;
      SentOneMore(t, t1, 0, now);
    }
  }

  /** A packet keeps the time of its first transmission for as long as it is in the queue. */
  lemma TimesStay(t: Tx, e: Event)
    requires TxOk(t)
    ensures forall item :: item in Next(t, e).sent ==> item in t.sent || (e.Transmit? && item.lastSent == e.now)
  {
    match e
    case Enqueue(size) =>
    case Transmit(now) =>
      SendsTheWindow(t, now);
    case Acked(id, window) =>
      AckForgets(t, id, if window == 0 then 1 else window);
      AboveIs(t.sent, Dropped(t) + 1, id);
    case Tick(now, timeout) =>
  }

  lemma NextKeeps(t: Tx, e: Event)
    requires TxOk(t)
    ensures TxOk(Next(t, e))
    ensures t.wire <= Next(t, e).wire
  {
    match e
    case Enqueue(size) => AddKeeps(t, size);
    case Transmit(now) => SendWindowKeeps(t, now);
    case Acked(id, window) => AckForgets(t, id, if window == 0 then 1 else window);
    case Tick(now, timeout) =>
  }

  /** In every run the queues stay consecutive, and nothing transmitted is taken back. */
  lemma {:induction false} RunKeeps(t: Tx, es: seq<Event>)
    requires TxOk(t)
    ensures TxOk(Run(t, es)) && t.wire <= Run(t, es).wire
    decreases |es|
  {
    if es != [] {
      NextKeeps(t, es[0]);
      RunKeeps(Next(t, es[0]), es[1..]);
    }
  }

  /** If no packet is so large that its size plus the buffer size wraps, the waiting
      packets always fit in the buffer. */
  lemma {:induction false} BufferNeverOverflows(t: Tx, es: seq<Event>)
    requires TxOk(t) && TotalSize(t.pending) <= t.bufferSize
    requires forall e :: e in es && e.Enqueue? ==> e.size + t.bufferSize < UINT32
    ensures TotalSize(Run(t, es).pending) <= Run(t, es).bufferSize
    decreases |es|
  {
    if es != [] {
      NextKeeps(t, es[0]);
      assert es[0] in es;
      FitsStep(t, es[0]);
      BufferNeverOverflows(Next(t, es[0]), es[1..]);
    }
  }

  lemma FitsStep(t: Tx, e: Event)
    requires TxOk(t) && TotalSize(t.pending) <= t.bufferSize
    requires e.Enqueue? ==> e.size + t.bufferSize < UINT32
    ensures TotalSize(Next(t, e).pending) <= Next(t, e).bufferSize == t.bufferSize
  {
    if e.Enqueue? {
      var t' := Add(t, e.size);
      if t' != t {
        assert t'.pending[..|t.pending|] == t.pending;
      }
    } else if e.Transmit? {
      SendShrinks(t, e.now);
    }
  }

  lemma {:induction false} SendWhileOpenShrinks(t: Tx, now: nat)
    ensures TotalSize(SendWhileOpen(t, now).pending) <= TotalSize(t.pending)
    ensures SendWhileOpen(t, now).bufferSize == t.bufferSize
    decreases |t.pending|
  {
    if t.pending != [] && t.pending[0].id <= t.leftBound + t.window {
      TotalSizeOfRest(t.pending);
      SendWhileOpenShrinks(SendFront(t, now), now);
    }
  }

  lemma SendShrinks(t: Tx, now: nat)
    ensures TotalSize(SendWindow(t, now).pending) <= TotalSize(t.pending)
    ensures SendWindow(t, now).bufferSize == t.bufferSize
  {
    SendWhileOpenShrinks(t, now);
    if t.pending != [] {
      TotalSizeOfRest(t.pending);
    }
  }

  lemma AddOne(t: Tx)
    requires TxOk(t) && TotalSize(t.pending) + 1 <= t.bufferSize < UINT32
    ensures TxOk(Add(t, 1)) && Add(t, 1).bufferSize == t.bufferSize
    ensures TotalSize(Add(t, 1).pending) == TotalSize(t.pending) + 1
  {
    AddKeeps(t, 1);
    assert Add(t, 1).pending[..|t.pending|] == t.pending;
  }

  /** `n` packets of one byte fill an empty buffer up to `n`. */
  lemma {:induction false} FillUp(t: Tx, n: nat) returns (es: seq<Event>)
    requires TxOk(t) && TotalSize(t.pending) + n <= t.bufferSize < UINT32
    ensures TxOk(Run(t, es)) && Run(t, es).bufferSize == t.bufferSize
    ensures TotalSize(Run(t, es).pending) == TotalSize(t.pending) + n
    ensures forall e :: e in es ==> e == Enqueue(1)
    decreases n
  {
    if n == 0 {
      es := [];
    } else {
      AddOne(t);
      var rest := FillUp(Add(t, 1), n - 1);
      es := Prepend(t, Enqueue(1), rest, Run(Add(t, 1), rest));
    }
  }

  lemma {:induction false} RunConcat(t: Tx, es: seq<Event>, e: Event)
    ensures Run(t, es + [e]) == Next(Run(t, es), e)
    decreases |es|
  {
    if es == [] {
      assert es + [e] == [e];
    } else {
      assert (es + [e])[1..] == es[1..] + [e];
      RunConcat(Next(t, es[0]), es[1..], e);
    }
  }

  /** A run of packets of at most `maxSize` bytes. */
  ghost predicate SizesUpTo(es: seq<Event>, maxSize: nat) {
    forall e :: e in es && e.Enqueue? ==> e.size <= maxSize
  }

  ghost predicate Fits(t: Tx) {
    TotalSize(t.pending) <= t.bufferSize
  }

  /** A packet whose size wraps the test goes into a full buffer. */
  lemma WrapOverfills(bufferSize: nat, window: nat, size: nat) returns (es: seq<Event>)
    requires bufferSize < UINT32 && size < UINT32 && window >= 1 && size + bufferSize >= UINT32
    ensures SizesUpTo(es, size)
    ensures !Fits(Run(NewTx(bufferSize, window), es))
  {
    var t := NewTx(bufferSize, window);
    var fill := FillUp(t, bufferSize);
    RunConcat(t, fill, Enqueue(size));
    es := fill + [Enqueue(size)];
    var full := Run(t, fill);
    assert full.dataSize == bufferSize;
    assert Add(full, size).pending[..|full.pending|] == full.pending;
  }

  /** The waiting packets fit in the buffer in every run with packets of at most `maxSize`
      bytes, if and only if that size and the buffer size together do not wrap. */
  lemma FitsIffNoWrap(bufferSize: nat, window: nat, maxSize: nat)
    requires bufferSize < UINT32 && maxSize < UINT32 && window >= 1
    ensures (forall es: seq<Event> :: SizesUpTo(es, maxSize) ==> Fits(Run(NewTx(bufferSize, window), es))) <==>
            maxSize + bufferSize < UINT32
  {
    var t := NewTx(bufferSize, window);
    if maxSize + bufferSize < UINT32 {
      forall es: seq<Event> | SizesUpTo(es, maxSize) ensures Fits(Run(t, es)) {
        BufferNeverOverflows(t, es);
      }
    } else {
      var es := WrapOverfills(bufferSize, window, maxSize);
      assert SizesUpTo(es, maxSize) && !Fits(Run(t, es));
    }
  }

  // ----- what a sender can still send again

  /** The numbers in the sent queue. */
  function KeptNumbers(t: Tx): set<nat> {
    set item | item in t.sent :: item.id
  }

  /** They are those after the last one dropped, up to the last one sent. */
  lemma KeptIs(t: Tx, id: nat)
    requires TxOk(t)
    ensures id in KeptNumbers(t) <==> Dropped(t) < id <= Highest(t)
  {
    if id in KeptNumbers(t) {
      var item :| item in t.sent && item.id == id;
      var k :| 0 <= k < |t.sent| && t.sent[k] == item;
    }
    if Dropped(t) < id <= Highest(t) {
      assert t.sent[id - Dropped(t) - 1] in t.sent;
    }
  }

  lemma {:induction false} BelowMembers(sent: seq<Item>, id: nat, f: Frame)
    ensures f in Below(sent, id) <==> !f.resend && f.id < id && exists item :: item in sent && item.id == f.id
  {
    if sent != [] {
      BelowMembers(sent[..|sent| - 1], id, f);
      assert sent == sent[..|sent| - 1] + [sent[|sent| - 1]];
    }
  }

  /** Exactly the packets that were sent `timeout` or longer ago, by the 32-bit clock, are sent
      again, with the resend flag. */
  lemma {:induction false} ExpiredMembers(sent: seq<Item>, now: nat, timeout: nat, f: Frame)
    ensures f in Expired(sent, now, timeout) <==>
            f.resend && exists item :: item in sent && item.id == f.id && (now - item.lastSent) % UINT32 >= timeout
  {
    if sent != [] {
      ExpiredMembers(sent[..|sent| - 1], now, timeout, f);
      assert sent == sent[..|sent| - 1] + [sent[|sent| - 1]];
    }
  }

  ghost predicate Ascending(frames: seq<Frame>) {
    forall i, j :: 0 <= i < j < |frames| ==> frames[i].id < frames[j].id
  }

  /** They are sent again in the order of their numbers, each once; so are those that an
      acknowledgement overtakes. */
  lemma {:induction false} InOrder(sent: seq<Item>, id: nat, now: nat, timeout: nat)
    requires forall i, j :: 0 <= i < j < |sent| ==> sent[i].id < sent[j].id
    ensures Ascending(Expired(sent, now, timeout)) && Ascending(Below(sent, id))
    ensures forall f :: f in Expired(sent, now, timeout) || f in Below(sent, id) ==>
                        sent != [] && f.id <= sent[|sent| - 1].id
  {
    if sent != [] {
      InOrder(sent[..|sent| - 1], id, now, timeout);
    }
  }

  /** What an acknowledgement does to the numbers that are kept, and which packets it makes the
      sender transmit once more: exactly the kept ones that it overtakes. */
  lemma AckKept(t: Tx, id: nat, window: nat)
    requires TxOk(t) && window >= 1
    ensures forall x :: x in KeptNumbers(Ack(t, id, window)) <==> x in KeptNumbers(t) && x > id
    ensures t.wire <= Ack(t, id, window).wire
    ensures forall f :: f in Ack(t, id, window).wire[|t.wire|..] <==>
                        !f.resend && f.id in KeptNumbers(t) && f.id < id
  {
    AckForgets(t, id, window);
    var t' := Ack(t, id, window);
    forall x: nat ensures x in KeptNumbers(t') <==> x in KeptNumbers(t) && x > id {
      AboveMembers(t.sent, id, x);
    }
    forall f ensures f in t'.wire[|t.wire|..] <==> !f.resend && f.id in KeptNumbers(t) && f.id < id {
      BelowMembers(t.sent, id, f);
      if t.sent != [] && t.sent[0].id == id {
        BelowNone(t.sent, id);
      }
    }
  }

  lemma {:induction false} AboveMembers(sent: seq<Item>, id: nat, x: nat)
    ensures (exists item :: item in Above(sent, id) && item.id == x) <==>
            x > id && exists item :: item in sent && item.id == x
  {
    if sent != [] {
      var last := sent[|sent| - 1];
      AboveMembers(sent[..|sent| - 1], id, x);
      assert sent == sent[..|sent| - 1] + [last];
      assert last.id > id ==> last in Above(sent, id);
    }
  }

  /** The frames that a step adds to the wire. */
  ghost predicate OnlyAbove(wire: seq<Frame>, wire': seq<Frame>, id: int) {
    wire <= wire' && forall i :: |wire| <= i < |wire'| ==> wire'[i].id > id
  }

  lemma {:induction false} SendWhileOpenFrames(t: Tx, now: nat)
    requires TxOk(t)
    ensures OnlyAbove(t.wire, SendWhileOpen(t, now).wire, Dropped(t))
    ensures Dropped(SendWhileOpen(t, now)) == Dropped(t)
    decreases |t.pending|
  {
    if t.pending != [] && t.pending[0].id <= t.leftBound + t.window {
      SendFrontKeeps(t, now);
      SendWhileOpenFrames(SendFront(t, now), now);
    }
  }

  /** No event transmits a dropped packet, and none is taken back into the queue. */
  lemma NextFrames(t: Tx, e: Event)
    requires TxOk(t)
    ensures OnlyAbove(t.wire, Next(t, e).wire, Dropped(t))
    ensures Dropped(Next(t, e)) >= Dropped(t)
  {
    match e
    case Enqueue(size) =>
    case Transmit(now) =>
      SendWhileOpenFrames(t, now);
    case Acked(id, window) =>
      AckFrames(t, id, if window == 0 then 1 else window);
    case Tick(now, timeout) =>
      forall f | f in Expired(t.sent, now, timeout) ensures f.id > Dropped(t) {
        ExpiredMembers(t.sent, now, timeout, f);
        KeptIs(t, f.id);
      }
  }

  lemma AckFrames(t: Tx, id: nat, window: nat)
    requires TxOk(t) && window >= 1
    ensures OnlyAbove(t.wire, Ack(t, id, window).wire, Dropped(t))
    ensures Dropped(Ack(t, id, window)) >= Dropped(t)
  {
    AckForgets(t, id, window);
    AboveShorter(t.sent, id);
    AckKept(t, id, window);
    var t' := Ack(t, id, window);
    forall i | |t.wire| <= i < |t'.wire| ensures t'.wire[i].id > Dropped(t) {
      assert t'.wire[i] in t'.wire[|t.wire|..];
      KeptIs(t, t'.wire[i].id);
    }
  }

  lemma {:induction false} AboveShorter(sent: seq<Item>, id: nat)
    ensures |Above(sent, id)| <= |sent|
  {
    if sent != [] {
      AboveShorter(sent[..|sent| - 1], id);
    }
  }

  lemma {:induction false} RunFrames(t: Tx, es: seq<Event>)
    requires TxOk(t)
    ensures OnlyAbove(t.wire, Run(t, es).wire, Dropped(t))
    decreases |es|
  {
    if es != [] {
      var t1 := Next(t, es[0]);
      NextKeeps(t, es[0]);
      NextFrames(t, es[0]);
      RunFrames(t1, es[1..]);
    }
  }

  /** The run transmits packet `id`, with the resend flag or without. */
  ghost predicate TransmitsAgain(t: Tx, es: seq<Event>, id: nat) {
    var t' := Run(t, es);
    exists i :: |t.wire| <= i < |t'.wire| && t'.wire[i].id == id
  }

  /** A packet that was sent can be transmitted again if and only if it is still in the sent
      queue. */
  lemma CanResendIffKept(t: Tx, id: nat)
    requires TxOk(t) && 1 <= id <= Highest(t)
    ensures (exists es: seq<Event> :: TransmitsAgain(t, es, id)) <==> id in KeptNumbers(t)
  {
    KeptIs(t, id);
    if id in KeptNumbers(t) {
      ExpiredMembers(t.sent, 0, 0, Frame(id, true));
      var es := [Tick(0, 0)];
      assert Run(t, es) == Run(Next(t, es[0]), []);
      var expired := Expired(t.sent, 0, 0);
      var i :| 0 <= i < |expired| && expired[i] == Frame(id, true);
      assert Run(t, es).wire[|t.wire| + i] == Frame(id, true);
      assert TransmitsAgain(t, es, id);
    } else {
      forall es: seq<Event> ensures !TransmitsAgain(t, es, id) {
        RunFrames(t, es);
      }
    }
  }

  /** A new sender loses packet 1: two packets are sent, and the second one is acknowledged. */
  lemma DropIsReachable() returns (es: seq<Event>)
    ensures (var t := Run(NewTx(496000, 2), es); Highest(t) == 2 && KeptNumbers(t) == {})
  {
    var t0 := NewTx(496000, 2);
    var t2 := Add(Add(t0, 248), 248);
    assert t2.pending == [Item(1, 248, 0), Item(2, 248, 0)];
    var t3 := SendFront(t2, 0);
    assert t3.pending == [Item(2, 248, 0)];
    var t4 := SendFront(t3, 0);
    assert t4.sent == [Item(1, 248, 0), Item(2, 248, 0)] && t4.pending == [];
    assert SendWhileOpen(t4, 0) == t4 && SendWhileOpen(t3, 0) == SendWhileOpen(t4, 0);
    assert SendWindow(t2, 0) == SendWhileOpen(t3, 0);
    AboveIs(t4.sent, 1, 2);
    var t5 := Ack(t4, 2, 2);
    es := Prepend(t4, Acked(2, 2), [], t5);
    es := Prepend(t2, Transmit(0), es, t5);
    es := Prepend(Add(t0, 248), Enqueue(248), es, t5);
    es := Prepend(t0, Enqueue(248), es, t5);
  }

  // ----- when the sender stops for good

  /** The window is closed for the next new packet, and no packet is left whose
      acknowledgement could open it. */
  ghost predicate Stalled(t: Tx) {
    t.sent == [] && Highest(t) + 1 > t.leftBound + t.window
  }

  /** A stalled sender never transmits anything again, whatever happens. */
  lemma {:induction false} StallIsForever(t: Tx, es: seq<Event>)
    requires TxOk(t) && Stalled(t)
    ensures Stalled(Run(t, es)) && Run(t, es).wire == t.wire
    decreases |es|
  {
    if es != [] {
      NextKeeps(t, es[0]);
      StallIsForever(Next(t, es[0]), es[1..]);
    }
  }

  /** The exact event that stalls a sender: an acknowledgement that overtakes the oldest
      sent packet and reaches the newest one while the window is used up. */
  lemma StallsExactlyWhen(t: Tx, e: Event)
    requires TxOk(t) && !Stalled(t)
    ensures Stalled(Next(t, e)) <==>
            && e.Acked? && t.sent != []
            && e.id > t.sent[0].id && e.id >= t.sent[|t.sent| - 1].id
            && Highest(t) + 1 > t.leftBound + t.window
  {
    match e
    case Enqueue(size) =>
    case Transmit(now) =>
      if t.pending != [] && t.pending[0].id <= t.leftBound + t.window {
        SendWhileOpenSends(SendFront(t, now), now);
      }
    case Acked(id, window) =>
      AckForgets(t, id, if window == 0 then 1 else window);
      if t.sent != [] {
        AboveIs(t.sent, Dropped(t) + 1, id);
      }
    case Tick(now, timeout) =>
  }

  /** The run `es` from `t` transmits packet `id`. */
  ghost predicate Transmits(t: Tx, es: seq<Event>, id: nat) {
    var t' := Run(t, es);
    |t.wire| <= |t'.wire| && Frame(id, false) in t'.wire[|t.wire|..]
  }

  /** A sender that is not stalled can still transmit its next packet: it is enough that
      the outstanding packets are acknowledged in order. */
  lemma {:induction false} NotStalledCanSend(t: Tx) returns (es: seq<Event>)
    requires TxOk(t) && !Stalled(t) && t.pending != []
    ensures Transmits(t, es, t.pending[0].id)
    decreases |t.sent|
  {
    if t.sent == [] {
      es := [Transmit(0)];
      var t1 := SendFront(t, 0);
      SendFrontKeeps(t, 0);
      SendWhileOpenKeeps(t1, 0);
      assert Run(t, es) == Run(SendWindow(t, 0), []);
      assert t1.wire <= Run(t, es).wire;
      assert t1.wire[|t.wire|] == Run(t, es).wire[|t.wire|] == Frame(t.pending[0].id, false);
    } else {
      var e := Acked(t.sent[0].id, 1);
      AckForgets(t, t.sent[0].id, 1);
      AboveIs(t.sent, Dropped(t) + 1, t.sent[0].id);
      var rest := NotStalledCanSend(Next(t, e));
      es := [e] + rest;
    }
  }

  /** A waiting packet can still be transmitted if and only if the sender is not stalled. */
  lemma CanSendIffNotStalled(t: Tx)
    requires TxOk(t) && t.pending != []
    ensures !Stalled(t) <==>
            exists es: seq<Event> :: Transmits(t, es, t.pending[0].id)
  {
    if Stalled(t) {
      forall es: seq<Event> ensures Run(t, es).wire == t.wire {
        StallIsForever(t, es);
      }
    } else {
      var es := NotStalledCanSend(t);
    }
  }

  /** A new socket with four packets to send reaches a stall: two of them are in flight
      and the acknowledgement of the second one arrives alone. */
  lemma StallIsReachable() returns (es: seq<Event>)
    ensures (var t := Run(NewTx(496000, 1), es); Stalled(t) && t.pending == [Item(4, 248, 0)])
  {
    var t0 := NewTx(496000, 1);
    var t4 := Add(Add(Add(Add(t0, 248), 248), 248), 248);
    assert t4.pending == [Item(1, 248, 0), Item(2, 248, 0), Item(3, 248, 0), Item(4, 248, 0)];
    var t5 := SendFront(t4, 0);
    assert t5.pending == [Item(2, 248, 0), Item(3, 248, 0), Item(4, 248, 0)];
    var t6 := Ack(t5, 1, 2);
    var t7 := SendFront(t6, 1);
    var t8 := SendFront(t7, 1);
    assert t8.sent == [Item(2, 248, 1), Item(3, 248, 1)] && t8.pending == [Item(4, 248, 0)];
    assert SendWhileOpen(t8, 1) == t8 && SendWhileOpen(t7, 1) == SendWhileOpen(t8, 1);
    assert SendWindow(t6, 1) == SendWhileOpen(t7, 1);
    var t9 := Ack(t8, 3, 2);
    AboveIs(t8.sent, 2, 3);
    es := Prepend(t8, Acked(3, 2), [], t9);
    es := Prepend(t6, Transmit(1), es, t9);
    es := Prepend(t5, Acked(1, 2), es, t9);
    es := Prepend(t4, Transmit(0), es, t9);
    es := Prepend(Add(Add(Add(t0, 248), 248), 248), Enqueue(248), es, t9);
    es := Prepend(Add(Add(t0, 248), 248), Enqueue(248), es, t9);
    es := Prepend(Add(t0, 248), Enqueue(248), es, t9);
    es := Prepend(t0, Enqueue(248), es, t9);
  }

  lemma Prepend(t: Tx, e: Event, es: seq<Event>, end: Tx) returns (es': seq<Event>)
    requires Run(Next(t, e), es) == end
    ensures es' == [e] + es && Run(t, es') == end
  {
    es' := [e] + es;
  }

  lemma {:induction false} SendWhileOpenSends(t: Tx, now: nat)
    ensures |SendWhileOpen(t, now).sent| >= |t.sent|
    decreases |t.pending|
  {
    if t.pending != [] && t.pending[0].id <= t.leftBound + t.window {
      SendWhileOpenSends(SendFront(t, now), now);
    }
  }
}
