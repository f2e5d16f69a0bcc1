/** The receive buffer of the socket, with its 32-bit count of free bytes. The test before a
    packet is stored compares an unsigned difference with zero. */
module AtpRxBuffer {
  import opened MachineWords

  /** The sizes of the packets that wait to be read, and the count of free bytes. */
  datatype Rx = Rx(packets: seq<nat>, available: nat)

  datatype Event = Store(size: nat) | Read(maxSize: nat)

  function Next(rx: Rx, e: Event): Rx {
    match e
    case Store(size) => Rx(rx.packets + [size], (rx.available - size) % UINT32)
    case Read(maxSize) =>
      if rx.packets == [] || rx.packets[0] > maxSize then rx
      else Rx(rx.packets[1..], (rx.available + rx.packets[0]) % UINT32)
  }

  class RxBuffer {
    var packets: seq<nat>
    var available: nat

    function State(): Rx
      reads this
    {
      Rx(packets, available)
    }

    constructor (bufferSize: nat)
      ensures State() == Rx([], bufferSize)
    {
      packets, available := [], bufferSize;
    }

    /** The packet is stored whatever its size and however full the buffer is. */
    method StorePacket(size: nat) returns (stored: bool)
      modifies this
      ensures stored && State() == Next(old(State()), Store(size))
    {
      if (available - size) % UINT32 >= 0 {
        packets := packets + [size];
        available := (available - size) % UINT32;
        return true;
      }
      return false;
    }

    method RecvFrom(maxSize: nat) returns (found: bool)
      modifies this
      ensures found <==> old(packets) != [] && old(packets)[0] <= maxSize
      ensures State() == Next(old(State()), Read(maxSize))
    {
      if packets == [] || packets[0] > maxSize {
        return false;
      }
      available := (available + packets[0]) % UINT32;
      packets := packets[1..];
      return true;
    }
  }

  // ----- every run

  function Run(rx: Rx, es: seq<Event>): Rx
    decreases |es|
  {
    if es == [] then rx else Run(Next(rx, es[0]), es[1..])
  }

  /** The number of unread bytes. */
  function Unread(packets: seq<nat>): nat {
    if packets == [] then 0 else packets[0] + Unread(packets[1..])
  }

  lemma {:induction false} UnreadAppend(packets: seq<nat>, size: nat)
    ensures Unread(packets + [size]) == Unread(packets) + size
  {
    if packets != [] {
      assert (packets + [size])[1..] == packets[1..] + [size];
      UnreadAppend(packets[1..], size);
    }
  }

  /** The count is what the unread bytes leave of the buffer, modulo 2^32. */
  ghost predicate Counted(bufferSize: nat, rx: Rx) {
    rx.available == (bufferSize - Unread(rx.packets)) % UINT32
  }

  lemma NextCounted(bufferSize: nat, rx: Rx, e: Event)
    requires Counted(bufferSize, rx)
    ensures Counted(bufferSize, Next(rx, e))
  {
    match e
    case Store(size) =>
      UnreadAppend(rx.packets, size);
      ModAdd32(bufferSize - Unread(rx.packets), 0 - size);
    case Read(_) =>
      if rx.packets != [] {
        ModAdd32(bufferSize - Unread(rx.packets), rx.packets[0]);
      }
  }

  /** The sizes that a run stores, and those that it reads, in order. */
  function Stored(es: seq<Event>): seq<nat>
    decreases |es|
  {
    if es == [] then []
    else if es[0].Store? then [es[0].size] + Stored(es[1..])
    else Stored(es[1..])
  }

  function ReadOut(rx: Rx, es: seq<Event>): seq<nat>
    decreases |es|
  {
    if es == [] then []
    else if es[0].Read? && rx.packets != [] && rx.packets[0] <= es[0].maxSize then
      [rx.packets[0]] + ReadOut(Next(rx, es[0]), es[1..])
    else ReadOut(Next(rx, es[0]), es[1..])
  }

  lemma Front(x: nat, b: seq<nat>, c: seq<nat>)
    ensures [x] + b + c == [x] + (b + c)
  {
  }

  lemma Regroup(a: seq<nat>, x: nat, b: seq<nat>)
    ensures a + ([x] + b) == a + [x] + b
  {
  }

  /** What was stored comes out first in, first out, and the rest is still there. */
  lemma {:induction false} FirstInFirstOut(rx: Rx, es: seq<Event>)
    ensures rx.packets + Stored(es) == ReadOut(rx, es) + Run(rx, es).packets
    decreases |es|
  {
    if es != [] {
      var rx', rest := Next(rx, es[0]), es[1..];
      FirstInFirstOut(rx', rest);
      if es[0].Store? {
        Regroup(rx.packets, es[0].size, Stored(rest));
      } else if rx' != rx {
        assert rx.packets == [rx.packets[0]] + rx'.packets;
        Front(rx.packets[0], rx'.packets, Stored(rest));
        Front(rx.packets[0], ReadOut(rx', rest), Run(rx', rest).packets);
      } else if rx.packets != [] {
        assert es[0].maxSize < rx.packets[0];
      }
    } else {
      assert rx.packets + [] == [] + rx.packets;
    }
  }

  /** The unread bytes fit in the buffer, now and after every event. */
  ghost predicate StaysWithin(bufferSize: nat, rx: Rx, es: seq<Event>)
    decreases |es|
  {
    && Unread(rx.packets) <= bufferSize
    && (es != [] ==> StaysWithin(bufferSize, Next(rx, es[0]), es[1..]))
  }

  /** Every packet finds room by the buffer's own count when it is stored: the test that the
      unsigned comparison does not make. */
  ghost predicate AlwaysRoom(rx: Rx, es: seq<Event>)
    decreases |es|
  {
    es == [] || ((es[0].Store? ==> es[0].size <= rx.available) && AlwaysRoom(Next(rx, es[0]), es[1..]))
  }

  /** In every run, the unread bytes stay within the buffer if and only if every packet that
      is stored finds room. */
  lemma {:induction false} WithinIffRoom(bufferSize: nat, rx: Rx, es: seq<Event>)
    requires bufferSize < UINT32 && Counted(bufferSize, rx) && Unread(rx.packets) <= bufferSize
    ensures StaysWithin(bufferSize, rx, es) <==> AlwaysRoom(rx, es)
    decreases |es|
  {
    if es != [] {
      var rx' := Next(rx, es[0]);
      NextCounted(bufferSize, rx, es[0]);
      if es[0].Store? {
        UnreadAppend(rx.packets, es[0].size);
      }
      if Unread(rx'.packets) <= bufferSize {
        WithinIffRoom(bufferSize, rx', es[1..]);
      }
    }
  }

  /** With packets of any one size that nobody reads, the buffer is exceeded. */
  lemma Overfilled(bufferSize: nat, size: nat) returns (es: seq<Event>)
    requires size >= 1
    ensures Unread(Run(Rx([], bufferSize), es).packets) > bufferSize
    ensures forall e :: e in es ==> e == Store(size)
  {
    es := Stores(Rx([], bufferSize), size, bufferSize + 1);
  }

  lemma {:induction false} Stores(rx: Rx, size: nat, n: nat) returns (es: seq<Event>)
    requires size >= 1
    ensures Unread(Run(rx, es).packets) >= Unread(rx.packets) + n
    ensures forall e :: e in es ==> e == Store(size)
    decreases n
  {
    if n == 0 {
      es := [];
    } else {
      UnreadAppend(rx.packets, size);
      var rest := Stores(Next(rx, Store(size)), size, n - 1);
      es := [Store(size)] + rest;
    }
  }

  /** The runs of the packet sink: it reads each packet as soon as it is stored, with no
      limit on the size. */
  function Drained(sizes: seq<nat>): seq<Event> {
    if sizes == [] then [] else [Store(sizes[0]), Read(UINT32 - 1)] + Drained(sizes[1..])
  }

  /** With the packet sink, the buffer is never exceeded if and only if no single packet is
      larger than it. */
  lemma {:induction false} DrainedStaysWithin(bufferSize: nat, available: nat, sizes: seq<nat>)
    requires forall i :: 0 <= i < |sizes| ==> sizes[i] < UINT32
    ensures StaysWithin(bufferSize, Rx([], available), Drained(sizes)) <==>
            forall i :: 0 <= i < |sizes| ==> sizes[i] <= bufferSize
  {
    if sizes != [] {
      var es, rx := Drained(sizes), Rx([], available);
      var rx1 := Next(rx, es[0]);
      var rx2 := Next(rx1, es[1]);
      assert rx1.packets == [sizes[0]] && rx2.packets == [];
      assert Unread(rx1.packets) == sizes[0] + Unread(rx1.packets[1..]);
      assert es[1..][1..] == Drained(sizes[1..]) && es[1..][0] == es[1];
      DrainedStaysWithin(bufferSize, rx2.available, sizes[1..]);
      assert StaysWithin(bufferSize, rx, es) <==>
             sizes[0] <= bufferSize && StaysWithin(bufferSize, rx2, es[1..][1..]);
      assert forall i :: 1 <= i < |sizes| ==> sizes[i] == sizes[1..][i - 1];
    }
  }
}
