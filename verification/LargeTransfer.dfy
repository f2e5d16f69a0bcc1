/** The sending application of the large transfer example: one write buffer, reused for the
    whole stream, and a write loop that resumes wherever the socket stopped accepting. */
module LargeTransfer {

  const TOTAL_TX_BYTES: nat := 2000000
  const WRITE_SIZE: nat := 1040

  /** The first `n` bytes of the stream: byte `k` is 97 + k mod 26. */
  function Stream(n: nat): seq<nat> {
    seq(n, k requires 0 <= k => 97 + k % 26)
  }

  /** What the socket answers in one turn of the loop: its free buffer space, and how much
      of an offered write it takes; a negative amount is an error. */
  datatype Answer = Answer(txAvailable: nat, take: int)

  function Min(a: nat, b: nat): nat {
    if a <= b then a else b
  }

  /** An accepted write takes at least one byte and at most what was offered. */
  function AmountSent(answer: Answer, toWrite: nat): (n: int)
    requires toWrite >= 1
    ensures n < 0 || 1 <= n <= toWrite
  {
    if answer.take < 0 then -1
    else if answer.take == 0 then 1
    else Min(answer.take, toWrite)
  }

  /** How much is offered when `k` bytes are out: up to the end of the buffer, of the stream and
      of the socket's free space. */
  function Offer(k: nat, txAvailable: nat): nat
    requires k <= TOTAL_TX_BYTES
  {
    Min(Min(WRITE_SIZE - k % WRITE_SIZE, TOTAL_TX_BYTES - k), txAvailable)
  }

  /** The callback goes on: there is more to send, and the socket has room. */
  predicate GoesOn(k: nat, answers: seq<Answer>) {
    k < TOTAL_TX_BYTES && answers != [] && answers[0].txAvailable > 0
  }

  /** How many bytes are out after the callback, and whether a write failed. */
  function Written(k: nat, answers: seq<Answer>): (r: (nat, bool))
    requires k <= TOTAL_TX_BYTES
    ensures k <= r.0 <= TOTAL_TX_BYTES
    decreases |answers|
  {
    if !GoesOn(k, answers) then (k, false)
    else if answers[0].take < 0 then (k, true)
    else Written(k + AmountSent(answers[0], Offer(k, answers[0].txAvailable)), answers[1..])
  }

  /** A socket that has room for `n` turns and takes all it is offered gets `n` full writes, or
      the rest of the stream. */
  lemma {:induction false} EagerSocket(k: nat, answers: seq<Answer>)
    requires k <= TOTAL_TX_BYTES && k % WRITE_SIZE == 0
    requires forall a :: a in answers ==> a.txAvailable >= WRITE_SIZE && a.take >= WRITE_SIZE
    ensures Written(k, answers) == (Min(k + |answers| * WRITE_SIZE, TOTAL_TX_BYTES), false)
    decreases |answers|
  {
    if GoesOn(k, answers) {
      assert answers[0] in answers;
      if k + WRITE_SIZE <= TOTAL_TX_BYTES {
        EagerSocket(k + WRITE_SIZE, answers[1..]);
      } else {
        assert !GoesOn(TOTAL_TX_BYTES, answers[1..]);
      }
    } else if answers != [] {
      assert answers[0] in answers;
    }
  }

  /** Whatever the socket answers: a callback in which it has room and takes something sends
      something, and one without an error goes on until the stream is out, the socket has no
      room, or it is not asked again. */
  lemma {:induction false} GoesOnToTheEnd(k: nat, answers: seq<Answer>) returns (n: nat)
    requires k <= TOTAL_TX_BYTES
    ensures n <= |answers| && k + n <= Written(k, answers).0
    ensures Written(k, answers).1 <==> n < |answers| && Written(k, answers).0 < TOTAL_TX_BYTES &&
                                       answers[n].txAvailable > 0 && answers[n].take < 0
    ensures !Written(k, answers).1 ==> !GoesOn(Written(k, answers).0, answers[n..])
    decreases |answers|
  {
    n := 0;
    if GoesOn(k, answers) && answers[0].take >= 0 {
      n := GoesOnToTheEnd(k + AmountSent(answers[0], Offer(k, answers[0].txAvailable)), answers[1..]);
      n := n + 1;
      assert answers[n..] == answers[1..][n - 1..];
    }
  }

  lemma OffsetPhase(k: nat, i: nat)
    ensures (k % WRITE_SIZE + i) % 26 == (k + i) % 26
  {
    var q := k / WRITE_SIZE;
    assert k + i == (k % WRITE_SIZE + i) + 26 * (40 * q);
  }

  /** A chunk from the right offset of the buffer continues the stream. */
  lemma StreamGrows(k: nat, chunk: seq<nat>)
    requires forall i :: 0 <= i < |chunk| ==> chunk[i] == 97 + (k % WRITE_SIZE + i) % 26
    ensures Stream(k) + chunk == Stream(k + |chunk|)
  {
    forall i | 0 <= i < |chunk| ensures chunk[i] == 97 + (k + i) % 26 {
      OffsetPhase(k, i);
    }
  }

  lemma WrittenStep(k: nat, answers: seq<Answer>, turn: nat)
    requires k < TOTAL_TX_BYTES && turn < |answers| && answers[turn].txAvailable > 0
    ensures Written(k, answers[turn..]) ==
            if answers[turn].take < 0 then (k, true)
            else Written(k + AmountSent(answers[turn], Offer(k, answers[turn].txAvailable)), answers[turn + 1..])
  {
    assert answers[turn..][1..] == answers[turn + 1..];
  }

  class Flow {
    const data: array<nat>
    var currentTxBytes: nat
    /** The bytes that the socket accepted, and how often it was closed. */
    var handed: seq<nat>
    var closes: nat

    /** The socket has the first `currentTxBytes` bytes of the stream and nothing else, and
        it is closed only when that is all of it. */
    ghost predicate Valid()
      reads this, data
    {
      && data.Length == WRITE_SIZE
      && (forall i :: 0 <= i < data.Length ==> data[i] == 97 + i % 26)
      && currentTxBytes <= TOTAL_TX_BYTES
      && handed == Stream(currentTxBytes)
      && (closes > 0 ==> currentTxBytes == TOTAL_TX_BYTES)
    }

    constructor ()
      ensures Valid() && handed == [] && closes == 0
    {
      data := new nat[WRITE_SIZE];
      currentTxBytes, handed, closes := 0, [], 0;
      new;
      for i := 0 to WRITE_SIZE
        invariant handed == [] && closes == 0 && currentTxBytes == 0
        invariant forall k :: 0 <= k < i ==> data[k] == 97 + k % 26
      {
        data[i] := 97 + i % 26;
      }
    }

    /** One callback, for any behaviour of the socket: what was accepted before stays, and
        the stream goes on where it stopped, for as long as the socket takes it. The socket is
        closed once, exactly if all the bytes are out at the end and no write failed. */
    method WriteUntilBufferFull(answers: seq<Answer>) returns (failed: bool)
      requires Valid()
      modifies this
      ensures Valid() && old(handed) <= handed
      ensures (currentTxBytes, failed) == Written(old(currentTxBytes), answers)
      ensures closes == old(closes) + (if !failed && currentTxBytes == TOTAL_TX_BYTES then 1 else 0)
    {
      failed := false;
      var turn := 0;
      while currentTxBytes < TOTAL_TX_BYTES && turn < |answers| && answers[turn].txAvailable > 0
        invariant Valid() && old(handed) <= handed && closes == old(closes) && turn <= |answers|
        invariant Written(currentTxBytes, answers[turn..]) == Written(old(currentTxBytes), answers)
        decreases TOTAL_TX_BYTES - currentTxBytes
      {
        var left := TOTAL_TX_BYTES - currentTxBytes;
        var dataOffset := currentTxBytes % WRITE_SIZE;
        var toWrite := WRITE_SIZE - dataOffset;
        toWrite := Min(toWrite, left);
        toWrite := Min(toWrite, answers[turn].txAvailable);
        assert toWrite == Offer(currentTxBytes, answers[turn].txAvailable) && dataOffset + toWrite <= WRITE_SIZE;
        var amountSent := AmountSent(answers[turn], toWrite);
        if amountSent < 0 {
          failed := true;
          return;
        }
        WrittenStep(currentTxBytes, answers, turn);
        var chunk := data[dataOffset..dataOffset + amountSent];
        StreamGrows(currentTxBytes, chunk);
        handed := handed + chunk;
        currentTxBytes := currentTxBytes + amountSent;
        turn := turn + 1;
      }
      if currentTxBytes >= TOTAL_TX_BYTES {
        closes := closes + 1;
      }
    }
  }
}
