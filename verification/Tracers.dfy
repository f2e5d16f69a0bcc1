/** The paired traces of the TCP comparison: every change of the congestion window or of the
    slow start threshold of a node also repeats the latest value of the other. */
module Tracers {

  datatype Kind = Cwnd | SsThresh

  /** A change that a node reports. */
  datatype Change = Change(kind: Kind, node: nat, oldval: nat, newval: nat, now: real)

  /** One line of an output stream. */
  datatype Line = Line(time: real, value: nat)

  /** Of one kind at one node: whether no change has occurred yet, the latest value, and the
      output. */
  datatype Side = Side(first: bool, value: nat, lines: seq<Line>)

  type Key = (Kind, nat)

  function Other(kind: Kind): Kind {
    if kind == Cwnd then SsThresh else Cwnd
  }

  function Own(side: Side, c: Change): Side {
    var start := if side.first then [Line(0.0, c.oldval)] else [];
    Side(false, c.newval, side.lines + start + [Line(c.now, c.newval)])
  }

  function Echo(side: Side, c: Change): Side {
    if side.first then side else side.(lines := side.lines + [Line(c.now, side.value)])
  }

  class Traces {
    const nodes: set<nat>
    var first: map<Key, bool>
    var value: map<Key, nat>
    var stream: map<Key, seq<Line>>

    ghost predicate Valid()
      reads this
    {
      forall key: Key :: key.1 in nodes ==> key in first && key in value && key in stream
    }

    ghost function SideOf(key: Key): Side
      reads this
      requires Valid() && key.1 in nodes
    {
      Side(first[key], value[key], stream[key])
    }

    /** The traces are those of the history of changes. */
    ghost predicate After(history: seq<Change>)
      reads this
    {
      Valid() && forall key: Key :: key.1 in nodes ==> Follows(SideOf(key), history, key)
    }

    constructor (nodes: set<nat>)
      ensures After([]) && this.nodes == nodes
    {
      this.nodes := nodes;
      first := map n, kind: Kind | n in nodes :: (kind, n) := true;
      value := map n, kind: Kind | n in nodes :: (kind, n) := 0;
      stream := map n, kind: Kind | n in nodes :: (kind, n) := [];
    }

    /** The body of the two tracers, which differ in which of the kinds is their own. */
    method Write(c: Change)
      requires Valid() && c.node in nodes
      modifies this
      ensures Valid()
      ensures SideOf((c.kind, c.node)) == Own(old(SideOf((c.kind, c.node))), c)
      ensures SideOf((Other(c.kind), c.node)) == Echo(old(SideOf((Other(c.kind), c.node))), c)
      ensures forall key: Key :: key.1 in nodes && key.1 != c.node ==> SideOf(key) == old(SideOf(key))
    {
      var own, other := (c.kind, c.node), (Other(c.kind), c.node);
      if first[own] {
        stream := stream[own := stream[own] + [Line(0.0, c.oldval)]];
        first := first[own := false];
      }
      stream := stream[own := stream[own] + [Line(c.now, c.newval)]];
      value := value[own := c.newval];
      if !first[other] {
        stream := stream[other := stream[other] + [Line(c.now, value[other])]];
      }
    }

    method Trace(c: Change, ghost history: seq<Change>)
      requires c.node in nodes && After(history)
      modifies this
      ensures After(history + [c])
    {
      Write(c);
      forall key: Key | key.1 in nodes ensures Follows(SideOf(key), history + [c], key) {
        assert key == (key.0, key.1) && (key.0 == c.kind || key.0 == Other(c.kind));
      }
    }
  }

  // ----- what the history says

  predicate Concerns(c: Change, key: Key) {
    c.kind == key.0 && c.node == key.1
  }

  predicate Occurred(history: seq<Change>, key: Key) {
    exists i :: 0 <= i < |history| && Concerns(history[i], key)
  }

  function Latest(history: seq<Change>, key: Key): nat {
    if history == [] then 0
    else
      var c := history[|history| - 1];
      if Concerns(c, key) then c.newval else Latest(history[..|history| - 1], key)
  }

  function NewLines(before: seq<Change>, c: Change, key: Key): seq<Line> {
    if c.node != key.1 then []
    else if Occurred(before, key) then
      [Line(c.now, if c.kind == key.0 then c.newval else Latest(before, key))]
    else if c.kind == key.0 then [Line(0.0, c.oldval), Line(c.now, c.newval)]
    else []
  }

  function Lines(history: seq<Change>, key: Key): seq<Line> {
    if history == [] then []
    else
      var before := history[..|history| - 1];
      Lines(before, key) + NewLines(before, history[|history| - 1], key)
  }

  ghost predicate Follows(side: Side, history: seq<Change>, key: Key) {
    side == Side(!Occurred(history, key), Latest(history, key), Lines(history, key))
  }

  lemma OccurredOneMore(history: seq<Change>, c: Change, key: Key)
    ensures Occurred(history + [c], key) <==> Occurred(history, key) || Concerns(c, key)
  {
    if i :| 0 <= i < |history| && Concerns(history[i], key) {
      assert (history + [c])[i] == history[i];
    }
    if Concerns(c, key) {
      assert (history + [c])[|history|] == c;
    }
  }

  // ----- what the streams promise

  /** A stream is empty until the first change of its kind, and its last line holds the latest
      value. */
  lemma {:induction false} LastLineIsLatest(history: seq<Change>, key: Key)
    ensures Lines(history, key) != [] <==> Occurred(history, key)
    ensures Occurred(history, key) ==> Lines(history, key)[|Lines(history, key)| - 1].value == Latest(history, key)
  {
    if history != [] {
      var before, c := history[..|history| - 1], history[|history| - 1];
      LastLineIsLatest(before, key);
      assert history == before + [c];
      OccurredOneMore(before, c, key);
    }
  }

  /** The first change of a kind at a node. */
  ghost predicate IsFirst(history: seq<Change>, key: Key, i: nat) {
    i < |history| && Concerns(history[i], key) && forall j :: 0 <= j < i ==> !Concerns(history[j], key)
  }

  /** A stream starts with the value before the first change, at time 0, and then that change. */
  lemma {:induction false} StartsWithOldValue(history: seq<Change>, key: Key, i: nat)
    requires IsFirst(history, key, i)
    ensures |Lines(history, key)| >= 2
    ensures Lines(history, key)[0] == Line(0.0, history[i].oldval)
    ensures Lines(history, key)[1] == Line(history[i].now, history[i].newval)
  {
    var n := |history| - 1;
    LastLineIsLatest(history[..n], key);
    if i < n {
      StartsWithOldValue(history[..n], key, i);
    }
  }

  /** The times at which a node reports. */
  function Times(history: seq<Change>, n: nat): seq<real> {
    if history == [] then []
    else
      var c := history[|history| - 1];
      Times(history[..|history| - 1], n) + if c.node == n then [c.now] else []
  }

  function TimesOf(lines: seq<Line>): seq<real> {
    seq(|lines|, i requires 0 <= i < |lines| => lines[i].time)
  }

  /** A stream that has grown by lines with these times. */
  ghost predicate Grown(lines: seq<Line>, lines': seq<Line>, times: seq<real>) {
    lines <= lines' && TimesOf(lines'[|lines|..]) == times
  }

  lemma GrownMore(lines: seq<Line>, lines': seq<Line>, times: seq<real>, more: seq<Line>)
    requires Grown(lines, lines', times)
    ensures Grown(lines, lines' + more, times + TimesOf(more))
  {
    assert (lines' + more)[|lines|..] == lines'[|lines|..] + more;
  }

  lemma OneLine(before: seq<Change>, c: Change, key: Key)
    requires Occurred(before, key)
    ensures TimesOf(NewLines(before, c, key)) == if c.node == key.1 then [c.now] else []
  {
  }

  /** Once a kind has occurred, its stream grows by exactly one line for each report of the
      node, of either kind, with the time of the report. So once both kinds have occurred, the
      two streams of a node grow by the same number of lines with the same times. */
  lemma {:induction false} OneLineEach(history: seq<Change>, more: seq<Change>, key: Key)
    requires Occurred(history, key)
    ensures Grown(Lines(history, key), Lines(history + more, key), Times(more, key.1))
    ensures Occurred(history + more, key)
  {
    if more == [] {
      assert history + more == history;
    } else {
      var rest, c := more[..|more| - 1], more[|more| - 1];
      OneLineEach(history, rest, key);
      assert history + more == history + rest + [c];
      assert (history + more)[..|history + more| - 1] == history + rest;
      OccurredOneMore(history + rest, c, key);
      OneLine(history + rest, c, key);
      GrownMore(Lines(history, key), Lines(history + rest, key), Times(rest, key.1),
                NewLines(history + rest, c, key));
    }
  }
}
