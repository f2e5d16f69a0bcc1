/** Window queries of the timeline viewer: binary searches over sorted ranges and sorted
    events, and the slices that are drawn. */
module Timeline {

  datatype Range = Range(start: int, end: int)

  ghost predicate SortedRanges(rs: seq<Range>) {
    && (forall i :: 0 <= i < |rs| ==> rs[i].start <= rs[i].end)
    && (forall i, j :: 0 <= i < j < |rs| ==> rs[i].end < rs[j].start)
  }

  predicate Holds(r: Range, key: int) {
    r.start <= key <= r.end
  }

  ghost predicate InSome(rs: seq<Range>, key: int) {
    exists i :: 0 <= i < |rs| && Holds(rs[i], key)
  }

  predicate Meets(r: Range, start: int, end: int) {
    r.start <= end && start <= r.end
  }

  method SearchRange(rs: seq<Range>, key: int) returns (found: int)
    requires SortedRanges(rs)
    ensures -1 <= found < |rs|
    ensures found >= 0 ==> Holds(rs[found], key)
    ensures found == -1 ==> !InSome(rs, key)
  {
    var l, u := 0, |rs| - 1;
    while l <= u
      invariant 0 <= l <= u + 1 <= |rs|
      invariant forall i :: 0 <= i < l ==> rs[i].end < key
      invariant forall i :: u < i < |rs| ==> key < rs[i].start
    {
      var i := (l + u) / 2;
      if key >= rs[i].start && key <= rs[i].end {
        return i;
      } else if key < rs[i].start {
        u := i - 1;
      } else {
        l := i + 1;
      }
    }
    return -1;
  }

  /** The slice is exactly the ranges that meet the window. */
  ghost predicate Exact(rs: seq<Range>, lo: int, hi: int, start: int, end: int) {
    forall i :: 0 <= i < |rs| ==> (lo <= i < hi <==> Meets(rs[i], start, end))
  }

  /** When the code gets the slice right: an end of the window that falls in a gap is
      harmless only if nothing lies beyond it; with both ends in gaps, only if it is the
      same gap. */
  ghost predicate Harmless(rs: seq<Range>, start: int, end: int) {
    if InSome(rs, start) && InSome(rs, end) then true
    else if InSome(rs, end) then forall i :: 0 <= i < |rs| ==> rs[i].end >= start
    else if InSome(rs, start) then forall i :: 0 <= i < |rs| ==> rs[i].start <= end
    else forall i :: 0 <= i < |rs| ==> (rs[i].start <= start <==> rs[i].start <= end)
  }

  method GetRangesBounds(rs: seq<Range>, start: int, end: int) returns (lo: int, hi: int)
    requires SortedRanges(rs) && start <= end
    ensures 0 <= lo <= hi <= |rs|
    ensures Exact(rs, lo, hi, start, end) <==> Harmless(rs, start, end)
    ensures if InSome(rs, start) then lo < |rs| && Holds(rs[lo], start) else lo == 0
    ensures if InSome(rs, end) then hi > 0 && Holds(rs[hi - 1], end)
            else hi == if InSome(rs, start) then |rs| else 0
    ensures InSome(rs, start) || InSome(rs, end) ==>
              forall i :: 0 <= i < |rs| && Meets(rs[i], start, end) ==> lo <= i < hi
  {
    var s := SearchRange(rs, start);
    var e := SearchRange(rs, end);
    if s >= 0 {
      assert Holds(rs[s], start) && InSome(rs, start);
    }
    if e >= 0 {
      assert Holds(rs[e], end) && InSome(rs, end);
    }
    if s == -1 && e == -1 {
      assert forall i :: 0 <= i < |rs| ==> !Holds(rs[i], start) && !Holds(rs[i], end);
      return 0, 0;
    } else if s == -1 {
      return 0, e + 1;
    } else if e == -1 {
      assert forall i :: 0 <= i < s ==> !Meets(rs[i], start, end);
      return s, |rs|;
    } else {
      assert forall i :: 0 <= i < s ==> !Meets(rs[i], start, end);
      assert forall i :: e < i < |rs| ==> !Meets(rs[i], start, end);
      return s, e + 1;
    }
  }

  // ----- events

  ghost predicate SortedEvents(at: seq<int>) {
    forall i, j :: 0 <= i < j < |at| ==> at[i] < at[j]
  }

  /** The position of the key, or of the first later event. */
  method SearchEvent(at: seq<int>, key: int) returns (found: int)
    requires SortedEvents(at)
    ensures 0 <= found <= |at|
    ensures forall i :: 0 <= i < found ==> at[i] < key
    ensures forall i :: found <= i < |at| ==> at[i] >= key
  {
    var l, u := 0, |at| - 1;
    while l <= u
      invariant 0 <= l <= u + 1 <= |at|
      invariant forall i :: 0 <= i < l ==> at[i] < key
      invariant forall i :: u < i < |at| ==> key < at[i]
    {
      var i := (l + u) / 2;
      if key == at[i] {
        return i;
      } else if key < at[i] {
        u := i - 1;
      } else {
        l := i + 1;
      }
    }
    return l;
  }

  /** The slice holds the events of the window, and at most one more: the first event after
      it, exactly when there is one and no event falls on the end of the window. */
  method GetEventsBounds(at: seq<int>, start: int, end: int) returns (lo: int, hi: int)
    requires SortedEvents(at) && start <= end
    ensures 0 <= lo <= |at| && lo < hi <= |at| + 1
    ensures forall i :: 0 <= i < |at| && start <= at[i] <= end ==> lo <= i < hi
    ensures forall i :: lo <= i < hi && i < |at| ==> start <= at[i]
    ensures forall i :: lo <= i < hi && i < |at| && at[i] > end ==> i == hi - 1
    ensures forall i :: 0 <= i < |at| ==> (i < lo <==> at[i] < start)
    ensures forall i :: 0 <= i < hi - 1 && i < |at| ==> at[i] <= end
    ensures (exists i :: lo <= i < hi && i < |at| && at[i] > end) <==>
            end !in at && exists i :: 0 <= i < |at| && at[i] > end
  {
    var s := SearchEvent(at, start);
    var e := SearchEvent(at, end);
    lo, hi := s, e + 1;
    if e < |at| {
      if at[e] == end {
        assert end in at;
      } else {
        assert at[e] > end && end !in at;
      }
    }
  }
}
