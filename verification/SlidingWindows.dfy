/**
 The two sliding windows as trace functions, and the counts they refine.
 */
module SlidingWindows {
  import opened Options
  import opened Types
  import opened Windows

  // ---------- distinct values ----------

  // Drops what has aged out.
  function Fresh<T>(seen: seq<(T, int)>, now: int, window: nat): seq<(T, int)> {
    if seen == [] then []
    else
      var last := seen[|seen| - 1];
      Fresh(seen[..|seen| - 1], now, window) + (if now - last.1 <= window then [last] else [])
  }

  function Position<T(==)>(seen: seq<(T, int)>, value: T): Option<nat> {
    if seen == [] then None
    else if seen[0].0 == value then Some(0)
    else
      var p := Position(seen[1..], value);
      if p.Some? then Some(p.value + 1) else None
  }

  lemma PositionIs<T>(seen: seq<(T, int)>, value: T)
    ensures var p := Position(seen, value);
            && (p.Some? ==> p.value < |seen| && seen[p.value].0 == value
                            && forall i :: 0 <= i < p.value ==> seen[i].0 != value)
            && (p.None? ==> forall e :: e in seen ==> e.0 != value)
  {
    if seen != [] {
      PositionIs(seen[1..], value);
      assert seen == [seen[0]] + seen[1..];
    }
  }

  // A value already there is refreshed in place; a new one goes last, the first
  // giving way if the window is full.
  function Noted<T(==)>(seen: seq<(T, int)>, capacity: nat, value: T, now: int): seq<(T, int)> {
    var p := Position(seen, value);
    if p.Some? && p.value < |seen| then seen[p.value := (value, now)]
    else (if |seen| >= capacity && seen != [] then seen[1..] else seen) + [(value, now)]
  }

  function Recorded<T(==)>(seen: seq<(T, int)>, capacity: nat, value: T, now: int, window: nat): seq<(T, int)> {
    if window > LONGEST_SPAN then seen else Noted(Fresh(seen, now, window), capacity, value, now)
  }

  method RecordDistinct<T(==)>(seen: seq<(T, int)>, capacity: nat, value: T, now: int, window: nat)
    returns (after: seq<(T, int)>, count: nat)
    requires 1 <= capacity
    ensures after == Recorded(seen, capacity, value, now, window) && count == |after|
  {
    if window > LONGEST_SPAN {
      return seen, |seen|;
    }
    after := [];
    assert seen[..0] == [];
    for i := 0 to |seen|
      invariant after == Fresh(seen[..i], now, window)
    {
      assert seen[..i + 1][..i] == seen[..i];
      if now - seen[i].1 <= window {
        after := after + [seen[i]];
      }
    }
    assert seen[..|seen|] == seen;
    var k := 0;
    PositionIs(after, value);
    while k < |after| && after[k].0 != value
      invariant 0 <= k <= |after|
      invariant forall i :: 0 <= i < k ==> after[i].0 != value
    {
      k := k + 1;
    }
    if k < |after| {
      assert after[k] in after;
      after := after[k := (value, now)];
    } else {
      if |after| >= capacity {
        after := after[1..];
      }
      after := after + [(value, now)];
    }
    count := |after|;
  }

  class DistinctWindow<T(==)> {
    var seen: seq<(T, int)>
    const capacity: nat

    ghost predicate Valid()
      reads this
    {
      1 <= capacity
    }

    constructor (capacity: nat)
      ensures Valid() && seen == [] && this.capacity == if capacity >= 1 then capacity else 1
    {
      this.capacity := if capacity >= 1 then capacity else 1;
      seen := [];
    }

    method Record(value: T, now: int, window: nat) returns (count: nat)
      requires Valid()
      modifies this
      ensures seen == Recorded(old(seen), capacity, value, now, window) && count == |seen|
    {
      seen, count := RecordDistinct(seen, capacity, value, now, window);
    }

    method Clear()
      modifies this
      ensures seen == []
    {
      seen := [];
    }
  }

  // The window after a trace of recordings, from empty.
  function DistinctAfter<T(==)>(trace: seq<(T, int)>, capacity: nat, window: nat): seq<(T, int)> {
    if trace == [] then []
    else
      var last := trace[|trace| - 1];
      Recorded(DistinctAfter(trace[..|trace| - 1], capacity, window), capacity, last.0, last.1, window)
  }

  // The values recorded within the window of a moment: what the count is of.
  function Live<T>(trace: seq<(T, int)>, now: int, window: nat): set<T> {
    set e | e in trace && now - e.1 <= window :: e.0
  }

  ghost predicate InOrder<T>(trace: seq<(T, int)>) {
    forall i, j :: 0 <= i < j < |trace| ==> trace[i].1 <= trace[j].1
  }

  // Never more than `capacity` values live at once, at any point of the trace.
  ghost predicate Roomy<T(!new)>(trace: seq<(T, int)>, capacity: nat, window: nat) {
    forall k :: 0 < k <= |trace| ==> |Live(trace[..k], trace[k - 1].1, window)| <= capacity
  }

  function Values<T>(seen: seq<(T, int)>): set<T> {
    set e | e in seen :: e.0
  }

  ghost predicate DistinctValues<T>(seen: seq<(T, int)>) {
    forall i, j :: 0 <= i < j < |seen| ==> seen[i].0 != seen[j].0
  }

  // The stamp is the value's last recording.
  ghost predicate LastStamp<T>(trace: seq<(T, int)>, e: (T, int)) {
    && e in trace
    && forall x :: x in trace && x.0 == e.0 ==> x.1 <= e.1
  }

  lemma {:induction false} FreshMember<T>(seen: seq<(T, int)>, now: int, window: nat, e: (T, int))
    ensures e in Fresh(seen, now, window) <==> e in seen && now - e.1 <= window
  {
    if seen != [] {
      var most, last := seen[..|seen| - 1], seen[|seen| - 1];
      assert seen == most + [last];
      FreshMember(most, now, window, e);
    }
  }

  lemma {:induction false} FreshDistinct<T>(seen: seq<(T, int)>, now: int, window: nat)
    requires DistinctValues(seen)
    ensures DistinctValues(Fresh(seen, now, window))
  {
    if seen != [] {
      var most, last := seen[..|seen| - 1], seen[|seen| - 1];
      FreshDistinct(most, now, window);
      var kept := Fresh(most, now, window);
      forall i | 0 <= i < |kept|
        ensures kept[i].0 != last.0
      {
        FreshMember(most, now, window, kept[i]);
        var j :| 0 <= j < |most| && most[j] == kept[i];
        assert seen[j] == most[j];
      }
    }
  }

  lemma FreshIs<T>(seen: seq<(T, int)>, now: int, window: nat)
    requires DistinctValues(seen)
    ensures forall e :: e in Fresh(seen, now, window) <==> e in seen && now - e.1 <= window
    ensures DistinctValues(Fresh(seen, now, window))
  {
    FreshDistinct(seen, now, window);
    forall e: (T, int)
      ensures e in Fresh(seen, now, window) <==> e in seen && now - e.1 <= window
    {
      FreshMember(seen, now, window, e);
    }
  }

  lemma NotedIs<T>(seen: seq<(T, int)>, capacity: nat, value: T, now: int)
    requires DistinctValues(seen)
    ensures var after := Noted(seen, capacity, value, now);
            && DistinctValues(after)
            && (value, now) in after
            && (forall e :: e in after && e.0 != value ==> e in seen)
            && (forall e :: e in after && e.0 == value ==> e == (value, now))
            && (|seen| < capacity || (exists e :: e in seen && e.0 == value) ==>
                  forall e :: e in seen && e.0 != value ==> e in after)
  {
    PositionIs(seen, value);
    var p := Position(seen, value);
    if p.Some? {
      NotedInPlace(seen, value, now, p.value);
    } else {
      var kept := if |seen| >= capacity && seen != [] then seen[1..] else seen;
      assert forall e :: e in kept ==> e in seen;
      NotedLast(kept, value, now);
    }
  }

  lemma NotedInPlace<T>(seen: seq<(T, int)>, value: T, now: int, p: nat)
    requires DistinctValues(seen) && p < |seen| && seen[p].0 == value
    ensures var after := seen[p := (value, now)];
            && DistinctValues(after) && (value, now) in after
            && (forall e :: e in after && e.0 != value ==> e in seen)
            && (forall e :: e in after && e.0 == value ==> e == (value, now))
            && (forall e :: e in seen && e.0 != value ==> e in after)
  {
    var after := seen[p := (value, now)];
    assert after[p] == (value, now);
    forall e | e in seen && e.0 != value
      ensures e in after
    {
      var i :| 0 <= i < |seen| && seen[i] == e;
      assert after[i] == e;
    }
  }

  lemma NotedLast<T>(kept: seq<(T, int)>, value: T, now: int)
    requires DistinctValues(kept) && forall e :: e in kept ==> e.0 != value
    ensures var after := kept + [(value, now)];
            && DistinctValues(after) && (value, now) in after
            && (forall e :: e in after && e.0 != value ==> e in kept)
            && (forall e :: e in after && e.0 == value ==> e == (value, now))
            && (forall e :: e in kept ==> e in after)
  {
    var after := kept + [(value, now)];
    assert after[|kept|] == (value, now);
    forall i, j | 0 <= i < j < |after|
      ensures after[i].0 != after[j].0
    {
      if j == |kept| { assert kept[i] in kept; }
    }
  }

  lemma ValuesSize<T>(seen: seq<(T, int)>)
    requires DistinctValues(seen)
    ensures |Values(seen)| == |seen|
  {
    if seen != [] {
      var most, last := seen[..|seen| - 1], seen[|seen| - 1];
      assert seen == most + [last];
      ValuesSize(most);
      assert Values(seen) == Values(most) + {last.0};
      forall e | e in most
        ensures e.0 != last.0
      {
        var i :| 0 <= i < |most| && most[i] == e;
        assert seen[i].0 != seen[|seen| - 1].0;
      }
    }
  }

  // What the window holds is live, once each, under its last stamp; and if the
  // window was never short of room it holds everything live.
  lemma {:induction false} WindowHolds<T(!new)>(trace: seq<(T, int)>, capacity: nat, window: nat)
    requires 1 <= capacity && window <= LONGEST_SPAN && InOrder(trace) && trace != []
    ensures var seen := DistinctAfter(trace, capacity, window);
            var now := trace[|trace| - 1].1;
            && DistinctValues(seen)
            && (forall e :: e in seen ==> LastStamp(trace, e) && now - e.1 <= window)
            && Values(seen) <= Live(trace, now, window)
            && (Roomy(trace, capacity, window) ==> Values(seen) == Live(trace, now, window))
  {
    var most, last := trace[..|trace| - 1], trace[|trace| - 1];
    assert trace == most + [last];
    var before := DistinctAfter(most, capacity, window);
    if most != [] {
      WindowHolds(most, capacity, window);
    }
    FreshIs(before, last.1, window);
    var kept := Fresh(before, last.1, window);
    NotedIs(kept, capacity, last.0, last.1);
    var seen := DistinctAfter(trace, capacity, window);
    var now := last.1;
    assert seen == Noted(kept, capacity, last.0, last.1);
    forall e | e in seen
      ensures LastStamp(trace, e) && now - e.1 <= window
    {
      StampStays(most, last, e, e.0 != last.0 && e in before);
    }
    forall v | v in Values(seen)
      ensures v in Live(trace, now, window)
    {
      var e :| e in seen && e.0 == v;
      assert e in trace;
    }
    if Roomy(trace, capacity, window) {
      RoomyPrefix(trace, capacity, window);
      EverythingLiveHeld(most, last, before, kept, capacity, window);
    }
  }

  lemma StampStays<T>(most: seq<(T, int)>, last: (T, int), e: (T, int), held: bool)
    requires InOrder(most + [last])
    requires if held then e.0 != last.0 && LastStamp(most, e) else e == last
    ensures LastStamp(most + [last], e)
  {
    var trace := most + [last];
    forall x | x in trace && x.0 == e.0
      ensures x.1 <= e.1
    {
      var i :| 0 <= i < |trace| && trace[i] == x;
      if !held && i < |most| { assert trace[i].1 <= trace[|most|].1; }
    }
  }

  lemma RoomyPrefix<T(!new)>(trace: seq<(T, int)>, capacity: nat, window: nat)
    requires trace != [] && Roomy(trace, capacity, window)
    ensures Roomy(trace[..|trace| - 1], capacity, window)
    ensures |Live(trace, trace[|trace| - 1].1, window)| <= capacity
  {
    var most := trace[..|trace| - 1];
    forall k | 0 < k <= |most|
      ensures |Live(most[..k], most[k - 1].1, window)| <= capacity
    {
      assert most[..k] == trace[..k];
    }
    assert trace[..|trace|] == trace;
  }

  lemma EverythingLiveHeld<T(!new)>(most: seq<(T, int)>, last: (T, int), before: seq<(T, int)>, kept: seq<(T, int)>,
                                    capacity: nat, window: nat)
    requires 1 <= capacity && InOrder(most + [last])
    requires kept == Fresh(before, last.1, window) && DistinctValues(before)
    requires forall e :: e in before ==> LastStamp(most, e)
    requires most == [] ==> before == []
    requires most != [] ==> Values(before) == Live(most, most[|most| - 1].1, window)
    requires |Live(most + [last], last.1, window)| <= capacity
    ensures Values(Noted(kept, capacity, last.0, last.1)) == Live(most + [last], last.1, window)
  {
    var trace := most + [last];
    var now := last.1;
    var live := Live(trace, now, window);
    FreshIs(before, now, window);
    NotedIs(kept, capacity, last.0, last.1);
    ValuesSize(kept);
    assert last in trace;
    forall e | e in kept
      ensures e in trace && e.0 in live
    {
      assert e in most;
    }
    if last.0 !in Values(kept) {
      SubsetSize(Values(kept) + {last.0}, live);
      assert |kept| < capacity;
    } else {
      var e :| e in kept && e.0 == last.0;
    }
    var after := Noted(kept, capacity, last.0, last.1);
    forall v | v in live
      ensures v in Values(after)
    {
      if v != last.0 {
        var x :| x in trace && now - x.1 <= window && x.0 == v;
        LiveBefore(most, last, x, window);
        assert v in Values(before);
        var e :| e in before && e.0 == v;
        assert e in kept;
        assert e in after;
      } else {
        assert (last.0, last.1) in after;
      }
    }
    forall v | v in Values(after)
      ensures v in live
    {
      var e :| e in after && e.0 == v;
    }
  }

  lemma LiveBefore<T>(most: seq<(T, int)>, last: (T, int), x: (T, int), window: nat)
    requires InOrder(most + [last]) && x in most + [last] && x.0 != last.0 && last.1 - x.1 <= window
    ensures x in most && most != [] && x.0 in Live(most, most[|most| - 1].1, window)
  {
    var trace := most + [last];
    assert x in most;
    assert trace[|most| - 1].1 <= trace[|most|].1;
    assert most[|most| - 1].1 - x.1 <= window;
  }

  // The count never exceeds the number of distinct values recorded within the
  // window, and equals it whenever the window never ran short of room.
  lemma CountIsLive<T(!new)>(trace: seq<(T, int)>, capacity: nat, window: nat)
    requires 1 <= capacity && window <= LONGEST_SPAN && InOrder(trace) && trace != []
    ensures var count := |DistinctAfter(trace, capacity, window)|;
            var live := Live(trace, trace[|trace| - 1].1, window);
            && count <= |live|
            && (Roomy(trace, capacity, window) ==> count == |live|)
  {
    WindowHolds(trace, capacity, window);
    var seen := DistinctAfter(trace, capacity, window);
    ValuesSize(seen);
    SubsetSize(Values(seen), Live(trace, trace[|trace| - 1].1, window));
  }

  // Nor does it ever exceed the capacity.
  lemma {:induction false} CountWithinCapacity<T>(trace: seq<(T, int)>, capacity: nat, window: nat)
    requires 1 <= capacity
    ensures |DistinctAfter(trace, capacity, window)| <= capacity
  {
    if trace != [] {
      CountWithinCapacity(trace[..|trace| - 1], capacity, window);
      FreshShrinks(DistinctAfter(trace[..|trace| - 1], capacity, window), trace[|trace| - 1].1, window);
    }
  }

  lemma FreshShrinks<T>(seen: seq<(T, int)>, now: int, window: nat)
    ensures |Fresh(seen, now, window)| <= |seen|
  {}

  // ---------- events ----------

  function FreshEvents(events: seq<int>, now: int, window: nat): seq<int> {
    if events == [] then []
    else
      var last := events[|events| - 1];
      FreshEvents(events[..|events| - 1], now, window) + (if now - last <= window then [last] else [])
  }

  function RateRecorded(events: seq<int>, capacity: nat, now: int, window: nat): seq<int> {
    if window > LONGEST_SPAN then events
    else
      var kept := FreshEvents(events, now, window);
      (if |kept| >= capacity && kept != [] then kept[1..] else kept) + [now]
  }

  method RecordEvent(events: seq<int>, capacity: nat, now: int, window: nat) returns (after: seq<int>, count: nat)
    requires 1 <= capacity
    ensures after == RateRecorded(events, capacity, now, window) && count == |after|
  {
    if window > LONGEST_SPAN {
      return events, |events|;
    }
    after := [];
    assert events[..0] == [];
    for i := 0 to |events|
      invariant after == FreshEvents(events[..i], now, window)
    {
      assert events[..i + 1][..i] == events[..i];
      if now - events[i] <= window {
        after := after + [events[i]];
      }
    }
    assert events[..|events|] == events;
    if |after| >= capacity {
      after := after[1..];
    }
    after := after + [now];
    count := |after|;
  }

  class RateWindow {
    var events: seq<int>
    const capacity: nat

    ghost predicate Valid()
      reads this
    {
      1 <= capacity
    }

    constructor (capacity: nat)
      ensures Valid() && events == [] && this.capacity == if capacity >= 1 then capacity else 1
    {
      this.capacity := if capacity >= 1 then capacity else 1;
      events := [];
    }

    method Record(now: int, window: nat) returns (count: nat)
      requires Valid()
      modifies this
      ensures events == RateRecorded(old(events), capacity, now, window) && count == |events|
    {
      events, count := RecordEvent(events, capacity, now, window);
    }

    method Clear()
      modifies this
      ensures events == []
    {
      events := [];
    }
  }

  function RateAfter(trace: seq<int>, capacity: nat, window: nat): seq<int> {
    if trace == [] then []
    else RateRecorded(RateAfter(trace[..|trace| - 1], capacity, window), capacity, trace[|trace| - 1], window)
  }

  // How many of the events lie within the window of a moment.
  function Within(trace: seq<int>, now: int, window: nat): nat {
    if trace == [] then 0
    else Within(trace[..|trace| - 1], now, window) + (if now - trace[|trace| - 1] <= window then 1 else 0)
  }

  ghost predicate Sorted(trace: seq<int>) {
    forall i, j :: 0 <= i < j < |trace| ==> trace[i] <= trace[j]
  }

  // The events within the window of a moment are those from `c` on.
  ghost predicate Cut(trace: seq<int>, now: int, window: nat, c: nat) {
    && c <= |trace|
    && (forall i :: 0 <= i < c ==> now - trace[i] > window)
    && (forall i :: c <= i < |trace| ==> now - trace[i] <= window)
  }

  function Max(a: int, b: int): int {
    if a >= b then a else b
  }

  lemma NoneWithin(trace: seq<int>, now: int, window: nat)
    requires forall i :: 0 <= i < |trace| ==> now - trace[i] > window
    ensures Within(trace, now, window) == 0
  {}

  lemma {:induction false} CutExists(trace: seq<int>, now: int, window: nat) returns (c: nat)
    requires Sorted(trace)
    ensures Cut(trace, now, window, c) && Within(trace, now, window) == |trace| - c
  {
    if trace == [] {
      c := 0;
    } else {
      var most, last := trace[..|trace| - 1], trace[|trace| - 1];
      c := CutExists(most, now, window);
      if now - last > window {
        forall i | 0 <= i < |most|
          ensures now - most[i] > window
        {
          assert trace[i] <= last;
        }
        NoneWithin(most, now, window);
        c := |trace|;
      }
    }
  }

  // Filtering a suffix keeps the shorter suffix.
  lemma {:induction false} FreshSuffix(trace: seq<int>, from: nat, now: int, window: nat, c: nat)
    requires from <= |trace| && Cut(trace, now, window, c)
    ensures FreshEvents(trace[from..], now, window) == trace[Max(from, c)..]
  {
    if from < |trace| {
      var most, last := trace[..|trace| - 1], trace[|trace| - 1];
      var rest := trace[from..];
      assert rest[..|rest| - 1] == most[from..];
      if c == |trace| {
        FreshSuffix(most, from, now, window, |most|);
      } else {
        FreshSuffix(most, from, now, window, c);
        assert trace[Max(from, c)..] == most[Max(from, c)..] + [last];
      }
    }
  }

  // One more event on a window that holds a suffix of what came before.
  lemma RateOneMore(most: seq<int>, from: nat, now: int, capacity: nat, window: nat, c: nat)
    requires 1 <= capacity && window <= LONGEST_SPAN && c <= |most|
    requires from <= |most| && Cut(most, now, window, c)
    requires |most| - capacity <= from <= Max(c, |most| - capacity)
    ensures var trace := most + [now];
            RateRecorded(most[from..], capacity, now, window) == trace[Max(c, |trace| - capacity)..]
  {
    hide Cut, FreshEvents;
    FreshSuffix(most, from, now, window, c);
    RateSlice(most, Max(c, |most| - capacity), now, capacity);
  }

  lemma RateSlice(most: seq<int>, from: int, now: int, capacity: nat)
    requires 1 <= capacity && 0 <= from <= |most| && |most| - from <= capacity
    ensures var kept := most[from..];
            var trace := most + [now];
            var cut := Max(from, |trace| - capacity);
            (if |kept| >= capacity && kept != [] then kept[1..] else kept) + [now] == trace[cut..]
  {}

  lemma RateUnfold(trace: seq<int>, capacity: nat, window: nat)
    requires trace != []
    ensures var most := trace[..|trace| - 1];
            RateAfter(trace, capacity, window)
            == RateRecorded(RateAfter(most, capacity, window), capacity, trace[|trace| - 1], window)
  {}

  lemma CutOfMost(trace: seq<int>, window: nat, c: nat)
    requires trace != [] && Cut(trace, trace[|trace| - 1], window, c)
    ensures Cut(trace[..|trace| - 1], trace[|trace| - 1], window, c)
  {
    assert trace[|trace| - 1] - trace[|trace| - 1] <= window;
  }

  // The window is the trace's last events: those within the window, as many as
  // fit.
  lemma {:induction false} RateHolds(trace: seq<int>, capacity: nat, window: nat, c: nat)
    requires 1 <= capacity && window <= LONGEST_SPAN && Sorted(trace) && trace != []
    requires Cut(trace, trace[|trace| - 1], window, c)
    ensures RateAfter(trace, capacity, window) == trace[Max(c, |trace| - capacity)..]
  {
    hide Within, RateRecorded, RateAfter, Cut, Sorted;
    SortedMost(trace);
    var most, now := trace[..|trace| - 1], trace[|trace| - 1];
    assert trace == most + [now];
    CutOfMost(trace, window, c);
    CutRange(trace, now, window, c);
    CutRange(most, now, window, c);
    RateUnfold(trace, capacity, window);
    if most == [] {
      assert most[0..] == [] == RateAfter(most, capacity, window) by { RateNothing(capacity, window); }
      RateOneMore(most, 0, now, capacity, window, c);
    } else {
      var d := CutExists(most, most[|most| - 1], window);
      CutRange(most, most[|most| - 1], window, d);
      RateHolds(most, capacity, window, d);
      CutsGrow(most, most[|most| - 1], now, window, d, c);
      RateOneMore(most, Max(d, |most| - capacity), now, capacity, window, c);
    }
  }

  lemma SortedMost(trace: seq<int>)
    requires trace != [] && Sorted(trace)
    ensures Sorted(trace[..|trace| - 1])
    ensures |trace| > 1 ==> trace[|trace| - 2] <= trace[|trace| - 1]
  {}

  lemma RateNothing(capacity: nat, window: nat)
    ensures RateAfter([], capacity, window) == []
  {}

  lemma CutRange(trace: seq<int>, now: int, window: nat, c: nat)
    requires Cut(trace, now, window, c)
    ensures c <= |trace|
  {}

  lemma CutsGrow(trace: seq<int>, now: int, later: int, window: nat, c: nat, d: nat)
    requires now <= later && Cut(trace, now, window, c) && Cut(trace, later, window, d)
    ensures c <= d
  {
    assert d < c ==> now - trace[d] > window;
    assert d < |trace| ==> later - trace[d] <= window;
  }

  // The count is exactly the number of events within the window, up to the
  // capacity.
  lemma RateCount(trace: seq<int>, capacity: nat, window: nat)
    requires 1 <= capacity && window <= LONGEST_SPAN && Sorted(trace) && trace != []
    ensures var n := Within(trace, trace[|trace| - 1], window);
            |RateAfter(trace, capacity, window)| == if n <= capacity then n else capacity
  {
    var c := CutExists(trace, trace[|trace| - 1], window);
    RateHolds(trace, capacity, window, c);
  }

  // ---------- when recording changes nothing ----------

  // Full, and of this very moment.
  predicate FullOf(events: seq<int>, capacity: nat, now: int) {
    |events| >= capacity && forall i :: 0 <= i < |events| ==> events[i] == now
  }

  lemma SnocIs(a: seq<int>, x: int, b: seq<int>, y: int)
    ensures a + [x] == b + [y] <==> a == b && x == y
  {
    if a + [x] == b + [y] {
      assert (a + [x])[..|a|] == a && (b + [y])[..|b|] == b;
    }
  }

  lemma {:induction false} FreshIsShorter(events: seq<int>, now: int, window: nat)
    ensures |FreshEvents(events, now, window)| <= |events|
    ensures |FreshEvents(events, now, window)| == |events| ==> FreshEvents(events, now, window) == events
    ensures FreshEvents(events, now, window) + [now] != events
  {
    if events != [] {
      var most, last := events[..|events| - 1], events[|events| - 1];
      FreshIsShorter(most, now, window);
      assert most + [last] == events;
      var kept := FreshEvents(events, now, window);
      SnocIs(kept, now, most, last);
    }
  }

  lemma {:induction false} AllFresh(events: seq<int>, now: int, window: nat)
    requires forall i :: 0 <= i < |events| ==> events[i] == now
    ensures FreshEvents(events, now, window) == events
  {
    if events != [] {
      AllFresh(events[..|events| - 1], now, window);
    }
  }

  lemma {:induction false} ShiftedIsConstant(events: seq<int>, now: int)
    requires events != [] && events[1..] + [now] == events
    ensures forall i :: 0 <= i < |events| ==> events[i] == now
  {
    var i := |events| - 1;
    while i > 0
      invariant 0 <= i < |events|
      invariant forall j :: i <= j < |events| ==> events[j] == now
    {
      assert (events[1..] + [now])[i - 1] == events[i];
      i := i - 1;
    }
  }

  // Recording an event leaves the window as it was exactly when the window is
  // too long to measure, or already full of this very moment.
  lemma RecordingChangesNothing(events: seq<int>, capacity: nat, now: int, window: nat)
    requires 1 <= capacity
    ensures RateRecorded(events, capacity, now, window) == events <==> window > LONGEST_SPAN || FullOf(events, capacity, now)
  {
    hide FreshEvents;
    if window <= LONGEST_SPAN {
      var kept := FreshEvents(events, now, window);
      FreshIsShorter(events, now, window);
      if FullOf(events, capacity, now) {
        AllFresh(events, now, window);
        assert events[1..] + [now] == events;
      }
      if RateRecorded(events, capacity, now, window) == events && |kept| >= capacity {
        assert |kept| == |events|;
        ShiftedIsConstant(events, now);
      }
    }
  }

  // ---------- windows too long to measure ----------

  // A window longer than the clock library can represent is not applied: nothing
  // is ever recorded, so nothing is ever counted.
  lemma {:induction false} TooLongCountsNothing<T(!new)>(values: seq<(T, int)>, events: seq<int>, capacity: nat, window: nat)
    requires window > LONGEST_SPAN
    ensures DistinctAfter(values, capacity, window) == [] && RateAfter(events, capacity, window) == []
    decreases |values| + |events|
  {
    if values != [] {
      TooLongCountsNothing(values[..|values| - 1], events, capacity, window);
    } else if events != [] {
      TooLongCountsNothing(values, events[..|events| - 1], capacity, window);
    }
  }
}
