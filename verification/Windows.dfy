/**
 The bounded structures every analyzer keeps: a map that evicts its least
 recently touched key, a window of distinct values and a window of events.
 */
module Windows {
  import opened Options
  import opened Types

  // The longest span the clock library can represent; a longer window is not
  // applied at all.
  const LONGEST_SPAN: nat := 0x7FFF_FFFF_FFFF_FFFF * 1_000_000

  // ---------- the bounded map ----------

  ghost predicate Oldest<K, V>(m: map<K, (V, int)>, k: K) {
    k in m && forall x :: x in m ==> m[k].1 <= m[x].1
  }

  function MakeRoom<K, V>(m: map<K, (V, int)>, capacity: nat, key: K, victim: K): map<K, (V, int)> {
    if key !in m && |m| >= capacity then m - {victim} else m
  }

  function Inserted<K, V>(m: map<K, (V, int)>, capacity: nat, key: K, value: V, now: int, victim: K): map<K, (V, int)> {
    MakeRoom(m, capacity, key, victim)[key := (value, now)]
  }

  // The value found, or the default, under a fresh stamp.
  function Reached<K, V>(m: map<K, (V, int)>, capacity: nat, key: K, default: V, now: int, victim: K): map<K, (V, int)> {
    Inserted(m, capacity, key, if key in m then m[key].0 else default, now, victim)
  }

  // One key is there; every other is as it was, or gone.
  ghost predicate OthersKept<K(!new), V>(m: map<K, (V, int)>, n: map<K, (V, int)>, key: K) {
    key in n && forall k :: k in n && k != key ==> k in m && n[k] == m[k]
  }

  lemma InsertedKeepsOthers<K(!new), V>(m: map<K, (V, int)>, capacity: nat, key: K, value: V, now: int, victim: K)
    ensures OthersKept(m, Inserted(m, capacity, key, value, now, victim), key)
    ensures Inserted(m, capacity, key, value, now, victim)[key] == (value, now)
  {}

  lemma ReachedKeepsOthers<K(!new), V>(m: map<K, (V, int)>, capacity: nat, key: K, default: V, now: int, victim: K)
    ensures var reached := Reached(m, capacity, key, default, now, victim);
            OthersKept(m, reached, key) && reached[key].1 == now
  {
    InsertedKeepsOthers(m, capacity, key, if key in m then m[key].0 else default, now, victim);
  }

  // Reaching a value and writing through it is inserting what is written.
  lemma ReachedThenUpdated<K(!new), V>(m: map<K, (V, int)>, capacity: nat, key: K, default: V, v: V, now: int, victim: K)
    ensures Reached(m, capacity, key, default, now, victim)[key := (v, now)] == Inserted(m, capacity, key, v, now, victim)
  {}

  ghost predicate NeedsRoom<K, V>(m: map<K, (V, int)>, capacity: nat, key: K) {
    key !in m && |m| >= capacity
  }

  // ---------- the recency of a map, and its trace ----------

  // One touch of one key, and the key given up for it if one had to be.
  datatype Touch<K> = Touch(key: K, at: int, victim: K)

  function Stamps<K, V>(m: map<K, (V, int)>): map<K, int> {
    map k | k in m :: m[k].1
  }

  function Stamped<K>(stamps: map<K, int>, capacity: nat, t: Touch<K>): map<K, int> {
    (if t.key !in stamps && |stamps| >= capacity then stamps - {t.victim} else stamps)[t.key := t.at]
  }

  ghost predicate Fair<K>(stamps: map<K, int>, capacity: nat, t: Touch<K>) {
    t.key !in stamps && |stamps| >= capacity ==>
      t.victim in stamps && forall x :: x in stamps ==> stamps[t.victim] <= stamps[x]
  }

  function After<K>(capacity: nat, trace: seq<Touch<K>>): map<K, int> {
    if trace == [] then map[]
    else Stamped(After(capacity, trace[..|trace| - 1]), capacity, trace[|trace| - 1])
  }

  ghost predicate FairTrace<K>(capacity: nat, trace: seq<Touch<K>>) {
    trace == []
    || (FairTrace(capacity, trace[..|trace| - 1])
        && Fair(After(capacity, trace[..|trace| - 1]), capacity, trace[|trace| - 1]))
  }

  lemma StampsSize<K, V>(m: map<K, (V, int)>)
    ensures |Stamps(m)| == |m|
  {
    assert Stamps(m).Keys == m.Keys;
  }

  lemma StampsInserted<K, V>(m: map<K, (V, int)>, capacity: nat, key: K, value: V, now: int, victim: K)
    ensures Stamps(Inserted(m, capacity, key, value, now, victim)) == Stamped(Stamps(m), capacity, Touch(key, now, victim))
    ensures (NeedsRoom(m, capacity, key) ==> Oldest(m, victim)) ==> Fair(Stamps(m), capacity, Touch(key, now, victim))
  {
    StampsSize(m);
  }

  lemma InsertedSize<K, V>(m: map<K, (V, int)>, capacity: nat, key: K, value: V, now: int, victim: K)
    requires NeedsRoom(m, capacity, key) ==> victim in m
    ensures |Inserted(m, capacity, key, value, now, victim)|
         == if key in m || |m| >= capacity then |m| else |m| + 1
  {
    var room := MakeRoom(m, capacity, key, victim);
    if NeedsRoom(m, capacity, key) {
      assert room.Keys == m.Keys - {victim};
      assert |room.Keys| == |m.Keys| - 1;
    }
    var after := room[key := (value, now)];
    assert after.Keys == room.Keys + {key};
    if key in room {
      assert after.Keys == room.Keys;
    } else {
      assert |after.Keys| == |room.Keys| + 1;
    }
  }

  class BoundedMap<K(==, !new), V> {
    var entries: map<K, (V, int)>
    const capacity: nat
    var evictions: nat
    ghost var insertions: nat
    ghost var pruned: nat
    ghost var trace: seq<Touch<K>>

    // Never over capacity; every key ever inserted is still here, was evicted or
    // was pruned; and while nothing has been pruned the stamps are those of the
    // trace of touches.
    ghost predicate Valid()
      reads this
    {
      && 1 <= capacity
      && |entries| <= capacity
      && insertions == |entries| + evictions + pruned
      && (pruned == 0 ==> Stamps(entries) == After(capacity, trace) && FairTrace(capacity, trace))
    }

    constructor (capacity: nat)
      ensures Valid() && entries == map[] && evictions == 0 && pruned == 0 && trace == []
      ensures this.capacity == if capacity >= 1 then capacity else 1
    {
      this.capacity := if capacity >= 1 then capacity else 1;
      entries := map[];
      evictions := 0;
      insertions, pruned, trace := 0, 0, [];
    }

    function Get(key: K): Option<V>
      reads this
    {
      if key in entries then Some(entries[key].0) else None
    }

    // The value for a key, marking it as touched now.
    method GetMut(key: K, now: int) returns (value: Option<V>)
      requires Valid()
      modifies this
      ensures Valid() && evictions == old(evictions) && insertions == old(insertions) && pruned == old(pruned)
      ensures trace == old(trace) + if value.Some? then [Touch(key, now, key)] else []
      ensures value == old(Get(key))
      ensures entries == if value.Some? then old(entries)[key := (value.value, now)] else old(entries)
    {
      if key !in entries {
        return None;
      }
      value := Some(entries[key].0);
      StampsInserted(entries, capacity, key, entries[key].0, now, key);
      InsertedSize(entries, capacity, key, entries[key].0, now, key);
      entries := entries[key := (entries[key].0, now)];
      trace := trace + [Touch(key, now, key)];
      assert trace[..|trace| - 1] == old(trace);
    }

    method Insert(key: K, value: V, now: int) returns (ghost victim: K)
      requires Valid()
      modifies this
      ensures Valid()
      ensures NeedsRoom(old(entries), capacity, key) ==> Oldest(old(entries), victim)
      ensures entries == Inserted(old(entries), capacity, key, value, now, victim)
      ensures evictions == old(evictions) + if NeedsRoom(old(entries), capacity, key) then 1 else 0
      ensures insertions == old(insertions) + if key in old(entries) then 0 else 1
      ensures pruned == old(pruned) && trace == old(trace) + [Touch(key, now, victim)]
    {
      victim := key;
      if key !in entries && |entries| >= capacity {
        victim := EvictOldest();
      }
      StampsInserted(old(entries), capacity, key, value, now, victim);
      InsertedSize(old(entries), capacity, key, value, now, victim);
      if key !in old(entries) { insertions := insertions + 1; }
      entries := entries[key := (value, now)];
      trace := trace + [Touch(key, now, victim)];
      assert trace[..|trace| - 1] == old(trace);
    }

    // The value for a key, putting the default there first if it is absent.  The
    // caller writes back what it makes of the value with `Update`.
    method EntryOrInsertWith(key: K, now: int, default: V) returns (value: V, ghost victim: K)
      requires Valid()
      modifies this
      ensures Valid()
      ensures NeedsRoom(old(entries), capacity, key) ==> Oldest(old(entries), victim)
      ensures entries == Reached(old(entries), capacity, key, default, now, victim)
      ensures value == if key in old(entries) then old(entries)[key].0 else default
      ensures evictions == old(evictions) + if NeedsRoom(old(entries), capacity, key) then 1 else 0
      ensures insertions == old(insertions) + if key in old(entries) then 0 else 1
      ensures pruned == old(pruned) && trace == old(trace) + [Touch(key, now, victim)]
    {
      value := if key in entries then entries[key].0 else default;
      victim := Insert(key, value, now);
    }

    // Writes through a borrowed value: the stamp stays.
    method Update(key: K, value: V)
      requires Valid() && key in entries
      modifies this`entries
      ensures Valid() && entries == old(entries)[key := (value, old(entries)[key].1)]
    {
      StampsUpdated(entries, key, value);
      entries := entries[key := (value, entries[key].1)];
    }

    method Prune(now: int, maxAge: nat)
      requires Valid()
      modifies this
      ensures Valid() && evictions == old(evictions) && insertions == old(insertions) && trace == old(trace)
      ensures pruned == old(pruned) + (|old(entries)| - |entries|)
      ensures entries == if maxAge > LONGEST_SPAN then old(entries)
                         else map k | k in old(entries) && now - old(entries)[k].1 <= maxAge :: old(entries)[k]
    {
      if maxAge > LONGEST_SPAN {
        return;
      }
      var kept := map k | k in entries && now - entries[k].1 <= maxAge :: entries[k];
      assert kept.Keys <= entries.Keys;
      SubsetSize(kept.Keys, entries.Keys);
      if |kept| == |entries| {
        SameSize(kept.Keys, entries.Keys);
        assert kept == entries;
      }
      pruned := pruned + (|entries| - |kept|);
      entries := kept;
    }

    // Removes a least recently touched entry; which one among equals depends on
    // the map's iteration order.
    method EvictOldest() returns (oldest: K)
      requires entries != map[]
      modifies this`entries, this`evictions
      ensures Oldest(old(entries), oldest)
      ensures entries == old(entries) - {oldest} && evictions == old(evictions) + 1
    {
      oldest :| oldest in entries;
      var rest := entries.Keys - {oldest};
      while rest != {}
        invariant rest <= entries.Keys && oldest in entries
        invariant forall x :: x in entries && x !in rest ==> entries[oldest].1 <= entries[x].1
        decreases rest
      {
        var k :| k in rest;
        if entries[k].1 < entries[oldest].1 {
          oldest := k;
        }
        rest := rest - {k};
      }
      entries := entries - {oldest};
      evictions := evictions + 1;
    }
  }

  lemma StampsUpdated<K, V>(m: map<K, (V, int)>, key: K, value: V)
    requires key in m
    ensures Stamps(m[key := (value, m[key].1)]) == Stamps(m)
    ensures |m[key := (value, m[key].1)]| == |m|
  {
    assert m[key := (value, m[key].1)].Keys == m.Keys;
  }

  lemma SubsetSize<K>(a: set<K>, b: set<K>)
    requires a <= b
    ensures |a| <= |b|
  {
    assert b == a + (b - a);
  }

  lemma SameSize<K>(a: set<K>, b: set<K>)
    requires a <= b && |a| == |b|
    ensures a == b
  {
    assert b == a + (b - a);
  }

  // ---------- least recently used ----------

  // The keys touched since a key was last touched.
  function Since<K>(trace: seq<Touch<K>>, k: K): set<K> {
    if trace == [] || trace[|trace| - 1].key == k then {}
    else Since(trace[..|trace| - 1], k) + {trace[|trace| - 1].key}
  }

  predicate Touched<K(==)>(trace: seq<Touch<K>>, k: K) {
    exists t :: t in trace && t.key == k
  }

  ghost predicate Rising<K>(trace: seq<Touch<K>>) {
    forall i, j :: 0 <= i < j < |trace| ==> trace[i].at < trace[j].at
  }

  ghost predicate AllBefore<K>(stamps: map<K, int>, at: int) {
    forall k :: k in stamps ==> stamps[k] < at
  }

  // For a key held, the keys touched since are exactly the held ones with a later
  // stamp.
  ghost predicate Recency<K(!new)>(capacity: nat, trace: seq<Touch<K>>, k: K) {
    var stamps := After(capacity, trace);
    && (k in stamps <==> Touched(trace, k) && |Since(trace, k)| < capacity)
    && (k in stamps ==> forall x :: x in Since(trace, k) <==> x in stamps && stamps[x] > stamps[k])
  }

  lemma {:induction false} HeldStampsAreOld<K>(capacity: nat, trace: seq<Touch<K>>, k: K)
    requires k in After(capacity, trace)
    ensures exists t :: t in trace && t.key == k && t.at == After(capacity, trace)[k]
  {
    var most, last := trace[..|trace| - 1], trace[|trace| - 1];
    assert trace == most + [last];
    if last.key == k {
      assert last in trace;
    } else {
      HeldStampsAreOld(capacity, most, k);
      var t :| t in most && t.key == k && t.at == After(capacity, most)[k];
      assert t in trace;
    }
  }

  lemma {:induction false} NeverOver<K>(capacity: nat, trace: seq<Touch<K>>)
    requires 1 <= capacity && FairTrace(capacity, trace)
    ensures |After(capacity, trace)| <= capacity
  {
    if trace != [] {
      var most, last := trace[..|trace| - 1], trace[|trace| - 1];
      NeverOver(capacity, most);
      var stamps := After(capacity, most);
      var room := if last.key !in stamps && |stamps| >= capacity then stamps - {last.victim} else stamps;
      if last.key !in stamps && |stamps| >= capacity {
        assert room.Keys == stamps.Keys - {last.victim};
        assert |room.Keys| == |stamps.Keys| - 1;
      }
      assert room[last.key := last.at].Keys == room.Keys + {last.key};
      if last.key in room { assert room[last.key := last.at].Keys == room.Keys; }
    }
  }

  // With strictly increasing times the keys held are exactly those touched by
  // fewer than `capacity` other keys since: the most recent ones.
  lemma {:induction false} HoldsMostRecent<K(!new)>(capacity: nat, trace: seq<Touch<K>>)
    requires 1 <= capacity && FairTrace(capacity, trace) && Rising(trace)
    ensures forall k :: Recency(capacity, trace, k)
  {
    if trace != [] {
      var most, last := trace[..|trace| - 1], trace[|trace| - 1];
      HoldsMostRecent(capacity, most);
      NeverOver(capacity, most);
      LastIsLatest(capacity, trace);
      forall k
        ensures Recency(capacity, trace, k)
      {
        if k == last.key {
          assert last in trace;
          LatestKey(capacity, trace);
        } else {
          OtherKey(capacity, trace, k);
        }
      }
    }
  }

  lemma LastIsLatest<K>(capacity: nat, trace: seq<Touch<K>>)
    requires trace != [] && Rising(trace)
    ensures AllBefore(After(capacity, trace[..|trace| - 1]), trace[|trace| - 1].at)
  {
    var most := trace[..|trace| - 1];
    forall k | k in After(capacity, most)
      ensures After(capacity, most)[k] < trace[|trace| - 1].at
    {
      HeldStampsAreOld(capacity, most, k);
      var t :| t in most && t.key == k && t.at == After(capacity, most)[k];
      var i :| 0 <= i < |most| && most[i] == t;
      assert trace[i] == t;
    }
  }

  lemma LatestKey<K(!new)>(capacity: nat, trace: seq<Touch<K>>)
    requires 1 <= capacity && trace != [] && Rising(trace)
    requires AllBefore(After(capacity, trace[..|trace| - 1]), trace[|trace| - 1].at)
    ensures Recency(capacity, trace, trace[|trace| - 1].key)
  {
    var last := trace[|trace| - 1];
    assert last in trace;
    assert Since(trace, last.key) == {};
    var before, after := After(capacity, trace[..|trace| - 1]), After(capacity, trace);
    OneHolds(capacity, before, last);
    assert after == Stamped(before, capacity, last);
    forall x | x in after
      ensures after[x] <= after[last.key]
    {
      if x != last.key { assert after[x] == before[x]; }
    }
    assert Touched(trace, last.key);
  }

  // No two keys were last touched at the same time.
  lemma StampsDiffer<K>(capacity: nat, trace: seq<Touch<K>>, k: K, x: K)
    requires Rising(trace) && k != x && k in After(capacity, trace) && x in After(capacity, trace)
    ensures After(capacity, trace)[k] != After(capacity, trace)[x]
  {
    HeldStampsAreOld(capacity, trace, k);
    HeldStampsAreOld(capacity, trace, x);
    var t :| t in trace && t.key == k && t.at == After(capacity, trace)[k];
    var u :| u in trace && u.key == x && u.at == After(capacity, trace)[x];
    var i :| 0 <= i < |trace| && trace[i] == t;
    var j :| 0 <= j < |trace| && trace[j] == u;
    assert i < j || j < i;
  }

  lemma TouchedEarlier<K>(trace: seq<Touch<K>>, k: K)
    requires trace != [] && trace[|trace| - 1].key != k
    ensures Touched(trace, k) <==> Touched(trace[..|trace| - 1], k)
  {
    var most := trace[..|trace| - 1];
    assert trace == most + [trace[|trace| - 1]];
    if Touched(trace, k) {
      var t :| t in trace && t.key == k;
      assert t in most;
    }
  }

  lemma OtherKey<K(!new)>(capacity: nat, trace: seq<Touch<K>>, k: K)
    requires 1 <= capacity && FairTrace(capacity, trace) && Rising(trace)
    requires trace != [] && k != trace[|trace| - 1].key
    requires Recency(capacity, trace[..|trace| - 1], k)
    requires |After(capacity, trace[..|trace| - 1])| <= capacity
    requires AllBefore(After(capacity, trace[..|trace| - 1]), trace[|trace| - 1].at)
    ensures Recency(capacity, trace, k)
  {
    var most, last := trace[..|trace| - 1], trace[|trace| - 1];
    var before := After(capacity, most);
    TouchedEarlier(trace, k);
    var newer := Since(most, k);
    assert Since(trace, k) == newer + {last.key};
    OneHolds(capacity, before, last);
    if k in before {
      forall x | x in before && x != k
        ensures before[x] != before[k]
      {
        StampsDiffer(capacity, most, k, x);
      }
      HeldOrEvicted(capacity, before, last, k, newer);
    } else {
      SubsetSize(newer, Since(trace, k));
    }
  }

  // The key touched is in, and everything still held kept its stamp.
  lemma OneHolds<K>(capacity: nat, before: map<K, int>, last: Touch<K>)
    ensures var after := Stamped(before, capacity, last);
            && last.key in after && after[last.key] == last.at
            && forall x :: x in after && x != last.key ==> x in before && after[x] == before[x]
  {}

  // A held key stays unless it is the victim, and it is the victim exactly when
  // every other key held is more recent and there is no room.
  lemma HeldOrEvicted<K>(capacity: nat, before: map<K, int>, last: Touch<K>, k: K, newer: set<K>)
    requires 1 <= capacity && |before| <= capacity && Fair(before, capacity, last)
    requires k in before && k != last.key
    requires forall x :: x in newer <==> x in before && before[x] > before[k]
    requires forall x :: x in before && x != k ==> before[x] != before[k]
    ensures var after := Stamped(before, capacity, last);
            && (k in after <==> |newer + {last.key}| < capacity)
            && (k in after ==> forall x :: x in newer + {last.key} ==> x in after)
  {
    var others := before.Keys - {k};
    assert newer <= others;
    SubsetSize(newer, others);
    assert |others| == |before| - 1;
    if last.key in before {
      if last.key in newer {
        assert newer + {last.key} == newer;
      } else {
        assert newer <= others - {last.key};
        SubsetSize(newer, others - {last.key});
        assert |others - {last.key}| == |others| - 1;
      }
    } else if |before| >= capacity {
      if last.victim == k {
        assert forall x :: x in others ==> before[x] > before[k];
        assert newer == others;
      } else {
        assert last.victim !in newer;
        assert newer <= others - {last.victim};
        SubsetSize(newer, others - {last.victim});
        assert |others - {last.victim}| == |others| - 1;
      }
    }
  }
}
