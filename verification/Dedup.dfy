/**
 Suppressing repeated sightings: a set for the question and a queue for the
 order of forgetting, which must stay in step.
 */
module Dedup {
  import opened Types

  const LONGEST_RESOLUTION: nat := 0x7FFF_FFFF_FFFF_FFFF

  // The interface is left out on purpose: one frame seen twice is one sighting.
  datatype Key = Key(mac: Mac, kind: ObservationKind, bucket: int)

  // Whole seconds, rounded towards the past.
  function Timestamp(at: int): int {
    at / SECOND
  }

  function Resolution(seconds: nat): nat {
    var width := if seconds >= 1 then seconds else 1;
    if width <= LONGEST_RESOLUTION then width else 1
  }

  function KeyOf(obs: Observation, resolution: nat): Key
    requires resolution >= 1
  {
    Key(obs.mac, obs.kind, Timestamp(obs.observedAt) / resolution)
  }

  // Two sightings share a key exactly when they are of one device, of one kind,
  // and in one bucket of whole seconds, whichever interface saw them.
  lemma SameKey(a: Observation, b: Observation, resolution: nat)
    requires resolution >= 1
    ensures KeyOf(a, resolution) == KeyOf(b, resolution) <==>
              a.mac == b.mac && a.kind == b.kind
              && exists k: int :: InBucket(k, resolution, a.observedAt) && InBucket(k, resolution, b.observedAt)
  {
    BucketIs(a.observedAt, resolution);
    BucketIs(b.observedAt, resolution);
    forall k: int | InBucket(k, resolution, a.observedAt) && InBucket(k, resolution, b.observedAt)
      ensures Timestamp(a.observedAt) / resolution == Timestamp(b.observedAt) / resolution
    {
      OneBucket(k, Timestamp(a.observedAt) / resolution, resolution, a.observedAt);
      OneBucket(k, Timestamp(b.observedAt) / resolution, resolution, b.observedAt);
    }
  }

  ghost predicate InBucket(k: int, resolution: nat, at: int) {
    k * resolution * SECOND <= at < (k + 1) * resolution * SECOND
  }

  lemma BucketIs(at: int, resolution: nat)
    requires resolution >= 1
    ensures InBucket(Timestamp(at) / resolution, resolution, at)
  {
    var t := Timestamp(at);
    var k := t / resolution;
    assert k * resolution <= t < k * resolution + resolution;
    assert (k + 1) * resolution == k * resolution + resolution;
  }

  lemma OneBucket(j: int, k: int, resolution: nat, at: int)
    requires resolution >= 1 && InBucket(j, resolution, at) && InBucket(k, resolution, at)
    ensures j == k
  {
    if j < k {
      Ordered(j + 1, k, resolution);
    } else if k < j {
      Ordered(k + 1, j, resolution);
    }
  }

  lemma Ordered(j: int, k: int, resolution: nat)
    requires j <= k
    ensures j * resolution * SECOND <= k * resolution * SECOND
  {
    assert (k - j) * resolution >= 0;
    assert k * resolution == j * resolution + (k - j) * resolution;
  }

  // ---------- a queue of the last keys admitted ----------

  function Last(keys: seq<Key>, n: nat): seq<Key> {
    if |keys| <= n then keys else keys[|keys| - n..]
  }

  // What is admitted of a stream of keys: those not among the last `capacity`
  // admitted.
  function Admitted(keys: seq<Key>, capacity: nat): seq<Key> {
    if keys == [] then []
    else
      var before := Admitted(keys[..|keys| - 1], capacity);
      var k := keys[|keys| - 1];
      if k in Last(before, capacity) then before else before + [k]
  }

  function SetOf(keys: seq<Key>): set<Key> {
    set k | k in keys
  }

  ghost predicate Distinct(keys: seq<Key>) {
    forall i, j :: 0 <= i < j < |keys| ==> keys[i] != keys[j]
  }

  // Admissions of one key are more than `capacity` admissions apart.
  ghost predicate Spaced(keys: seq<Key>, capacity: nat) {
    forall i, j :: 0 <= i < j < |keys| && keys[i] == keys[j] ==> j - i > capacity
  }

  // Among the last few.
  ghost predicate Recent(keys: seq<Key>, n: nat, k: Key) {
    exists i :: 0 <= i < |keys| && keys[i] == k && |keys| - i <= n
  }

  lemma LastAreRecent(keys: seq<Key>, n: nat, k: Key)
    ensures k in Last(keys, n) <==> Recent(keys, n, k)
  {
    var last := Last(keys, n);
    var from := |keys| - |last|;
    if k in last {
      var j :| 0 <= j < |last| && last[j] == k;
      assert keys[from + j] == k;
    }
    if Recent(keys, n, k) {
      var i :| 0 <= i < |keys| && keys[i] == k && |keys| - i <= n;
      assert last[i - from] == k;
    }
  }

  lemma {:induction false} AdmittedSpaced(keys: seq<Key>, capacity: nat)
    ensures Spaced(Admitted(keys, capacity), capacity)
  {
    if keys != [] {
      hide Last;
      AdmittedSpaced(keys[..|keys| - 1], capacity);
      LastAreRecent(Admitted(keys[..|keys| - 1], capacity), capacity, keys[|keys| - 1]);
    }
  }

  // So the keys retained are distinct.
  lemma LastDistinct(keys: seq<Key>, capacity: nat)
    ensures Distinct(Last(Admitted(keys, capacity), capacity))
  {
    AdmittedSpaced(keys, capacity);
    hide Admitted;
    var admitted := Admitted(keys, capacity);
    var last := Last(admitted, capacity);
    forall i, j | 0 <= i < j < |last|
      ensures last[i] != last[j]
    {
      var from := |admitted| - |last|;
      assert last[i] == admitted[from + i] && last[j] == admitted[from + j];
    }
  }

  // A sighting is suppressed exactly when its key was admitted and fewer than
  // `capacity` others have been admitted since.
  lemma SuppressedExactlyWhen(keys: seq<Key>, capacity: nat, k: Key)
    ensures Admitted(keys + [k], capacity)
         == if Recent(Admitted(keys, capacity), capacity, k) then Admitted(keys, capacity) else Admitted(keys, capacity) + [k]
  {
    hide Last, Recent;
    assert (keys + [k])[..|keys|] == keys;
    LastAreRecent(Admitted(keys, capacity), capacity, k);
  }

  lemma SetOfTail(keys: seq<Key>)
    requires keys != [] && Distinct(keys)
    ensures SetOf(keys[1..]) == SetOf(keys) - {keys[0]}
  {
    forall k | k in SetOf(keys) - {keys[0]}
      ensures k in keys[1..]
    {
      var i :| 0 <= i < |keys| && keys[i] == k;
      assert keys[1..][i - 1] == k;
    }
  }

  lemma LastMore(keys: seq<Key>, k: Key, capacity: nat)
    requires capacity >= 1
    ensures var more := Last(keys, capacity) + [k];
            Last(keys + [k], capacity) == if |more| > capacity then more[1..] else more
  {}

  lemma {:induction false} DistinctSize(keys: seq<Key>)
    requires Distinct(keys)
    ensures |SetOf(keys)| == |keys|
  {
    if keys == [] {
      assert SetOf(keys) == {};
    } else {
      SetOfTail(keys);
      DistinctSize(keys[1..]);
      assert keys[0] in SetOf(keys);
    }
  }

  class ObservationDedup {
    var seen: set<Key>
    var order: seq<Key>
    const capacity: nat
    const resolution: nat
    var duplicates: nat
    // Every key asked about, in order.
    ghost var asked: seq<Key>

    // The queue is the last keys admitted, the set is the queue's, and every
    // call was either admitted or suppressed.
    ghost predicate Valid()
      reads this
    {
      && 1 <= capacity && 1 <= resolution
      && order == Last(Admitted(asked, capacity), capacity)
      && seen == SetOf(order)
      && |Admitted(asked, capacity)| + duplicates == |asked|
    }

    constructor (capacity: nat, resolution: nat)
      ensures Valid() && asked == [] && duplicates == 0
      ensures this.capacity == (if capacity >= 1 then capacity else 1) && this.resolution == Resolution(resolution)
    {
      this.capacity := if capacity >= 1 then capacity else 1;
      this.resolution := Resolution(resolution);
      seen, order, duplicates, asked := {}, [], 0, [];
    }

    // New exactly when the key is not among the last admitted.
    method Admit(obs: Observation) returns (isNew: bool)
      requires Valid()
      modifies this
      ensures Valid()
      ensures asked == old(asked) + [KeyOf(obs, resolution)]
      ensures isNew <==> Admitted(asked, capacity) == old(Admitted(asked, capacity)) + [KeyOf(obs, resolution)]
      ensures !isNew <==> Admitted(asked, capacity) == old(Admitted(asked, capacity))
      ensures duplicates == old(duplicates) + if isNew then 0 else 1
    {
      hide Last, KeyOf;
      var key := KeyOf(obs, resolution);
      ghost var admitted := Admitted(asked, capacity);
      asked := asked + [key];
      assert asked[..|asked| - 1] == old(asked);
      if key in seen {
        duplicates := duplicates + 1;
        return false;
      }
      seen := seen + {key};
      LastDistinct(old(asked), capacity);
      LastMore(admitted, key, capacity);
      LastSize(admitted, capacity);
      order := order + [key];
      ghost var all := order;
      while |order| > capacity
        invariant asked == old(asked) + [key] && duplicates == old(duplicates)
        invariant order == all || (|all| == capacity + 1 && order == all[1..])
        invariant Distinct(all) && SetOf(order) == seen
      {
        SetOfTail(order);
        var oldest := order[0];
        order := order[1..];
        seen := seen - {oldest};
      }
      return true;
    }

    method Len() returns (n: nat)
      requires Valid()
      ensures n == |order| <= capacity
    {
      LastDistinct(asked, capacity);
      DistinctSize(order);
      n := |seen|;
    }
  }

  lemma LastSize(keys: seq<Key>, n: nat)
    ensures |Last(keys, n)| == if |keys| <= n then |keys| else n
  {}
}
