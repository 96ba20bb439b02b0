/**
 Facts about the device table that every later module leans on: runs of
 operations compose, evidence lists hold each signal once, and an operation
 disturbs only the device it names.
 */
module DeviceTableFacts {
  import opened Options
  import opened Types
  import opened Identities
  import opened DeviceTable

  // An override settles both timeouts of its own device type, where it gives
  // them, and nobody else's.
  lemma OverrideIsLocal(c: StateConfig, t: string, o: TimeoutOverride, other: Option<string>)
    ensures var d := c.(overrides := c.overrides[t := o]);
            var idle := if o.idle.Some? then o.idle.value else c.idleTimeout;
            var offline := if o.offline.Some? then o.offline.value else c.offlineTimeout;
            && d.IdleFor(Some(t)) == idle
            && d.OfflineFor(Some(t)) == (if offline >= idle then offline else idle)
            && (other != Some(t) ==> d.IdleFor(other) == c.IdleFor(other) && d.OfflineFor(other) == c.OfflineFor(other))
    ensures c.IdleFor(None) == c.idleTimeout
    ensures c.OfflineFor(None) == if c.offlineTimeout >= c.idleTimeout then c.offlineTimeout else c.idleTimeout
  {}

  // A frame from a group address or from none is no device's: it changes nothing.
  lemma NobodyIsHeard(env: Env, b: Book, obs: Observation)
    requires (obs.mac / 0x100_0000_0000) % 2 == 1 || obs.mac == 0
    ensures Apply(env, b, Observe(obs)) == Outcome(b, [], [], [])
  {}

  lemma PerformOne(env: Env, b: Book, op: Op)
    ensures PerformAll(env, b, [op]) == Perform(env, b, op)
  {
    assert [op][..0] == [];
    assert PerformAll(env, b, [op]) == Silent(b).Then(Perform(env, b, op));
  }

  lemma {:induction false} PerformAppend(env: Env, b: Book, first: seq<Op>, next: seq<Op>)
    ensures PerformAll(env, b, first + next)
         == PerformAll(env, b, first).Then(PerformAll(env, PerformAll(env, b, first).book, next))
  {
    hide Perform;
    if next == [] {
      assert first + next == first;
    } else {
      var all := first + next;
      assert all[..|all| - 1] == first + next[..|next| - 1];
      PerformAppend(env, b, first, next[..|next| - 1]);
    }
  }

  // ---------- evidence lists ----------

  lemma WithoutMembers(signals: seq<Signal>, gone: seq<Signal>, s: Signal)
    ensures s in Without(signals, gone) <==> s in signals && s !in gone
  {}

  lemma FirstsMembers(incoming: seq<Signal>, s: Signal)
    ensures s in Firsts(incoming) <==> s in incoming
  {
    if incoming != [] {
      FirstsMembers(incoming[..|incoming| - 1], s);
      assert incoming == incoming[..|incoming| - 1] + [incoming[|incoming| - 1]];
    }
  }

  lemma FirstsNoDup(incoming: seq<Signal>)
    ensures NoDup(Firsts(incoming))
  {}

  lemma {:induction false} WithoutNoDup(signals: seq<Signal>, gone: seq<Signal>)
    requires NoDup(signals)
    ensures NoDup(Without(signals, gone))
  {
    if signals != [] {
      var rest := Without(signals[1..], gone);
      WithoutNoDup(signals[1..], gone);
      if signals[0] !in gone {
        WithoutMembers(signals[1..], gone, signals[0]);
        assert signals[0] !in rest;
      }
    }
  }

  // A merge keeps every piece of evidence, old and new, exactly once.
  lemma MergedKeepsEvidence(signals: seq<Signal>, incoming: seq<Signal>)
    requires NoDup(signals)
    ensures NoDup(Merged(signals, incoming))
    ensures forall s :: s in Merged(signals, incoming) <==> s in signals || s in incoming
  {
    FirstsNoDup(incoming);
    WithoutNoDup(signals, incoming);
    forall s
      ensures s in Firsts(incoming) <==> s in incoming
      ensures s in Without(signals, incoming) <==> s in signals && s !in incoming
    {
      FirstsMembers(incoming, s);
      WithoutMembers(signals, incoming, s);
    }
    var a, z := Firsts(incoming), Without(signals, incoming);
    forall i, j | 0 <= i < j < |a + z|
      ensures (a + z)[i] != (a + z)[j]
    {
      if i < |a| <= j {
        assert a[i] in a && z[j - |a|] in z;
      }
    }
  }

  // ---------- what every table keeps ----------

  ghost predicate Sound(b: Book) {
    forall m :: m in b.devices ==> b.devices[m].mac == m && NoDup(b.devices[m].signals)
  }

  lemma HeardSound(e: Entry, obs: Observation, mine: seq<Signal>)
    requires NoDup(e.signals)
    ensures Heard(e, obs, mine).mac == e.mac && NoDup(Heard(e, obs, mine).signals)
  {
    hide NonBlank, Merged, IsRecordable, IsLinkLocal, IsBlank;
    MergedKeepsEvidence(e.signals, NonBlank(obs.signals) + mine);
  }

  lemma PerformSound(env: Env, b: Book, op: Op)
    requires Sound(b)
    ensures Sound(Perform(env, b, op).book)
  {
    hide HearingEffects, Heard, Changes, Merged, SweepEffects, DiscoveryEffects, NameEffects, EventFor,
         Resolve, Consider, IsBlank;
    match op {
      case Hear(obs, mine, _, _) =>
        if obs.mac in b.devices { HeardSound(b.devices[obs.mac], obs, mine); }
      case Learn(mac, signal, _) =>
        if mac in b.devices { MergedKeepsEvidence(b.devices[mac].signals, [signal]); }
      case _ =>
    }
  }

  lemma {:induction false} PerformAllSound(env: Env, b: Book, ops: seq<Op>)
    requires Sound(b)
    ensures Sound(PerformAll(env, b, ops).book)
  {
    hide Perform;
    if ops != [] {
      PerformAllSound(env, b, ops[..|ops| - 1]);
      PerformSound(env, PerformAll(env, b, ops[..|ops| - 1]).book, ops[|ops| - 1]);
    }
  }

  lemma {:induction false} RunSound(env: Env, learning: bool, steps: seq<Step>)
    ensures Sound(Run(env, learning, steps).book)
  {
    if steps != [] {
      RunSound(env, learning, steps[..|steps| - 1]);
      var b := Run(env, learning, steps[..|steps| - 1]).book;
      PerformAllSound(env, b, Plan(env, b, steps[|steps| - 1]));
    }
  }

  // ---------- who an operation is about ----------

  predicate About(op: Op, m: Mac) {
    match op
    case Discover(obs) => obs.mac == m
    case Index(_, _) => false
    case Hear(obs, _, _, _) => obs.mac == m
    case Learn(mac, _, _) => mac == m
    case Place(mac, _, _, _) => mac == m
    case Check(mac, _) => mac == m
    case Configure(setting) => setting.mac == m
    case Write(mac) => mac == m
    case StopLearning => false
    case Drain => false
  }

  // Everybody else's entry stays as it was, and only a discovery adds one.
  lemma Undisturbed(env: Env, b: Book, op: Op, m: Mac)
    ensures var after := Perform(env, b, op).book;
            && (!About(op, m) ==> (m in after.devices <==> m in b.devices)
                                  && (m in b.devices ==> after.devices[m] == b.devices[m]))
            && (m in b.devices ==> m in after.devices)
            && (!op.Discover? ==> (m in after.devices <==> m in b.devices))
            && (!op.Index? ==> after.addresses == b.addresses)
  {
    hide NewEntry, HearingEffects, Heard, Rescored, Reclassified, Changes, Merged, Swept, SweepEffects,
         DiscoveryEffects, NameEffects, EventFor;
  }

  // A first frame discovers its sender, so the sender is known when its own
  // evidence is folded in.
  lemma ArrivalKnows(env: Env, b: Book, obs: Observation)
    ensures var mid := PerformAll(env, b, Arrival(b, obs));
            && obs.mac in mid.book.devices
            && mid.book.devices == (if obs.mac in b.devices then b.devices
                                    else b.devices[obs.mac := NewEntry(env, obs, b.learning)])
            && mid.book.addresses == (if obs.ip.Some? && IsRecordable(obs.ip.value)
                                      then b.addresses[obs.ip.value := obs.mac] else b.addresses)
            && mid.book.learning == b.learning
            && mid.book.reclassifications == b.reclassifications
            && mid.book.unattributed == b.unattributed
            && mid.effects == (if obs.mac in b.devices then []
                               else DiscoveryEffects(NewEntry(env, obs, b.learning), obs, b.learning))
            && mid.flushed == [] && mid.rescorings == []
  {
    var discover := if obs.mac in b.devices then [] else [Discover(obs)];
    var index := if obs.ip.Some? && IsRecordable(obs.ip.value) then [Index(obs.ip.value, obs.mac)] else [];
    PerformAppend(env, b, discover, index);
    PerformOne(env, b, Discover(obs));
    if index != [] {
      PerformOne(env, PerformAll(env, b, discover).book, index[0]);
    }
  }

  // An accepted frame arrives, is heard, and may teach about others, in that
  // order.
  lemma ThreeParts(env: Env, b: Book, obs: Observation)
    requires IsDevice(obs.mac)
    ensures var arrival := PerformAll(env, b, Arrival(b, obs));
            var att := Attribute(arrival.book, obs);
            var hear := Hear(obs, att.mine, att.unattributed, obs.mac !in b.devices);
            var heard := Perform(env, arrival.book, hear);
            var learned := PerformAll(env, heard.book, Learns(att.others, obs.observedAt));
            && PerformAll(env, arrival.book, [hear]) == heard
            && Apply(env, b, Observe(obs)) == arrival.Then(heard).Then(learned)
  {
    hide Perform, Attribute, IsGroup, PerformAll, Arrival;
    var ops := Arrival(b, obs);
    var arrival := PerformAll(env, b, ops);
    var att := Attribute(arrival.book, obs);
    var hear := Hear(obs, att.mine, att.unattributed, obs.mac !in b.devices);
    PerformOne(env, arrival.book, hear);
    PerformAppend(env, b, ops, [hear]);
    PerformAppend(env, b, ops + [hear], Learns(att.others, obs.observedAt));
  }
}
