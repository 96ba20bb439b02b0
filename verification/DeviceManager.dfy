/**
 The manager object: the device table and its transitions, updated in place,
 each call tied to the operations of `DeviceTable` it performs.

 `history` records the calls made so far, so that every fact proved about runs
 is a fact about every live manager.
 */
module DeviceManager {
  import opened Options
  import opened Types
  import opened Identities
  import opened DeviceTable
  import opened DeviceTableFacts

  method IndexOf(signals: seq<Signal>, s: Signal) returns (pos: Option<nat>)
    ensures pos.None? <==> s !in signals
    ensures pos.Some? ==> pos.value < |signals| && signals[pos.value] == s
  {
    for i := 0 to |signals|
      invariant s !in signals[..i]
    {
      if signals[i] == s {
        return Some(i);
      }
    }
    return None;
  }

  lemma WithoutRepeat(signals: seq<Signal>, gone: seq<Signal>, s: Signal)
    requires s in gone
    ensures Without(signals, gone + [s]) == Without(signals, gone)
  {}

  lemma WithoutAbsent(signals: seq<Signal>, gone: seq<Signal>, s: Signal)
    requires s !in Without(signals, gone)
    ensures Without(signals, gone + [s]) == Without(signals, gone)
  {
    if signals != [] {
      var rest := Without(signals[1..], gone);
      assert Without(signals, gone) == (if signals[0] in gone then [] else [signals[0]]) + rest;
      assert forall x :: x in rest ==> x in Without(signals, gone);
      WithoutAbsent(signals[1..], gone, s);
    }
  }

  lemma NoDupTail(signals: seq<Signal>)
    requires NoDup(signals) && signals != []
    ensures NoDup(signals[1..]) && signals[0] !in signals[1..]
  {}

  lemma WithoutTwice(signals: seq<Signal>, gone: seq<Signal>, s: Signal)
    ensures Without(signals, gone + [s]) == Without(Without(signals, gone), [s])
  {
    if signals != [] {
      var rest := Without(signals[1..], gone);
      WithoutTwice(signals[1..], gone, s);
      if signals[0] in gone {
        assert Without(signals, gone) == rest;
      } else {
        assert ([signals[0]] + rest)[1..] == rest;
      }
    }
  }

  lemma {:induction false} WithoutOne(kept: seq<Signal>, pos: nat)
    requires NoDup(kept) && pos < |kept|
    ensures Without(kept, [kept[pos]]) == kept[..pos] + kept[pos + 1..]
  {
    hide NoDup;
    NoDupTail(kept);
    var rest := kept[1..];
    if pos == 0 {
      NothingRecorded(rest);
      WithoutAbsent(rest, [], kept[0]);
      assert [] + [kept[0]] == [kept[0]];
    } else {
      WithoutOne(rest, pos - 1);
      assert kept[0] != kept[pos];
      assert kept[..pos] + kept[pos + 1..] == [kept[0]] + (rest[..pos - 1] + rest[pos..]);
    }
  }

  // Dropping one more signal removes its one occurrence.
  lemma WithoutOneMore(signals: seq<Signal>, gone: seq<Signal>, pos: nat)
    requires NoDup(signals)
    requires pos < |Without(signals, gone)|
    ensures var kept := Without(signals, gone);
            Without(signals, gone + [kept[pos]]) == kept[..pos] + kept[pos + 1..]
  {
    hide NoDup, Without;
    WithoutTwice(signals, gone, Without(signals, gone)[pos]);
    WithoutNoDup(signals, gone);
    WithoutOne(Without(signals, gone), pos);
  }

  lemma FirstsOneMore(before: seq<Signal>, signal: Signal)
    ensures Firsts(before + [signal])
         == if signal in Firsts(before) then Firsts(before) else Firsts(before) + [signal]
  {
    assert (before + [signal])[..|before|] == before;
  }

  // Puts a block in front, one signal at a time from its end.
  method Prepend(batch: seq<Signal>, kept: seq<Signal>) returns (merged: seq<Signal>)
    ensures merged == batch + kept
  {
    merged := kept;
    var k := |batch|;
    while k > 0
      invariant 0 <= k <= |batch|
      invariant merged == batch[k..] + kept
    {
      k := k - 1;
      merged := [batch[k]] + merged;
    }
  }

  // Folds a batch of evidence in, at the front and in the order it was offered.
  method RecordSignals(signals: seq<Signal>, incoming: seq<Signal>) returns (merged: seq<Signal>, anyNew: bool)
    requires NoDup(signals)
    ensures merged == Merged(signals, incoming)
    ensures anyNew <==> exists s :: s in incoming && s !in signals
  {
    hide IsBlank, NoDup, Firsts, Without;
    merged := signals;
    anyNew := false;
    var batch: seq<Signal> := [];
    NothingRecorded(signals);
    assert incoming[..0] == [];
    for i := 0 to |incoming|
      invariant batch == Firsts(incoming[..i])
      invariant merged == Without(signals, incoming[..i])
      invariant anyNew <==> exists s :: s in incoming[..i] && s !in signals
    {
      var signal := incoming[i];
      ghost var before := incoming[..i];
      assert incoming[..i + 1] == before + [signal];
      FirstsOneMore(before, signal);
      FirstsMembers(before, signal);
      if signal in batch {
        WithoutRepeat(signals, before, signal);
        continue;
      }
      WithoutMembers(signals, before, signal);
      var pos := IndexOf(merged, signal);
      match pos {
        case Some(p) =>
          WithoutOneMore(signals, before, p);
          merged := merged[..p] + merged[p + 1..];
        case None =>
          WithoutAbsent(signals, before, signal);
          anyNew := true;
      }
      batch := batch + [signal];
    }
    assert incoming[..|incoming|] == incoming;
    merged := Prepend(batch, merged);
  }

  lemma NothingRecorded(signals: seq<Signal>)
    ensures Firsts([]) == [] && Without(signals, []) == signals
  {}

  // Recomputes the display identity; true when it changed.
  method Rescore(e: Entry, now: int) returns (after: Entry, adopted: bool)
    ensures after == Rescored(e, now)
    ensures adopted <==> after.identity != e.identity
  {
    hide Resolve, IsBlank;
    after := e;
    var candidate := Resolve(e.mac, e.signals, e.classification.deviceType);
    match Compare(candidate, e.identity) {
      case Worse => after := after.(pending := None);
      case Same => after := after.(pending := None);
      case Better => after := after.(pending := None, identity := candidate);
      case Rival =>
        var since := now;
        if e.pending.Some? && e.pending.value.identity.displayName == candidate.displayName {
          since := e.pending.value.since;
        }
        if Settled(since, now) {
          after := after.(pending := None, identity := candidate);
        } else {
          after := after.(pending := Some(Pending(candidate, since)));
        }
    }
    adopted := after.identity != e.identity;
  }

  class Manager {
    const env: Env
    ghost const began: bool
    var devices: map<Mac, Entry>
    var addresses: map<IpAddr, Mac>
    var learning: bool
    var reclassifications: seq<Reclassification>
    var unattributedClaims: nat
    ghost var history: seq<Step>

    ghost function Table(): Book
      reads this
    {
      Book(devices, addresses, learning, reclassifications, unattributedClaims)
    }

    ghost predicate Valid()
      reads this
    {
      && Table() == Run(env, began, history).book
      && FeasibleRun(env, began, history)
      && Sound(Table())
    }

    constructor (env: Env, learning: bool)
      ensures Valid() && this.env == env && began == learning && history == []
    {
      this.env := env;
      this.began := learning;
      this.devices := map[];
      this.addresses := map[];
      this.learning := learning;
      this.reclassifications := [];
      this.unattributedClaims := 0;
      this.history := [];
    }

    // Appends the call just made to the history.
    ghost method Record(step: Step, before: Book)
      requires before == Run(env, began, history).book && FeasibleRun(env, began, history)
      requires Feasible(before, step)
      requires Table() == Apply(env, before, step).book
      modifies this`history
      ensures Valid()
      ensures history == old(history) + [step]
    {
      hide Apply, Plan, Perform;
      history := history + [step];
      assert history[..|history| - 1] == old(history);
      RunSound(env, began, history);
    }

    // ---------- observing ----------

    method Discover(obs: Observation) returns (effects: seq<Effect>)
      requires obs.mac !in devices
      modifies this`devices
      ensures Table() == PerformDiscover(env, old(Table()), obs).book
      ensures effects == PerformDiscover(env, old(Table()), obs).effects
    {
      hide IsBlank, Resolve;
      var at := obs.observedAt;
      var signals: seq<Signal> := [];
      var vendor := env.vendorOf(obs.mac);
      if vendor.Some? {
        signals := signals + [Signal(Vendor, vendor.value)];
      }
      var entry := Entry(
        obs.mac, Online, at, at, None, None, Some(obs.interface), signals,
        Resolve(obs.mac, signals, None), None, UNCLASSIFIED, None, None, None, learning, true, 0, 0, true);
      assert signals == VendorSignals(env, obs.mac);
      assert entry == NewEntry(env, obs, learning);
      var best := entry.Best(Vendor);
      devices := devices[obs.mac := entry];

      effects := [Discovered(entry.Snapshot())];
      if best.Some? {
        effects := effects + [Evidence(obs.mac, Signal(Vendor, best.value), at)];
      }
      effects := effects + [PresenceOpened(obs.mac, obs.interface, Ipv4Of(obs.ip), at)];
      effects := effects + [EventFor(entry, NewDevice, Ipv4Of(obs.ip), Some(obs.interface), at, learning)];
      assert effects == DiscoveryEffects(entry, obs, learning);
    }

    // Works out whose evidence each claim is.
    method AttributeClaims(obs: Observation) returns (mine: seq<Signal>, others: seq<(Mac, Signal)>, unattributed: nat)
      ensures Attributed(mine, others, unattributed) == Attribute(Table(), obs)
    {
      hide IsBlank;
      mine, others, unattributed := [], [], 0;
      if obs.claims == [] {
        return;
      }
      var sender := if obs.mac in devices then devices[obs.mac].CurrentAddresses() else [];
      if obs.ip.Some? && obs.ip.value !in sender {
        sender := sender + [obs.ip.value];
      }
      assert sender == SenderAddresses(Table(), obs);
      var speaksForOthers := exists c :: c in obs.claims && c.addresses != [] && !c.Matches(sender);
      for i := 0 to |obs.claims|
        invariant Attributed(mine, others, unattributed) == AttributeAll(Table(), obs, obs.claims[..i])
      {
        assert obs.claims[..i + 1][..i] == obs.claims[..i];
        var claim := obs.claims[i];
        if IsBlank(claim.signal.value) {
          continue;
        }
        if claim.addresses == [] {
          if speaksForOthers {
            unattributed := unattributed + 1;
          } else {
            mine := mine + [claim.signal];
          }
          continue;
        }
        if claim.Matches(sender) {
          mine := mine + [claim.signal];
          continue;
        }
        var holder := FindHolder(claim.addresses);
        match holder {
          case Some(mac) =>
            if mac == obs.mac {
              mine := mine + [claim.signal];
            } else {
              others := others + [(mac, claim.signal)];
            }
          case None => unattributed := unattributed + 1;
        }
      }
      assert obs.claims[..|obs.claims|] == obs.claims;
    }

    method Holder(address: IpAddr) returns (holder: Option<Mac>)
      ensures holder == HolderOf(Table(), address)
    {
      if address !in addresses {
        return None;
      }
      var mac := addresses[address];
      if mac !in devices {
        return None;
      }
      return if devices[mac].Holds(address) then Some(mac) else None;
    }

    method FindHolder(candidates: seq<IpAddr>) returns (holder: Option<Mac>)
      ensures holder == FirstHolder(Table(), candidates)
    {
      for i := 0 to |candidates|
        invariant FirstHolder(Table(), candidates) == FirstHolder(Table(), candidates[i..])
      {
        holder := Holder(candidates[i]);
        if holder.Some? {
          return;
        }
      }
      return None;
    }

    // The sender is present: a device that had gone offline is back.
    method Revive(e: Entry, obs: Observation) returns (entry: Entry, effects: seq<Effect>)
      ensures entry == Revived(Touched(e, obs.observedAt))
      ensures effects == RevivalEffects(Touched(e, obs.observedAt), obs, learning)
    {
      hide IsBlank, IsHostV4, BestOf, EventFor, Ipv4Of;
      var at := obs.observedAt;
      entry := e;
      effects := [];
      if at > entry.lastSeenAt {
        entry := entry.(lastSeenAt := at);
      }
      entry := entry.(observationsSinceFlush := entry.observationsSinceFlush + 1, dirty := true);
      if entry.state == Offline {
        entry := entry.(state := Online);
        effects := effects + [PresenceOpened(entry.mac, obs.interface, Ipv4Of(obs.ip), at)];
        effects := effects + [EventFor(entry, Returned, Ipv4Of(obs.ip), Some(obs.interface), at, learning)];
      } else if entry.state == Idle {
        entry := entry.(state := Online);
      }
    }

    // The sender's addresses: only IPv4 moves `lastIp` and can raise a change.
    method Readdress(e: Entry, obs: Observation) returns (entry: Entry, effects: seq<Effect>)
      ensures entry == Addressed(e, obs.ip)
      ensures effects == AddressEffects(e, obs, learning)
    {
      hide IsBlank, IsHostV4, IsLinkLocal, BestOf, EventFor;
      var at := obs.observedAt;
      entry := e;
      effects := [];
      if obs.ip.Some? && IsRecordable(obs.ip.value) {
        var ip := obs.ip.value;
        effects := effects + [Address(entry.mac, ip, obs.interface, at)];
        if ip.V4? {
          var changed := entry.lastIp.Some? && entry.lastIp.value != ip.v4;
          entry := entry.(lastIp := Some(ip.v4));
          if changed {
            effects := effects + [EventFor(entry, IpChanged, Some(ip.v4), Some(obs.interface), at, learning)];
          }
        } else {
          var keepExisting := IsLinkLocal(ip.v6) && entry.lastIpv6.Some? && !IsLinkLocal(entry.lastIpv6.value);
          if !keepExisting {
            entry := entry.(lastIpv6 := Some(ip.v6));
          }
        }
      }
    }

    // The sender's own evidence, then the evidence attributed to it.
    method Inform(e: Entry, obs: Observation, mine: seq<Signal>) returns (entry: Entry, effects: seq<Effect>)
      requires NoDup(e.signals)
      ensures entry == Informed(e, obs.interface, NonBlank(obs.signals) + mine)
      ensures effects == EvidenceEffects(e.mac, NonBlank(obs.signals) + mine, obs.observedAt)
    {
      hide IsBlank, Merged, NonBlank;
      entry := e.(lastInterface := Some(obs.interface));
      var usable := Usable(obs.signals);
      usable := usable + mine;
      var merged, _ := RecordSignals(entry.signals, usable);
      entry := entry.(signals := merged);
      effects := [];
      var k := 0;
      assert usable[..0] == [];
      while k < |usable|
        invariant 0 <= k <= |usable|
        invariant effects == EvidenceEffects(e.mac, usable[..k], obs.observedAt)
      {
        assert usable[..k + 1][..k] == usable[..k];
        effects := effects + [Evidence(entry.mac, usable[k], obs.observedAt)];
        k := k + 1;
      }
      assert usable[..|usable|] == usable;
    }

    // Folds a frame into its sender's entry.
    method UpdateSender(obs: Observation, mine: seq<Signal>, discovered: bool) returns (effects: seq<Effect>)
      requires obs.mac in devices && devices[obs.mac].mac == obs.mac && NoDup(devices[obs.mac].signals)
      modifies this`devices, this`reclassifications
      ensures Table() == PerformHear(env, old(Table()), obs, mine, 0, discovered).book
      ensures effects == PerformHear(env, old(Table()), obs, mine, 0, discovered).effects
    {
      hide IsBlank, Resolve, Consider, BestOf, Merged, NonBlank, Located, RevivalEffects, AddressEffects, EventFor, Rescored;
      var at := obs.observedAt;
      var e := devices[obs.mac];
      LocatedKeeps(e, obs);
      var entry, revived := Revive(e, obs);
      var readdressed, informed;
      entry, readdressed := Readdress(entry, obs);
      LocatedIs(e, obs);
      entry, informed := Inform(entry, obs, mine);
      assert entry == Heard(e, obs, mine);
      effects := revived + readdressed + informed;

      var adopted;
      entry, adopted := Rescore(entry, at);
      if adopted && !discovered {
        effects := effects + [EventFor(entry, NameUpdated, entry.lastIp, Some(obs.interface), at, learning)];
      }
      assert effects == HearingEffects(e, obs, mine, learning, discovered);

      var previous := entry.classification;
      entry := entry.(classification := env.classify(entry.mac, entry.signals, entry.Best(Vendor), entry.AlwaysOn(at)));
      if ChangedAtAll(entry.classification, previous) {
        reclassifications := reclassifications + [
          Reclassification(entry.mac, entry.Display(), previous, entry.classification, Some(obs.interface), at)];
      }
      devices := devices[obs.mac := entry];
    }

    method Usable(signals: seq<Signal>) returns (usable: seq<Signal>)
      ensures usable == NonBlank(signals)
    {
      hide IsBlank;
      usable := [];
      assert signals[..0] == [];
      for i := 0 to |signals|
        invariant usable == NonBlank(signals[..i])
      {
        assert signals[..i + 1][..i] == signals[..i];
        if !IsBlank(signals[i].value) {
          usable := usable + [signals[i]];
        }
      }
      assert signals[..|signals|] == signals;
    }

    // Folds one piece of evidence into one device.
    method Fold(mac: Mac, signal: Signal, at: int) returns (effects: seq<Effect>)
      requires Sound(Table())
      modifies this`devices, this`reclassifications
      ensures Table() == PerformLearn(env, old(Table()), mac, signal, at).book
      ensures effects == PerformLearn(env, old(Table()), mac, signal, at).effects
      ensures Sound(Table())
    {
      hide IsBlank, Resolve, Consider, BestOf, Merged;
      PerformSound(env, Table(), Learn(mac, signal, at));
      if IsBlank(signal.value) {
        return [];
      }
      if mac !in devices {
        return [];
      }
      var entry := devices[mac];
      var merged, isNew := RecordSignals(entry.signals, [signal]);
      assert isNew <==> signal !in entry.signals;
      entry := entry.(signals := merged, dirty := true);
      effects := [Evidence(mac, signal, at)];
      if isNew {
        var adopted;
        entry, adopted := Rescore(entry, at);
        if adopted {
          effects := effects + [EventFor(entry, NameUpdated, entry.lastIp, entry.lastInterface, at, learning)];
        }
      }
      var previous := entry.classification;
      entry := entry.(classification := env.classify(entry.mac, entry.signals, entry.Best(Vendor), entry.AlwaysOn(at)));
      if ChangedAtAll(entry.classification, previous) {
        reclassifications := reclassifications + [
          Reclassification(mac, entry.Display(), previous, entry.classification, entry.lastInterface, at)];
      }
      devices := devices[mac := entry];
    }

    // Evidence a frame carried about other devices.
    method FoldAll(others: seq<(Mac, Signal)>, at: int) returns (effects: seq<Effect>)
      requires Sound(Table())
      modifies this`devices, this`reclassifications
      ensures Table() == PerformAll(env, old(Table()), Learns(others, at)).book
      ensures effects == PerformAll(env, old(Table()), Learns(others, at)).effects
    {
      hide Perform, PerformLearn;
      ghost var b := Table();
      effects := [];
      var k := 0;
      assert others[..0] == [];
      while k < |others|
        invariant 0 <= k <= |others|
        invariant Sound(Table())
        invariant Table() == PerformAll(env, b, Learns(others[..k], at)).book
        invariant effects == PerformAll(env, b, Learns(others[..k], at)).effects
      {
        assert others[..k + 1][..k] == others[..k];
        ghost var next := Learns(others[..k + 1], at);
        assert next[..k] == Learns(others[..k], at);
        LearnIsPerform(env, Table(), others[k].0, others[k].1, at);
        var learned := Fold(others[k].0, others[k].1, at);
        effects := effects + learned;
        k := k + 1;
      }
      assert others[..|others|] == others;
    }

    // Index and discovery: everything that comes before attribution.
    method Arrive(obs: Observation) returns (effects: seq<Effect>)
      requires Sound(Table())
      modifies this`devices, this`addresses
      ensures var mid := PerformAll(env, old(Table()), Arrival(old(Table()), obs));
              Table() == mid.book && effects == mid.effects
      ensures Sound(Table()) && obs.mac in devices
    {
      hide Perform, PerformDiscover, NewEntry, DiscoveryEffects, IsRecordable;
      ghost var b := Table();
      effects := [];
      if obs.mac !in devices {
        effects := Discover(obs);
        DiscoveredBook(env, b, obs);
      }
      if obs.ip.Some? && IsRecordable(obs.ip.value) {
        addresses := addresses[obs.ip.value := obs.mac];
      }
      ArrivalKnows(env, b, obs);
      PerformAllSound(env, b, Arrival(b, obs));
    }

    method Observe(obs: Observation) returns (effects: seq<Effect>)
      requires Valid()
      modifies this
      ensures Valid() && history == old(history) + [DeviceTable.Observe(obs)]
      ensures Table() == Apply(env, old(Table()), DeviceTable.Observe(obs)).book
      ensures effects == Apply(env, old(Table()), DeviceTable.Observe(obs)).effects
    {
      hide Perform, PerformHear, Attribute, Arrival, IsGroup, PerformAll, Run, FeasibleRun;
      ghost var b := Table();
      ghost var step := DeviceTable.Observe(obs);
      if IsGroup(obs.mac) || IsZero(obs.mac) {
        effects := [];
        NothingToDo(env, b);
        Record(step, b);
        return;
      }
      var known := obs.mac in devices;
      effects := Arrive(obs);
      ghost var mid := Table();
      var mine, others, unattributed := AttributeClaims(obs);
      CountedFirst(env, mid, obs, mine, unattributed, !known);
      unattributedClaims := unattributedClaims + unattributed;
      var heard := UpdateSender(obs, mine, !known);
      PerformOne(env, mid, Hear(obs, mine, unattributed, !known));
      PerformAllSound(env, mid, [Hear(obs, mine, unattributed, !known)]);
      var learned := FoldAll(others, obs.observedAt);
      effects := effects + heard + learned;
      ThreeParts(env, b, obs);
      Record(step, b);
    }

    method AddSignal(mac: Mac, signal: Signal, at: int) returns (effects: seq<Effect>)
      requires Valid()
      modifies this
      ensures Valid() && history == old(history) + [DeviceTable.AddSignal(mac, signal, at)]
      ensures Table() == PerformLearn(env, old(Table()), mac, signal, at).book
      ensures effects == PerformLearn(env, old(Table()), mac, signal, at).effects
    {
      hide PerformLearn;
      ghost var b0 := Table();
      PerformOne(env, b0, Learn(mac, signal, at));
      effects := Fold(mac, signal, at);
      Record(DeviceTable.AddSignal(mac, signal, at), b0);
    }

    method SetLocation(mac: Mac, ap: string, location: string, at: int) returns (effects: seq<Effect>)
      requires Valid()
      modifies this
      ensures Valid() && history == old(history) + [DeviceTable.SetLocation(mac, ap, location, at)]
      ensures Table() == PerformPlace(old(Table()), mac, ap, location, at).book
      ensures effects == PerformPlace(old(Table()), mac, ap, location, at).effects
    {
      hide IsBlank;
      ghost var b0 := Table();
      ghost var step := DeviceTable.SetLocation(mac, ap, location, at);
      PerformOne(env, b0, Place(mac, ap, location, at));
      effects := [];
      if mac !in devices {
        Record(step, b0);
        return;
      }
      var entry := devices[mac];
      if entry.currentAp == Some(ap) {
        Record(step, b0);
        return;
      }
      entry := entry.(currentAp := Some(ap), currentLocation := Some(location), dirty := true);
      devices := devices[mac := entry];
      effects := [LocationChanged(mac, ap, location, at),
                  EventFor(entry, DeviceLocationChanged, entry.lastIp, entry.lastInterface, at, learning)];
      Record(step, b0);
    }

    // ---------- sweeping and writing back ----------

    method CheckOne(mac: Mac, now: int) returns (effects: seq<Effect>)
      requires mac in devices
      modifies this`devices
      ensures Table() == PerformCheck(env, old(Table()), mac, now).book
      ensures effects == PerformCheck(env, old(Table()), mac, now).effects
      ensures devices.Keys == old(devices).Keys
    {
      hide IsBlank, BestOf, EventFor, StateConfig.IdleFor, StateConfig.OfflineFor;
      effects := [];
      var entry := devices[mac];
      if entry.state == Offline {
        assert devices == devices[mac := entry];
        return;
      }
      var silence := if now > entry.lastSeenAt then now - entry.lastSeenAt else 0;
      var deviceType := entry.classification.deviceType;
      var offlineAfter := env.config.OfflineFor(deviceType);
      var idleAfter := env.config.IdleFor(deviceType);
      if silence >= offlineAfter {
        entry := entry.(state := Offline, dirty := true);
        if entry.offlineTransitions < U32_MAX {
          entry := entry.(offlineTransitions := entry.offlineTransitions + 1);
        }
        effects := effects + [PresenceClosed(entry.mac, now)];
        if entry.currentAp.Some? {
          entry := entry.(currentAp := None, currentLocation := None);
          effects := effects + [LocationClosed(entry.mac, now)];
        }
        effects := effects + [EventFor(entry, WentOffline, entry.lastIp, entry.lastInterface, now, learning)];
      } else if silence >= idleAfter && entry.state == Online {
        entry := entry.(state := Idle, dirty := true);
      }
      devices := devices[mac := entry];
    }

    method Sweep(now: int) returns (effects: seq<Effect>, ghost order: seq<Mac>)
      requires Valid()
      modifies this
      ensures Valid() && history == old(history) + [DeviceTable.Sweep(now, order)]
      ensures Enumerates(order, old(devices))
      ensures Table() == Apply(env, old(Table()), DeviceTable.Sweep(now, order)).book
      ensures effects == Apply(env, old(Table()), DeviceTable.Sweep(now, order)).effects
    {
      hide PerformCheck, Perform, Apply, Plan, Run, FeasibleRun;
      ghost var b0 := Table();
      effects := [];
      order := [];
      SweepNothing(env, b0, now);
      var todo := devices.Keys;
      while todo != {}
        invariant history == old(history)
        invariant devices.Keys == b0.devices.Keys
        invariant todo <= devices.Keys
        invariant NoDup(order) && forall m :: m in order <==> m in b0.devices && m !in todo
        invariant Table() == Apply(env, b0, DeviceTable.Sweep(now, order)).book
        invariant effects == Apply(env, b0, DeviceTable.Sweep(now, order)).effects
        decreases todo
      {
        var mac :| mac in todo;
        SweepOneMore(env, b0, now, order, mac);
        CheckIsPerform(env, Table(), mac, now);
        var one := CheckOne(mac, now);
        effects := effects + one;
        order := order + [mac];
        todo := todo - {mac};
      }
      Record(DeviceTable.Sweep(now, order), b0);
    }

    method TakeDirty() returns (out: seq<DeviceSnapshot>, ghost order: seq<Mac>)
      requires Valid()
      modifies this
      ensures Valid() && history == old(history) + [DeviceTable.TakeDirty(order)]
      ensures Enumerates(order, old(devices))
      ensures Table() == Apply(env, old(Table()), DeviceTable.TakeDirty(order)).book
      ensures out == Apply(env, old(Table()), DeviceTable.TakeDirty(order)).flushed
    {
      hide Perform, PerformAll, Plan, BestOf;
      ghost var b0 := Table();
      out := [];
      order := [];
      NothingTaken(env, b0);
      var todo := devices.Keys;
      while todo != {}
        invariant history == old(history)
        invariant devices.Keys == b0.devices.Keys
        invariant todo <= devices.Keys
        invariant NoDup(order) && forall m :: m in order <==> m in b0.devices && m !in todo
        invariant Table() == Apply(env, b0, DeviceTable.TakeDirty(order)).book
        invariant out == Apply(env, b0, DeviceTable.TakeDirty(order)).flushed
        decreases todo
      {
        var mac :| mac in todo;
        TakeOneMore(env, b0, order, mac);
        var entry := devices[mac];
        if entry.dirty {
          out := out + [entry.Snapshot()];
          devices := devices[mac := entry.(dirty := false, observationsSinceFlush := 0)];
        }
        order := order + [mac];
        todo := todo - {mac};
      }
      Record(DeviceTable.TakeDirty(order), b0);
    }

    // ---------- the rest ----------

    // Folds one row of the user's into its entry.
    method ConfigureOne(setting: UserSettings) returns (changes: seq<UserChange>)
      modifies this`devices
      ensures Table() == PerformConfigure(old(Table()), setting).book
      ensures changes == if setting.mac in old(devices) then Edits(old(devices)[setting.mac], setting) else []
    {
      changes := [];
      if setting.mac !in devices {
        return;
      }
      var entry := devices[setting.mac];
      if entry.displayName != setting.displayName {
        changes := changes + [UserChange(setting.mac, "display_name", entry.displayName.GetOr(""), setting.displayName.GetOr(""))];
        entry := entry.(displayName := setting.displayName);
      }
      if entry.notify != setting.notify {
        changes := changes + [UserChange(setting.mac, "notify", BoolText(entry.notify), BoolText(setting.notify))];
        entry := entry.(notify := setting.notify);
      }
      devices := devices[setting.mac := entry];
    }

    method ApplyUserSettings(settings: seq<UserSettings>) returns (changes: seq<UserChange>)
      requires Valid()
      modifies this
      ensures Valid() && history == old(history) + [DeviceTable.ApplyUserSettings(settings)]
      ensures Table() == Apply(env, old(Table()), DeviceTable.ApplyUserSettings(settings)).book
      ensures changes == Reported(env, old(Table()), settings)
    {
      hide Apply, Plan, Perform, Run, FeasibleRun, Reported, Edits, PerformConfigure;
      ghost var b0 := Table();
      NothingReported(env, b0);
      changes := [];
      var k := 0;
      ConfigureNothing(env, b0);
      assert settings[..0] == [];
      while k < |settings|
        invariant 0 <= k <= |settings|
        invariant history == old(history)
        invariant Table() == Apply(env, b0, DeviceTable.ApplyUserSettings(settings[..k])).book
        invariant changes == Reported(env, b0, settings[..k])
      {
        ConfigureOneMore(env, b0, settings[..k], settings[k]);
        ReportedOneMore(env, b0, settings[..k], settings[k]);
        assert settings[..k] + [settings[k]] == settings[..k + 1];
        var edits := ConfigureOne(settings[k]);
        changes := changes + edits;
        k := k + 1;
      }
      assert settings[..|settings|] == settings;
      Record(DeviceTable.ApplyUserSettings(settings), b0);
    }

    method EndLearning()
      requires Valid()
      modifies this
      ensures Valid() && history == old(history) + [DeviceTable.EndLearning]
      ensures Table() == old(Table()).(learning := false)
    {
      ghost var b0 := Table();
      PerformOne(env, b0, StopLearning);
      learning := false;
      Record(DeviceTable.EndLearning, b0);
    }

    method TakeReclassifications() returns (taken: seq<Reclassification>)
      requires Valid()
      modifies this
      ensures Valid() && history == old(history) + [DeviceTable.TakeReclassifications]
      ensures taken == old(reclassifications)
      ensures Table() == old(Table()).(reclassifications := [])
    {
      ghost var b0 := Table();
      PerformOne(env, b0, Drain);
      taken := reclassifications;
      reclassifications := [];
      Record(DeviceTable.TakeReclassifications, b0);
    }
  }

  // ---------- unfolding one operation at a time ----------

  lemma DiscoveredBook(env: Env, b: Book, obs: Observation)
    requires obs.mac !in b.devices
    ensures var e := NewEntry(env, obs, b.learning);
            PerformDiscover(env, b, obs) == Outcome(With(b, obs.mac, e), DiscoveryEffects(e, obs, b.learning), [], [])
  {}

  lemma LocatedKeeps(e: Entry, obs: Observation)
    ensures Located(e, obs).mac == e.mac && Located(e, obs).signals == e.signals
  {}

  lemma LocatedIs(e: Entry, obs: Observation)
    ensures Located(e, obs) == Addressed(Revived(Touched(e, obs.observedAt)), obs.ip)
  {}

  lemma LearnIsPerform(env: Env, b: Book, mac: Mac, signal: Signal, at: int)
    ensures Perform(env, b, Learn(mac, signal, at)) == PerformLearn(env, b, mac, signal, at)
  {}

  lemma CheckIsPerform(env: Env, b: Book, mac: Mac, now: int)
    ensures Perform(env, b, Check(mac, now)) == PerformCheck(env, b, mac, now)
  {}

  // Counting the unattributed claims before or after the sender's entry is
  // updated comes to the same.
  lemma CountedFirst(env: Env, b: Book, obs: Observation, mine: seq<Signal>, unattributed: nat, first: bool)
    ensures var counted := b.(unattributed := b.unattributed + unattributed);
            var o := PerformHear(env, counted, obs, mine, 0, first);
            var p := Perform(env, b, Hear(obs, mine, unattributed, first));
            obs.mac in b.devices ==> o.book == p.book && o.effects == p.effects
  {
    hide HearingEffects, Heard, Rescored, Reclassified, Changes;
  }

  lemma NothingToDo(env: Env, b: Book)
    ensures PerformAll(env, b, []) == Silent(b)
  {}

  lemma ConfigureNothing(env: Env, b: Book)
    ensures Apply(env, b, DeviceTable.ApplyUserSettings([])) == Silent(b)
  {}

  lemma SweepNothing(env: Env, b: Book, now: int)
    ensures Apply(env, b, DeviceTable.Sweep(now, [])) == Silent(b)
  {}

  lemma SweepOneMore(env: Env, b: Book, now: int, order: seq<Mac>, mac: Mac)
    ensures var before := Apply(env, b, DeviceTable.Sweep(now, order));
            Apply(env, b, DeviceTable.Sweep(now, order + [mac])) == before.Then(Perform(env, before.book, Check(mac, now)))
  {
    hide Perform;
    var ops := Plan(env, b, DeviceTable.Sweep(now, order + [mac]));
    assert ops[..|ops| - 1] == Plan(env, b, DeviceTable.Sweep(now, order));
  }

  lemma NothingTaken(env: Env, b: Book)
    ensures Apply(env, b, DeviceTable.TakeDirty([])) == Outcome(b, [], [], [])
  {}

  lemma TakeOneMore(env: Env, b: Book, order: seq<Mac>, mac: Mac)
    ensures var before := Apply(env, b, DeviceTable.TakeDirty(order));
            Apply(env, b, DeviceTable.TakeDirty(order + [mac])) == before.Then(PerformWrite(before.book, mac))
  {
    hide PerformHear, PerformDiscover, PerformLearn, PerformCheck, PerformPlace, PerformWrite;
    var ops := Plan(env, b, DeviceTable.TakeDirty(order + [mac]));
    assert ops[..|ops| - 1] == Plan(env, b, DeviceTable.TakeDirty(order));
  }

  lemma ConfigureOneMore(env: Env, b: Book, settings: seq<UserSettings>, setting: UserSettings)
    ensures var before := Apply(env, b, DeviceTable.ApplyUserSettings(settings));
            Apply(env, b, DeviceTable.ApplyUserSettings(settings + [setting]))
            == before.Then(PerformConfigure(before.book, setting))
  {
    hide PerformHear, PerformDiscover, PerformLearn, PerformCheck, PerformPlace, PerformConfigure;
    var ops := Plan(env, b, DeviceTable.ApplyUserSettings(settings + [setting]));
    assert ops[..|ops| - 1] == Plan(env, b, DeviceTable.ApplyUserSettings(settings));
  }

  lemma NothingReported(env: Env, b: Book)
    ensures Reported(env, b, []) == []
  {}

  lemma ReportedOneMore(env: Env, b: Book, settings: seq<UserSettings>, setting: UserSettings)
    ensures var before := Apply(env, b, DeviceTable.ApplyUserSettings(settings)).book;
            Reported(env, b, settings + [setting])
            == Reported(env, b, settings)
               + (if setting.mac in before.devices then Edits(before.devices[setting.mac], setting) else [])
  {
    hide Apply, Edits;
    assert (settings + [setting])[..|settings|] == settings;
  }
}
