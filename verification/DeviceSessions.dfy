/**
 The session protocol of the effect stream.

 A `Track` is what a reader of one device's effects knows: whether the device
 has been created, whether it is in a presence session, whether it is in a
 location stay, whether it has been announced, and whether it was last said to
 have left.  An effect that does not fit breaks the track.  The result of the module is that no run ever breaks one, and
 that the track always agrees with the device table.
 */
module DeviceSessions {
  import opened Options
  import opened Types
  import opened Identities
  import opened DeviceTable
  import opened DeviceTableFacts

  datatype Track = Track(known: bool, present: bool, placed: bool, announced: bool, away: bool) | Broken

  const UNHEARD := Track(false, false, false, false, false)

  function Watch(t: Track, e: Effect, m: Mac): Track {
    if t.Broken? || e.Device() != m then t
    else
      match e
      case Discovered(_) => if t.known then Broken else Track(true, false, false, false, false)
      case Event(event) =>
        if !t.known then Broken
        else (match event.eventType
              case NewDevice => if t.announced || !t.present then Broken else t.(announced := true)
              case Returned => if !t.present || !t.away then Broken else t.(away := false)
              case WentOffline => if t.present || t.placed || t.away then Broken else t.(away := true)
              case DeviceLocationChanged => if !t.placed then Broken else t
              case _ => t)
      case Evidence(_, _, _) => if !t.known then Broken else t
      case Address(_, _, _, _) => if !t.known then Broken else t
      case PresenceOpened(_, _, _, _) => if !t.known || t.present then Broken else t.(present := true)
      case PresenceClosed(_, _) => if !t.known || !t.present then Broken else t.(present := false)
      case LocationChanged(_, _, _, _) => if !t.known then Broken else t.(placed := true)
      case LocationClosed(_, _) => if !t.known || !t.placed then Broken else t.(placed := false)
  }

  function WatchAll(t: Track, effects: seq<Effect>, m: Mac): Track {
    if effects == [] then t
    else Watch(WatchAll(t, effects[..|effects| - 1], m), effects[|effects| - 1], m)
  }

  // What the device table says the track should be.
  function TrackOf(b: Book, m: Mac): Track {
    if m !in b.devices then UNHEARD
    else Track(true, b.devices[m].state != Offline, b.devices[m].currentAp.Some?, true, b.devices[m].state == Offline)
  }

  lemma {:induction false} WatchAppend(t: Track, first: seq<Effect>, next: seq<Effect>, m: Mac)
    ensures WatchAll(t, first + next, m) == WatchAll(WatchAll(t, first, m), next, m)
  {
    hide Watch;
    if next == [] {
      assert first + next == first;
    } else {
      var all := first + next;
      assert all[..|all| - 1] == first + next[..|next| - 1];
      WatchAppend(t, first, next[..|next| - 1], m);
    }
  }

  lemma WatchOne(t: Track, e: Effect, m: Mac)
    ensures WatchAll(t, [e], m) == Watch(t, e, m)
  {
    assert [e][..0] == [];
  }

  lemma WatchNone(t: Track, m: Mac)
    ensures WatchAll(t, [], m) == t
  {}

  // Evidence needs a known device and changes nothing.
  lemma {:induction false} WatchEvidence(t: Track, mac: Mac, signals: seq<Signal>, at: int, m: Mac)
    requires t.Track? && (mac == m ==> t.known)
    ensures WatchAll(t, EvidenceEffects(mac, signals, at), m) == t
  {
    if signals != [] {
      var effects := EvidenceEffects(mac, signals, at);
      assert effects[..|effects| - 1] == EvidenceEffects(mac, signals[..|signals| - 1], at);
      WatchEvidence(t, mac, signals[..|signals| - 1], at, m);
    }
  }

  lemma WatchFour(t: Track, e: Entry, vendor: seq<Effect>, opening: Effect, announced: Effect, m: Mac)
    requires |vendor| <= 1 && forall v :: v in vendor ==> v.Evidence? && v.subject == e.mac
    requires opening.PresenceOpened? && opening.subject == e.mac && announced.Announces(NewDevice, e.mac)
    requires t.Track? && (e.mac == m ==> !t.known)
    ensures WatchAll(t, [Discovered(e.Snapshot())] + vendor + [opening] + [announced], m)
         == if e.mac == m then Track(true, true, false, true, false) else t
  {
    hide BestOf;
    var created := Discovered(e.Snapshot());
    assert created.Device() == e.mac;
    WatchOne(t, created, m);
    var t1 := if e.mac == m then Track(true, false, false, false, false) else t;
    WatchAppend(t, [created], vendor, m);
    if vendor != [] {
      assert vendor[0] in vendor && vendor == [vendor[0]];
      WatchOne(t1, vendor[0], m);
    }
    WatchAppend(t, [created] + vendor, [opening], m);
    WatchOne(t1, opening, m);
    WatchAppend(t, [created] + vendor + [opening], [announced], m);
    WatchOne(Watch(t1, opening, m), announced, m);
  }

  lemma WatchDiscovery(env: Env, b: Book, obs: Observation, m: Mac)
    requires obs.mac !in b.devices
    ensures WatchAll(TrackOf(b, m), Perform(env, b, Discover(obs)).effects, m)
         == TrackOf(Perform(env, b, Discover(obs)).book, m)
  {
    hide BestOf, Resolve, Ipv4Of, IsBlank, Watch, WatchAll;
    var e := NewEntry(env, obs, b.learning);
    var vendor := if e.Best(Vendor).Some? then [Evidence(obs.mac, Signal(Vendor, e.Best(Vendor).value), obs.observedAt)] else [];
    var opening := PresenceOpened(obs.mac, obs.interface, Ipv4Of(obs.ip), obs.observedAt);
    var announced := EventFor(e, NewDevice, Ipv4Of(obs.ip), Some(obs.interface), obs.observedAt, b.learning);
    WatchFour(TrackOf(b, m), e, vendor, opening, announced, m);
    assert DiscoveryEffects(e, obs, b.learning) == [Discovered(e.Snapshot())] + vendor + [opening] + [announced];
  }

  lemma WatchRevival(t: Track, e: Entry, obs: Observation, learning: bool, m: Mac)
    requires t.Track? && (e.mac == m ==> t.known && t.present == (e.state != Offline) && t.away == (e.state == Offline))
    ensures WatchAll(t, RevivalEffects(e, obs, learning), m) == if e.mac == m then t.(present := true, away := false) else t
  {
    hide Ipv4Of, IsBlank, BestOf;
    var effects := RevivalEffects(e, obs, learning);
    if effects != [] {
      assert effects == [effects[0]] + [effects[1]];
      WatchAppend(t, [effects[0]], [effects[1]], m);
      WatchOne(t, effects[0], m);
      WatchOne(Watch(t, effects[0], m), effects[1], m);
    }
  }

  lemma WatchAddress(t: Track, e: Entry, obs: Observation, learning: bool, m: Mac)
    requires t.Track? && (e.mac == m ==> t.known)
    ensures WatchAll(t, AddressEffects(e, obs, learning), m) == t
  {
    hide IsBlank, BestOf, IsHostV4, IsLinkLocal;
    var effects := AddressEffects(e, obs, learning);
    if |effects| == 1 {
      assert effects == [effects[0]];
      WatchOne(t, effects[0], m);
    } else if |effects| == 2 {
      assert effects == [effects[0]] + [effects[1]];
      WatchAppend(t, [effects[0]], [effects[1]], m);
      WatchOne(t, effects[0], m);
      WatchOne(t, effects[1], m);
    }
  }

  lemma WatchName(t: Track, before: Entry, after: Entry, interface: Option<string>, at: int, learning: bool, quiet: bool, m: Mac)
    requires t.Track? && (after.mac == m ==> t.known)
    ensures WatchAll(t, NameEffects(before, after, interface, at, learning, quiet), m) == t
  {
    hide IsBlank, BestOf;
    var effects := NameEffects(before, after, interface, at, learning, quiet);
    if effects != [] {
      WatchOne(t, effects[0], m);
    }
  }

  lemma WatchHearing(t: Track, e: Entry, obs: Observation, mine: seq<Signal>, learning: bool, first: bool, m: Mac)
    requires t.Track? && (e.mac == m ==> t.known && t.present == (e.state != Offline) && t.away == (e.state == Offline))
    ensures WatchAll(t, HearingEffects(e, obs, mine, learning, first), m) == if e.mac == m then t.(present := true, away := false) else t
  {
    hide RevivalEffects, AddressEffects, NameEffects, Resolve, Consider, Watch, Merged, IsRecordable, IsLinkLocal;
    var at := obs.observedAt;
    var touched := Touched(e, at);
    var revival := RevivalEffects(touched, obs, learning);
    var address := AddressEffects(Revived(touched), obs, learning);
    var evidence := EvidenceEffects(e.mac, NonBlank(obs.signals) + mine, at);
    var heard := Heard(e, obs, mine);
    var name := NameEffects(heard, Rescored(heard, at), Some(obs.interface), at, learning, first);
    var t1 := if e.mac == m then t.(present := true, away := false) else t;
    WatchRevival(t, touched, obs, learning, m);
    WatchAppend(t, revival, address, m);
    WatchAddress(t1, Revived(touched), obs, learning, m);
    WatchAppend(t, revival + address, evidence, m);
    WatchEvidence(t1, e.mac, NonBlank(obs.signals) + mine, at, m);
    WatchAppend(t, revival + address + evidence, name, m);
    WatchName(t1, heard, Rescored(heard, at), Some(obs.interface), at, learning, first, m);
  }

  lemma WatchSweep(env: Env, t: Track, e: Entry, now: int, learning: bool, m: Mac)
    requires t.Track?
    requires e.mac == m ==>
               t.known && t.present == (e.state != Offline) && t.away == (e.state == Offline) && t.placed == e.currentAp.Some?
    ensures WatchAll(t, SweepEffects(env, e, now, learning), m)
         == if e.mac == m && GoesOffline(env, e, now) then t.(present := false, placed := false, away := true) else t
  {
    hide IsBlank, BestOf, Swept, GoesOffline;
    var effects := SweepEffects(env, e, now, learning);
    if GoesOffline(env, e, now) {
      var closed := PresenceClosed(e.mac, now);
      var stay := if e.currentAp.Some? then [LocationClosed(e.mac, now)] else [];
      var left := EventFor(Swept(env, e, now), WentOffline, e.lastIp, e.lastInterface, now, learning);
      assert e.state != Offline && left.event.mac == e.mac by { SweptMac(env, e, now); }
      assert effects == [closed] + stay + [left];
      WatchOne(t, closed, m);
      WatchAppend(t, [closed], stay, m);
      var t1 := Watch(t, closed, m);
      assert t1 == if e.mac == m then t.(present := false) else t;
      if stay != [] { WatchOne(t1, stay[0], m); }
      var t2 := WatchAll(t1, stay, m);
      assert t2 == if e.mac == m then t.(present := false, placed := false) else t;
      WatchAppend(t, [closed] + stay, [left], m);
      WatchOne(t2, left, m);
    }
  }

  lemma SweptMac(env: Env, e: Entry, now: int)
    ensures GoesOffline(env, e, now) ==> e.state != Offline
    ensures Swept(env, e, now).mac == e.mac
  {}

  lemma WatchPlace(b: Book, mac: Mac, ap: string, location: string, at: int, m: Mac)
    requires Sound(b)
    ensures var o := PerformPlace(b, mac, ap, location, at);
            WatchAll(TrackOf(b, m), o.effects, m) == TrackOf(o.book, m)
  {
    hide IsBlank, BestOf;
    var t := TrackOf(b, m);
    var o := PerformPlace(b, mac, ap, location, at);
    if o.effects != [] {
      assert o.effects == [o.effects[0]] + [o.effects[1]];
      WatchAppend(t, [o.effects[0]], [o.effects[1]], m);
      WatchOne(t, o.effects[0], m);
      WatchOne(Watch(t, o.effects[0], m), o.effects[1], m);
    }
  }

  lemma WatchLearn(env: Env, b: Book, mac: Mac, signal: Signal, at: int, m: Mac)
    requires Sound(b)
    ensures var o := PerformLearn(env, b, mac, signal, at);
            WatchAll(TrackOf(b, m), o.effects, m) == TrackOf(o.book, m)
  {
    hide Resolve, Consider, Merged, NameEffects, IsBlank, Changes;
    var t := TrackOf(b, m);
    var o := PerformLearn(env, b, mac, signal, at);
    if o.effects != [] {
      var e := b.devices[mac];
      var informed := e.(signals := Merged(e.signals, [signal]), dirty := true);
      var named := if signal !in e.signals then Rescored(informed, at) else informed;
      WatchAppend(t, [Evidence(mac, signal, at)], NameEffects(informed, named, e.lastInterface, at, b.learning, false), m);
      WatchOne(t, Evidence(mac, signal, at), m);
      WatchName(t, informed, named, e.lastInterface, at, b.learning, false, m);
    }
  }

  lemma WatchHear(env: Env, b: Book, obs: Observation, mine: seq<Signal>, unattributed: nat, first: bool, m: Mac)
    requires Sound(b)
    ensures var o := PerformHear(env, b, obs, mine, unattributed, first);
            WatchAll(TrackOf(b, m), o.effects, m) == TrackOf(o.book, m)
  {
    hide HearingEffects, Resolve, Consider, Merged, Changes, IsRecordable, IsLinkLocal;
    if obs.mac in b.devices {
      WatchHearing(TrackOf(b, m), b.devices[obs.mac], obs, mine, b.learning, first, m);
    }
  }

  // One operation keeps every device's track in step with its entry.
  lemma WatchPerform(env: Env, b: Book, op: Op, m: Mac)
    requires Sound(b)
    ensures WatchAll(TrackOf(b, m), Perform(env, b, op).effects, m) == TrackOf(Perform(env, b, op).book, m)
  {
    hide PerformHear, PerformLearn, PerformPlace, NewEntry, DiscoveryEffects, SweepEffects, EventFor;
    match op {
      case Discover(obs) => if obs.mac !in b.devices { WatchDiscovery(env, b, obs, m); }
      case Index(_, _) =>
      case Hear(obs, mine, unattributed, first) => WatchHear(env, b, obs, mine, unattributed, first, m);
      case Learn(mac, signal, at) => WatchLearn(env, b, mac, signal, at, m);
      case Place(mac, ap, location, at) => WatchPlace(b, mac, ap, location, at, m);
      case Check(mac, now) =>
        if mac in b.devices { WatchSweep(env, TrackOf(b, m), b.devices[mac], now, b.learning, m); }
      case Configure(_) =>
      case Write(_) =>
      case StopLearning =>
      case Drain =>
    }
  }

  lemma {:induction false} WatchPerformAll(env: Env, b: Book, ops: seq<Op>, m: Mac)
    requires Sound(b)
    ensures var o := PerformAll(env, b, ops);
            WatchAll(TrackOf(b, m), o.effects, m) == TrackOf(o.book, m)
  {
    hide Perform, TrackOf, Watch;
    if ops != [] {
      var before := PerformAll(env, b, ops[..|ops| - 1]);
      WatchPerformAll(env, b, ops[..|ops| - 1], m);
      PerformAllSound(env, b, ops[..|ops| - 1]);
      var last := Perform(env, before.book, ops[|ops| - 1]);
      WatchPerform(env, before.book, ops[|ops| - 1], m);
      WatchAppend(TrackOf(b, m), before.effects, last.effects, m);
    }
  }

  // On every run from an empty table no device's effects ever break protocol,
  // and what they add up to is what the table holds.
  lemma {:induction false} RunKeepsProtocol(env: Env, learning: bool, steps: seq<Step>, m: Mac)
    ensures var o := Run(env, learning, steps);
            WatchAll(UNHEARD, o.effects, m) == TrackOf(o.book, m)
  {
    hide Apply, Plan, Watch;
    if steps != [] {
      var before := Run(env, learning, steps[..|steps| - 1]);
      RunKeepsProtocol(env, learning, steps[..|steps| - 1], m);
      RunSound(env, learning, steps[..|steps| - 1]);
      var step := steps[|steps| - 1];
      ApplyWatched(env, before.book, step, m);
      WatchAppend(UNHEARD, before.effects, Apply(env, before.book, step).effects, m);
    }
  }

  lemma ApplyWatched(env: Env, b: Book, step: Step, m: Mac)
    requires Sound(b)
    ensures var o := Apply(env, b, step);
            WatchAll(TrackOf(b, m), o.effects, m) == TrackOf(o.book, m)
  {
    hide Plan, PerformAll, TrackOf, Watch;
    WatchPerformAll(env, b, Plan(env, b, step), m);
  }

  // ---------- what an unbroken track says about the stream ----------

  // One device's presence changes, true for an opening.
  function Presence(effects: seq<Effect>, m: Mac): seq<bool> {
    if effects == [] then []
    else
      var most := Presence(effects[..|effects| - 1], m);
      var e := effects[|effects| - 1];
      if e.Device() != m then most
      else if e.PresenceOpened? then most + [true]
      else if e.PresenceClosed? then most + [false]
      else most
  }

  // One device's departures and returns, true for a departure.
  function Absences(effects: seq<Effect>, m: Mac): seq<bool> {
    if effects == [] then []
    else
      var most := Absences(effects[..|effects| - 1], m);
      var e := effects[|effects| - 1];
      if e.Announces(WentOffline, m) then most + [true]
      else if e.Announces(Returned, m) then most + [false]
      else most
  }

  // One device's access point changes, true for a move, false for a leaving.
  function Moves(effects: seq<Effect>, m: Mac): seq<bool> {
    if effects == [] then []
    else
      var most := Moves(effects[..|effects| - 1], m);
      var e := effects[|effects| - 1];
      if e.Device() != m then most
      else if e.LocationChanged? then most + [true]
      else if e.LocationClosed? then most + [false]
      else most
  }

  // Taking turns, an opening first.
  predicate Alternates(p: seq<bool>) {
    forall i :: 0 <= i < |p| ==> p[i] == (i % 2 == 0)
  }

  // Every closing closes the opening just before it.
  predicate Paired(p: seq<bool>) {
    forall i :: 0 <= i < |p| && !p[i] ==> i > 0 && p[i - 1]
  }

  function Count(effects: seq<Effect>, t: EventType, m: Mac): nat {
    if effects == [] then 0
    else Count(effects[..|effects| - 1], t, m) + (if effects[|effects| - 1].Announces(t, m) then 1 else 0)
  }

  lemma {:induction false} UnbrokenSessions(effects: seq<Effect>, m: Mac)
    requires WatchAll(UNHEARD, effects, m).Track?
    ensures var t, p := WatchAll(UNHEARD, effects, m), Presence(effects, m);
            && Alternates(p) && (t.present <==> |p| % 2 == 1)
            && (!t.known ==> t == UNHEARD)
            && (t.announced ==> t.known)
            && Count(effects, NewDevice, m) == (if t.announced then 1 else 0)
  {
    if effects != [] { UnbrokenSessions(effects[..|effects| - 1], m); }
  }

  lemma {:induction false} UnbrokenAbsences(effects: seq<Effect>, m: Mac)
    requires WatchAll(UNHEARD, effects, m).Track?
    ensures var t, a := WatchAll(UNHEARD, effects, m), Absences(effects, m);
            Alternates(a) && (t.away <==> |a| % 2 == 1) && (!t.known ==> !t.away)
  {
    if effects != [] { UnbrokenAbsences(effects[..|effects| - 1], m); }
  }

  lemma {:induction false} UnbrokenStays(effects: seq<Effect>, m: Mac)
    requires WatchAll(UNHEARD, effects, m).Track?
    ensures var t, s := WatchAll(UNHEARD, effects, m), Moves(effects, m);
            Paired(s) && (t.placed <==> s != [] && s[|s| - 1]) && (!t.known ==> !t.placed)
  {
    if effects != [] { UnbrokenStays(effects[..|effects| - 1], m); }
  }

  lemma UnbrokenStream(effects: seq<Effect>, m: Mac)
    requires WatchAll(UNHEARD, effects, m).Track?
    ensures var t := WatchAll(UNHEARD, effects, m);
            var p, a, s := Presence(effects, m), Absences(effects, m), Moves(effects, m);
            && Alternates(p) && (t.present <==> |p| % 2 == 1)
            && Alternates(a) && (t.away <==> |a| % 2 == 1)
            && Paired(s) && (t.placed <==> s != [] && s[|s| - 1])
            && (!t.known ==> t == UNHEARD)
            && (t.announced ==> t.known)
            && Count(effects, NewDevice, m) == (if t.announced then 1 else 0)
  {
    hide Watch, WatchAll, Presence, Absences, Moves, Count;
    UnbrokenSessions(effects, m);
    UnbrokenAbsences(effects, m);
    UnbrokenStays(effects, m);
  }

  // The two halves joined.  On every run a device's sessions open and close in
  // strict alternation, the last open exactly while the device is not offline;
  // it is announced as gone and as back in strict alternation, gone last exactly
  // while it is offline; every stay that is closed was opened just before, the
  // last open exactly while it is on an access point; and it is announced as new
  // exactly once, exactly if it is in the table.
  lemma SessionsAlternate(env: Env, learning: bool, steps: seq<Step>, m: Mac)
    ensures var o := Run(env, learning, steps);
            var p, a, s := Presence(o.effects, m), Absences(o.effects, m), Moves(o.effects, m);
            && Alternates(p) && (|p| % 2 == 1 <==> m in o.book.devices && o.book.devices[m].state != Offline)
            && Alternates(a) && (|a| % 2 == 1 <==> m in o.book.devices && o.book.devices[m].state == Offline)
            && Paired(s) && (s != [] && s[|s| - 1] <==> m in o.book.devices && o.book.devices[m].currentAp.Some?)
            && Count(o.effects, NewDevice, m) == (if m in o.book.devices then 1 else 0)
  {
    hide Run, Watch, WatchAll;
    RunKeepsProtocol(env, learning, steps, m);
    UnbrokenStream(Run(env, learning, steps).effects, m);
  }
}
