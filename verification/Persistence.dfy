/**
 Applying effects to the database, and what the tables hold after any run.

 The database is a value: the device ids, the presence and location tables, the
 evidence and address tables, the events, and a row for each device, without the
 columns that are its user's.  Each statement is a function on it, with the statement's own
 conditions.  Summary rows, which no statement here touches, are not kept.
 */
module Persistence {
  import opened Options
  import opened Types
  import opened Identities
  import opened DeviceTable
  import opened DeviceTableFacts
  import opened DeviceSessions

  datatype PresenceRow = PresenceRow(
    deviceId: nat, interface: string, ip: Option<Ipv4>, startedAt: int, endedAt: Option<int>, observations: nat)

  datatype StayRow = StayRow(deviceId: nat, ap: string, location: string, startedAt: int, endedAt: Option<int>)

  datatype EventRow = EventRow(deviceId: Option<nat>, eventType: EventType, at: int, notified: bool)

  // A device's row: the columns its creation fixes, then those the daemon keeps
  // up to date.
  datatype DeviceRow = DeviceRow(
    mac: Mac,
    firstSeenAt: int,
    baseline: bool,
    state: DeviceState,
    lastIp: Option<Ipv4>,
    lastIpv6: Option<Ipv6>,
    lastInterface: Option<string>,
    lastSeenAt: int,
    resolvedName: Option<string>,
    identitySource: Option<SignalKind>,
    identityConfidence: Option<nat>,
    hostname: Option<string>,
    mdnsName: Option<string>,
    vendor: Option<string>,
    deviceType: Option<string>,
    deviceTypeConfidence: Option<nat>,
    osFamily: Option<string>,
    currentAp: Option<string>,
    currentLocation: Option<string>)

  datatype SignalRow = SignalRow(firstSeen: int, lastSeen: int)

  datatype IpRow = IpRow(interface: string, firstSeen: int, lastSeen: int)

  datatype Db = Db(
    deviceIds: map<Mac, nat>,
    nextId: nat,
    rows: map<nat, DeviceRow>,
    presence: seq<PresenceRow>,
    stays: seq<StayRow>,
    signals: map<(nat, Signal), SignalRow>,
    ips: map<(nat, IpAddr), IpRow>,
    events: seq<EventRow>)

  const EMPTY_DB := Db(map[], 1, map[], [], [], map[], map[], [])

  // ---------- statements ----------

  // The columns an insert gives, everything else empty.
  function InsertedRow(x: DeviceSnapshot): DeviceRow {
    DeviceRow(x.mac, x.firstSeenAt, x.baseline, Online, x.lastIp, None, x.lastInterface, x.firstSeenAt,
              None, None, None, None, None, x.vendor, None, None, None, None, None)
  }

  // The columns an update writes, everything else kept.
  function UpdatedRow(row: DeviceRow, x: DeviceSnapshot): DeviceRow {
    row.(state := x.state, lastIp := x.lastIp, lastIpv6 := x.lastIpv6, lastInterface := x.lastInterface,
         lastSeenAt := x.lastSeenAt, resolvedName := Some(x.identity.displayName),
         identitySource := Some(x.identity.source), identityConfidence := Some(x.identity.confidence),
         hostname := x.hostname, mdnsName := x.mdnsName, vendor := x.vendor, deviceType := x.deviceType,
         deviceTypeConfidence := x.deviceTypeConfidence, osFamily := x.osFamily,
         currentAp := x.currentAp, currentLocation := x.currentLocation)
  }

  // One row per hardware address; a second insert finds the first row and
  // touches it.
  function InsertDevice(db: Db, x: DeviceSnapshot): (Db, nat) {
    if x.mac in db.deviceIds then
      var id := db.deviceIds[x.mac];
      (if id in db.rows then db.(rows := db.rows[id := db.rows[id].(lastSeenAt := x.firstSeenAt)]) else db, id)
    else
      (db.(deviceIds := db.deviceIds[x.mac := db.nextId], nextId := db.nextId + 1, rows := db.rows[db.nextId := InsertedRow(x)]),
       db.nextId)
  }

  function UpdateDevice(db: Db, id: nat, x: DeviceSnapshot): Db {
    if id in db.rows then db.(rows := db.rows[id := UpdatedRow(db.rows[id], x)]) else db
  }

  // A signal known already is touched, never replaced.
  function UpsertSignal(db: Db, id: nat, signal: Signal, at: int): Db {
    var first := if (id, signal) in db.signals then db.signals[(id, signal)].firstSeen else at;
    db.(signals := db.signals[(id, signal) := SignalRow(first, at)])
  }

  function UpsertIp(db: Db, id: nat, ip: IpAddr, interface: string, at: int): Db {
    var first := if (id, ip) in db.ips then db.ips[(id, ip)].firstSeen else at;
    db.(ips := db.ips[(id, ip) := IpRow(interface, first, at)])
  }

  predicate IsOpenSession(r: PresenceRow, id: nat) {
    r.deviceId == id && r.endedAt.None?
  }

  predicate IsOpenStay(r: StayRow, id: nat) {
    r.deviceId == id && r.endedAt.None?
  }

  function OpenPresence(db: Db, id: nat, interface: string, ip: Option<Ipv4>, at: int): Db {
    if exists r :: r in db.presence && IsOpenSession(r, id) then db
    else db.(presence := db.presence + [PresenceRow(id, interface, ip, at, None, 0)])
  }

  function CloseSessions(rows: seq<PresenceRow>, id: nat, at: int): seq<PresenceRow> {
    if rows == [] then []
    else
      var r := rows[|rows| - 1];
      CloseSessions(rows[..|rows| - 1], id, at) + [if IsOpenSession(r, id) then r.(endedAt := Some(at)) else r]
  }

  function BumpSessions(rows: seq<PresenceRow>, id: nat, count: nat): seq<PresenceRow> {
    if rows == [] then []
    else
      var r := rows[|rows| - 1];
      BumpSessions(rows[..|rows| - 1], id, count)
      + [if IsOpenSession(r, id) then r.(observations := r.observations + count) else r]
  }

  function CloseStays(rows: seq<StayRow>, id: nat, at: int): seq<StayRow> {
    if rows == [] then []
    else
      var r := rows[|rows| - 1];
      CloseStays(rows[..|rows| - 1], id, at) + [if IsOpenStay(r, id) then r.(endedAt := Some(at)) else r]
  }

  function ClosePresence(db: Db, id: nat, at: int): Db {
    db.(presence := CloseSessions(db.presence, id, at))
  }

  function CloseLocation(db: Db, id: nat, at: int): Db {
    db.(stays := CloseStays(db.stays, id, at))
  }

  function ChangeLocation(db: Db, id: nat, ap: string, location: string, at: int): Db {
    var closed := CloseLocation(db, id, at);
    closed.(stays := closed.stays + [StayRow(id, ap, location, at, None)])
  }

  // ---------- effects and flushes ----------

  // The id map the persister keeps, and the database.
  datatype Store = Store(ids: map<Mac, nat>, db: Db)

  const EMPTY_STORE := Store(map[], EMPTY_DB)

  function ApplyEffect(s: Store, e: Effect): Store {
    match e
    case Discovered(snapshot) =>
      var (db, id) := InsertDevice(s.db, snapshot);
      Store(s.ids[snapshot.mac := id], db)
    case Event(event) =>
      var id := if event.mac in s.ids then Some(s.ids[event.mac]) else None;
      s.(db := s.db.(events := s.db.events + [EventRow(id, event.eventType, event.at, false)]))
    case _ =>
      if e.subject !in s.ids then s
      else
        var id := s.ids[e.subject];
        match e
        case Evidence(_, signal, at) => s.(db := UpsertSignal(s.db, id, signal, at))
        case Address(_, ip, interface, at) => s.(db := UpsertIp(s.db, id, ip, interface, at))
        case PresenceOpened(_, interface, ip, at) => s.(db := OpenPresence(s.db, id, interface, ip, at))
        case PresenceClosed(_, at) => s.(db := ClosePresence(s.db, id, at))
        case LocationChanged(_, ap, location, at) => s.(db := ChangeLocation(s.db, id, ap, location, at))
        case LocationClosed(_, at) => s.(db := CloseLocation(s.db, id, at))
        case _ => s
  }

  function ApplyEffects(s: Store, effects: seq<Effect>): Store {
    if effects == [] then s
    else ApplyEffect(ApplyEffects(s, effects[..|effects| - 1]), effects[|effects| - 1])
  }

  function FlushOne(s: Store, snapshot: DeviceSnapshot): Store {
    if snapshot.mac !in s.ids then s
    else
      var id := s.ids[snapshot.mac];
      s.(db := UpdateDevice(s.db, id, snapshot).(
           presence := if snapshot.observationsSinceFlush > 0
                       then BumpSessions(s.db.presence, id, snapshot.observationsSinceFlush)
                       else s.db.presence))
  }

  function Flush(s: Store, snapshots: seq<DeviceSnapshot>): Store {
    if snapshots == [] then s
    else FlushOne(Flush(s, snapshots[..|snapshots| - 1]), snapshots[|snapshots| - 1])
  }

  // Each call's effects are applied, then what it flushed is written.
  function StoreAfter(env: Env, learning: bool, steps: seq<Step>): Store {
    if steps == [] then EMPTY_STORE
    else
      var last := |steps| - 1;
      var o := Apply(env, Run(env, learning, steps[..last]).book, steps[last]);
      Flush(ApplyEffects(StoreAfter(env, learning, steps[..last]), o.effects), o.flushed)
  }

  // ---------- counting open rows ----------

  function OpenSessions(rows: seq<PresenceRow>, id: nat): nat {
    if rows == [] then 0
    else OpenSessions(rows[..|rows| - 1], id) + (if IsOpenSession(rows[|rows| - 1], id) then 1 else 0)
  }

  function OpenStays(rows: seq<StayRow>, id: nat): nat {
    if rows == [] then 0
    else OpenStays(rows[..|rows| - 1], id) + (if IsOpenStay(rows[|rows| - 1], id) then 1 else 0)
  }

  lemma NoOpenSessions(rows: seq<PresenceRow>, id: nat)
    ensures OpenSessions(rows, id) == 0 <==> !exists r :: r in rows && IsOpenSession(r, id)
  {
    if rows != [] {
      NoOpenSessions(rows[..|rows| - 1], id);
      assert rows == rows[..|rows| - 1] + [rows[|rows| - 1]];
    }
  }

  lemma SessionAppended(rows: seq<PresenceRow>, r: PresenceRow, id: nat)
    ensures OpenSessions(rows + [r], id) == OpenSessions(rows, id) + (if IsOpenSession(r, id) then 1 else 0)
  {
    assert (rows + [r])[..|rows|] == rows;
  }

  lemma StayAppended(rows: seq<StayRow>, r: StayRow, id: nat)
    ensures OpenStays(rows + [r], id) == OpenStays(rows, id) + (if IsOpenStay(r, id) then 1 else 0)
  {
    assert (rows + [r])[..|rows|] == rows;
  }

  lemma SessionsClosed(rows: seq<PresenceRow>, id: nat, at: int, other: nat)
    ensures OpenSessions(CloseSessions(rows, id, at), other) == if other == id then 0 else OpenSessions(rows, other)
  {
    if rows != [] {
      SessionsClosed(rows[..|rows| - 1], id, at, other);
      var r := rows[|rows| - 1];
      SessionAppended(CloseSessions(rows[..|rows| - 1], id, at), if IsOpenSession(r, id) then r.(endedAt := Some(at)) else r, other);
    }
  }

  lemma SessionsBumped(rows: seq<PresenceRow>, id: nat, count: nat, other: nat)
    ensures OpenSessions(BumpSessions(rows, id, count), other) == OpenSessions(rows, other)
  {
    if rows != [] {
      SessionsBumped(rows[..|rows| - 1], id, count, other);
      var r := rows[|rows| - 1];
      SessionAppended(BumpSessions(rows[..|rows| - 1], id, count),
                      if IsOpenSession(r, id) then r.(observations := r.observations + count) else r, other);
    }
  }

  lemma StaysClosed(rows: seq<StayRow>, id: nat, at: int, other: nat)
    ensures OpenStays(CloseStays(rows, id, at), other) == if other == id then 0 else OpenStays(rows, other)
  {
    if rows != [] {
      StaysClosed(rows[..|rows| - 1], id, at, other);
      var r := rows[|rows| - 1];
      StayAppended(CloseStays(rows[..|rows| - 1], id, at), if IsOpenStay(r, id) then r.(endedAt := Some(at)) else r, other);
    }
  }

  // ---------- the tables follow the tracks ----------

  // Ids are one per device and never reused, and no open row belongs to an id
  // not yet handed out.
  ghost predicate Tidy(s: Store) {
    && s.ids == s.db.deviceIds
    && (forall m :: m in s.ids ==> s.ids[m] < s.db.nextId)
    && (forall m, n :: m in s.ids && n in s.ids && s.ids[m] == s.ids[n] ==> m == n)
    && (forall id: nat :: id >= s.db.nextId ==> OpenSessions(s.db.presence, id) == 0 && OpenStays(s.db.stays, id) == 0)
  }

  // The tables hold for a device what its track says.
  ghost predicate Mirrors(s: Store, m: Mac, t: Track) {
    && t.Track?
    && (t.known <==> m in s.ids)
    && (t.known ==>
          && OpenSessions(s.db.presence, s.ids[m]) == (if t.present then 1 else 0)
          && OpenStays(s.db.stays, s.ids[m]) == (if t.placed then 1 else 0))
  }

  ghost predicate MirrorsTable(s: Store, b: Book) {
    forall m: Mac :: Mirrors(s, m, TrackOf(b, m))
  }

  lemma DiscoveryMirrored(s: Store, e: Effect, m: Mac, t: Track)
    requires e.Discovered? && Tidy(s) && Mirrors(s, m, t)
    requires e.Device() !in s.ids
    ensures Tidy(ApplyEffect(s, e)) && Mirrors(ApplyEffect(s, e), m, Watch(t, e, m))
  {}

  lemma OpeningMirrored(s: Store, e: Effect, m: Mac, t: Track)
    requires e.PresenceOpened?
    requires Tidy(s) && Mirrors(s, m, t) && e.Device() in s.ids
    requires OpenSessions(s.db.presence, s.ids[e.Device()]) == 0
    ensures Tidy(ApplyEffect(s, e)) && Mirrors(ApplyEffect(s, e), m, Watch(t, e, m))
  {
    hide OpenSessions, OpenStays, IsOpenStay;
    var id := s.ids[e.Device()];
    NoOpenSessions(s.db.presence, id);
    forall other: nat
      ensures OpenSessions(ApplyEffect(s, e).db.presence, other)
           == if other == id then 1 else OpenSessions(s.db.presence, other)
    {
      SessionAppended(s.db.presence, PresenceRow(id, e.interface, e.openIp, e.at, None, 0), other);
    }
  }

  lemma ClosingMirrored(s: Store, e: Effect, m: Mac, t: Track)
    requires e.PresenceClosed?
    requires Tidy(s) && Mirrors(s, m, t) && e.Device() in s.ids
    requires OpenSessions(s.db.presence, s.ids[e.Device()]) == 1
    ensures Tidy(ApplyEffect(s, e)) && Mirrors(ApplyEffect(s, e), m, Watch(t, e, m))
  {
    hide OpenSessions, OpenStays, IsOpenStay, CloseSessions;
    var id := s.ids[e.Device()];
    forall other: nat
      ensures OpenSessions(ApplyEffect(s, e).db.presence, other)
           == if other == id then 0 else OpenSessions(s.db.presence, other)
    {
      SessionsClosed(s.db.presence, id, e.at, other);
    }
  }

  lemma LocationMirrored(s: Store, e: Effect, m: Mac, t: Track)
    requires e.LocationChanged? || e.LocationClosed?
    requires Tidy(s) && Mirrors(s, m, t) && e.Device() in s.ids
    requires e.LocationClosed? ==> OpenStays(s.db.stays, s.ids[e.Device()]) == 1
    ensures Tidy(ApplyEffect(s, e)) && Mirrors(ApplyEffect(s, e), m, Watch(t, e, m))
  {
    hide OpenSessions, OpenStays, IsOpenSession, CloseStays;
    var id := s.ids[e.Device()];
    forall other: nat
      ensures OpenStays(ApplyEffect(s, e).db.stays, other)
           == if other == id then (if e.LocationChanged? then 1 else 0) else OpenStays(s.db.stays, other)
    {
      StaysClosed(s.db.stays, id, e.at, other);
      if e.LocationChanged? {
        StayAppended(CloseStays(s.db.stays, id, e.at), StayRow(id, e.ap, e.location, e.at, None), other);
      }
    }
  }

  // The effect's own device is tracked by `d`; `m` is any device, tracked by `t`.
  lemma EffectMirrored(s: Store, e: Effect, d: Track, m: Mac, t: Track)
    requires Tidy(s) && Mirrors(s, e.Device(), d) && Mirrors(s, m, t)
    requires Watch(d, e, e.Device()).Track? && (e.Device() == m ==> d == t)
    ensures Tidy(ApplyEffect(s, e)) && Mirrors(ApplyEffect(s, e), m, Watch(t, e, m))
  {
    hide OpenSessions, OpenStays, CloseSessions, CloseStays, IsOpenSession, IsOpenStay;
    match e {
      case Discovered(_) => DiscoveryMirrored(s, e, m, t);
      case PresenceOpened(_, _, _, _) => OpeningMirrored(s, e, m, t);
      case PresenceClosed(_, _) => ClosingMirrored(s, e, m, t);
      case LocationChanged(_, _, _, _) => LocationMirrored(s, e, m, t);
      case LocationClosed(_, _) => LocationMirrored(s, e, m, t);
      case _ =>
    }
  }

  // A stream nobody finds broken leaves tables that mirror every track.
  lemma {:induction false} StreamMirrored(s: Store, effects: seq<Effect>, tracks: Mac -> Track)
    requires Tidy(s) && forall m: Mac :: Mirrors(s, m, tracks(m))
    requires forall m: Mac :: WatchAll(tracks(m), effects, m).Track?
    ensures Tidy(ApplyEffects(s, effects))
    ensures forall m: Mac :: Mirrors(ApplyEffects(s, effects), m, WatchAll(tracks(m), effects, m))
  {
    hide Tidy, ApplyEffect, Watch, Mirrors;
    if effects == [] {
      forall m: Mac
        ensures Mirrors(ApplyEffects(s, effects), m, WatchAll(tracks(m), effects, m))
      {
        WatchNone(tracks(m), m);
        assert Mirrors(s, m, tracks(m));
      }
    } else {
      var first, e := effects[..|effects| - 1], effects[|effects| - 1];
      forall m: Mac
        ensures WatchAll(tracks(m), first, m).Track?
      {
        BrokenStays(WatchAll(tracks(m), first, m), e, m);
      }
      StreamMirrored(s, first, tracks);
      var d := e.Device();
      EffectMirrored(ApplyEffects(s, first), e, WatchAll(tracks(d), first, d), d, WatchAll(tracks(d), first, d));
      forall m: Mac
        ensures Mirrors(ApplyEffects(s, effects), m, WatchAll(tracks(m), effects, m))
      {
        assert WatchAll(tracks(d), effects, d).Track?;
        EffectMirrored(ApplyEffects(s, first), e, WatchAll(tracks(d), first, d), m, WatchAll(tracks(m), first, m));
      }
    }
  }

  lemma BrokenStays(t: Track, e: Effect, m: Mac)
    ensures Watch(t, e, m).Track? ==> t.Track?
  {}

  lemma FlushMirrored(s: Store, snapshots: seq<DeviceSnapshot>, m: Mac, t: Track)
    requires Tidy(s) && Mirrors(s, m, t)
    ensures Tidy(Flush(s, snapshots)) && Mirrors(Flush(s, snapshots), m, t)
  {
    if snapshots != [] {
      FlushMirrored(s, snapshots[..|snapshots| - 1], m, t);
      FlushOneMirrored(Flush(s, snapshots[..|snapshots| - 1]), snapshots[|snapshots| - 1], m, t);
    }
  }

  lemma FlushOneMirrored(s: Store, snapshot: DeviceSnapshot, m: Mac, t: Track)
    requires Tidy(s) && Mirrors(s, m, t)
    ensures Tidy(FlushOne(s, snapshot)) && Mirrors(FlushOne(s, snapshot), m, t)
  {
    if snapshot.mac in s.ids {
      forall id: nat
        ensures OpenSessions(FlushOne(s, snapshot).db.presence, id) == OpenSessions(s.db.presence, id)
      {
        SessionsBumped(s.db.presence, s.ids[snapshot.mac], snapshot.observationsSinceFlush, id);
      }
    }
  }

  // After any run, for every device in the table: the database has its id, it
  // has exactly one open session if the device is not offline and none
  // otherwise, and exactly one open stay if the device is on an access point and
  // none otherwise.  Nobody else has an id.
  lemma {:induction false} TablesMirrorRun(env: Env, learning: bool, steps: seq<Step>)
    ensures Tidy(StoreAfter(env, learning, steps))
    ensures MirrorsTable(StoreAfter(env, learning, steps), Run(env, learning, steps).book)
  {
    hide Apply, Plan, Run, ApplyEffect, FlushOne, Watch;
    if steps == [] {
      assert Run(env, learning, steps).book == EmptyBook(learning) by { RunNothing(env, learning); }
    } else {
      var last := |steps| - 1;
      TablesMirrorRun(env, learning, steps[..last]);
      var s := StoreAfter(env, learning, steps[..last]);
      var b := Run(env, learning, steps[..last]).book;
      RunSound(env, learning, steps[..last]);
      var o := Apply(env, b, steps[last]);
      RunLast(env, learning, steps);
      var tracks := (m: Mac) => TrackOf(b, m);
      forall m: Mac
        ensures WatchAll(tracks(m), o.effects, m) == TrackOf(o.book, m)
      {
        ApplyWatched(env, b, steps[last], m);
      }
      StreamMirrored(s, o.effects, tracks);
      FlushMirrored(ApplyEffects(s, o.effects), o.flushed, 0, TrackOf(o.book, 0));
      forall m: Mac
        ensures Mirrors(StoreAfter(env, learning, steps), m, TrackOf(o.book, m))
      {
        FlushMirrored(ApplyEffects(s, o.effects), o.flushed, m, TrackOf(o.book, m));
      }
    }
  }

  // For one device, read off the tables.
  lemma OpenRowsExactly(env: Env, learning: bool, steps: seq<Step>, m: Mac)
    requires m in Run(env, learning, steps).book.devices
    ensures var s := StoreAfter(env, learning, steps);
            var e := Run(env, learning, steps).book.devices[m];
            && m in s.ids
            && OpenSessions(s.db.presence, s.ids[m]) == (if e.state == Offline then 0 else 1)
            && OpenStays(s.db.stays, s.ids[m]) == (if e.currentAp.Some? then 1 else 0)
  {
    hide Run, StoreAfter, Tidy, OpenSessions, OpenStays;
    TablesMirrorRun(env, learning, steps);
    assert Mirrors(StoreAfter(env, learning, steps), m, TrackOf(Run(env, learning, steps).book, m));
  }

  lemma RunNothing(env: Env, learning: bool)
    ensures Run(env, learning, []) == Silent(EmptyBook(learning))
  {}

  lemma RunLast(env: Env, learning: bool, steps: seq<Step>)
    requires steps != []
    ensures var before := Run(env, learning, steps[..|steps| - 1]);
            Run(env, learning, steps) == before.Then(Apply(env, before.book, steps[|steps| - 1]))
  {}

  // ---------- nothing is dropped ----------

  // How many effects found no id: skipped writes and events with no device.
  function Dropped(s: Store, effects: seq<Effect>): nat {
    if effects == [] then 0
    else
      var before := effects[..|effects| - 1];
      var e := effects[|effects| - 1];
      Dropped(s, before) + (if !e.Discovered? && e.Device() !in ApplyEffects(s, before).ids then 1 else 0)
  }

  lemma {:induction false} NothingDropped(s: Store, effects: seq<Effect>, tracks: Mac -> Track)
    requires Tidy(s) && forall m: Mac :: Mirrors(s, m, tracks(m))
    requires forall m: Mac :: WatchAll(tracks(m), effects, m).Track?
    ensures Dropped(s, effects) == 0
  {
    if effects != [] {
      var first, e := effects[..|effects| - 1], effects[|effects| - 1];
      forall m: Mac
        ensures WatchAll(tracks(m), first, m).Track?
      {
        BrokenStays(WatchAll(tracks(m), first, m), e, m);
      }
      NothingDropped(s, first, tracks);
      StreamMirrored(s, first, tracks);
      var d := e.Device();
      assert Mirrors(ApplyEffects(s, first), d, WatchAll(tracks(d), first, d));
      assert Watch(WatchAll(tracks(d), first, d), e, d).Track?;
    }
  }

  // Every effect of every step finds its device's id when it is applied.
  lemma StepDropsNothing(env: Env, learning: bool, steps: seq<Step>, next: Step)
    ensures Dropped(StoreAfter(env, learning, steps), Apply(env, Run(env, learning, steps).book, next).effects) == 0
  {
    hide Apply, Plan, Run, StoreAfter, Watch, Dropped, Mirrors;
    var b := Run(env, learning, steps).book;
    var effects := Apply(env, b, next).effects;
    TablesMirrorRun(env, learning, steps);
    RunSound(env, learning, steps);
    var tracks := (m: Mac) => TrackOf(b, m);
    forall m: Mac
      ensures WatchAll(tracks(m), effects, m).Track?
      ensures Mirrors(StoreAfter(env, learning, steps), m, tracks(m))
    {
      ApplyWatched(env, b, next, m);
      assert Mirrors(StoreAfter(env, learning, steps), m, TrackOf(b, m));
    }
    NothingDropped(StoreAfter(env, learning, steps), effects, tracks);
  }

  // ---------- the persister ----------

  lemma OnlyEventsTell(s: Store, e: Effect)
    ensures var id := if e.Device() in s.ids then Some(s.ids[e.Device()]) else None;
            ApplyEffect(s, e).db.events
            == s.db.events + if e.Event? then [EventRow(id, e.event.eventType, e.event.at, false)] else []
  {
    hide CloseSessions, CloseStays, IsOpenSession;
  }

  class Client {
    var db: Db

    constructor ()
      ensures db == EMPTY_DB
    {
      db := EMPTY_DB;
    }
  }

  class Persister {
    var ids: map<Mac, nat>

    constructor ()
      ensures ids == map[]
    {
      ids := map[];
    }

    function IdFor(mac: Mac): Option<nat>
      reads this
    {
      if mac in ids then Some(ids[mac]) else None
    }

    // Applies a batch in order, returning the events that were recorded.
    method ApplyBatch(client: Client, effects: seq<Effect>) returns (recorded: seq<DeviceEvent>)
      modifies this, client
      ensures Store(ids, client.db) == ApplyEffects(old(Store(ids, client.db)), effects)
      ensures recorded == Events(effects)
      ensures old(client.db.events) <= client.db.events
      ensures |client.db.events| == |old(client.db.events)| + |recorded|
    {
      hide InsertDevice, UpsertSignal, UpsertIp, OpenPresence, ClosePresence, ChangeLocation, CloseLocation;
      recorded := [];
      assert effects[..0] == [];
      for i := 0 to |effects|
        invariant Store(ids, client.db) == ApplyEffects(old(Store(ids, client.db)), effects[..i])
        invariant recorded == Events(effects[..i])
        invariant |client.db.events| == |old(client.db.events)| + |recorded|
        invariant old(client.db.events) <= client.db.events
      {
        assert effects[..i + 1][..i] == effects[..i];
        OnlyEventsTell(Store(ids, client.db), effects[i]);
        match effects[i] {
          case Discovered(snapshot) =>
            var (db, id) := InsertDevice(client.db, snapshot);
            client.db := db;
            ids := ids[snapshot.mac := id];
          case Evidence(mac, signal, at) =>
            var id := IdFor(mac);
            if id.Some? { client.db := UpsertSignal(client.db, id.value, signal, at); }
          case Address(mac, ip, interface, at) =>
            var id := IdFor(mac);
            if id.Some? { client.db := UpsertIp(client.db, id.value, ip, interface, at); }
          case PresenceOpened(mac, interface, ip, at) =>
            var id := IdFor(mac);
            if id.Some? { client.db := OpenPresence(client.db, id.value, interface, ip, at); }
          case PresenceClosed(mac, at) =>
            var id := IdFor(mac);
            if id.Some? { client.db := ClosePresence(client.db, id.value, at); }
          case LocationChanged(mac, ap, location, at) =>
            var id := IdFor(mac);
            if id.Some? { client.db := ChangeLocation(client.db, id.value, ap, location, at); }
          case LocationClosed(mac, at) =>
            var id := IdFor(mac);
            if id.Some? { client.db := CloseLocation(client.db, id.value, at); }
          case Event(event) =>
            var deviceId := IdFor(event.mac);
            client.db := client.db.(events := client.db.events + [EventRow(deviceId, event.eventType, event.at, false)]);
            recorded := recorded + [event];
        }
      }
      assert effects[..|effects|] == effects;
    }

    // Writes every changed device and counts its observations against its open
    // session.
    method FlushBatch(client: Client, snapshots: seq<DeviceSnapshot>)
      modifies client
      ensures Store(ids, client.db) == Flush(old(Store(ids, client.db)), snapshots)
    {
      assert snapshots[..0] == [];
      for i := 0 to |snapshots|
        invariant Store(ids, client.db) == Flush(old(Store(ids, client.db)), snapshots[..i])
      {
        assert snapshots[..i + 1][..i] == snapshots[..i];
        var snapshot := snapshots[i];
        var id := IdFor(snapshot.mac);
        if id.None? {
          continue;
        }
        client.db := UpdateDevice(client.db, id.value, snapshot);
        if snapshot.observationsSinceFlush > 0 {
          client.db := client.db.(presence := BumpSessions(client.db.presence, id.value, snapshot.observationsSinceFlush));
        }
      }
      assert snapshots[..|snapshots|] == snapshots;
    }
  }

  function Events(effects: seq<Effect>): seq<DeviceEvent> {
    if effects == [] then []
    else Events(effects[..|effects| - 1]) + (if effects[|effects| - 1].Event? then [effects[|effects| - 1].event] else [])
  }
}
