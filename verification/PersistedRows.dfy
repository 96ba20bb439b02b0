/**
 What the rows say: after any run every table, read off the effects and flushes
 that were applied.
 */
module PersistedRows {
  import opened Options
  import opened Types
  import opened Identities
  import opened DeviceTable
  import opened DeviceTableFacts
  import opened DeviceSessions
  import opened Persistence

  // ---------- the log ----------

  // Everything handed to the persister, in order.
  datatype Item = Did(effect: Effect) | Wrote(snapshot: DeviceSnapshot)

  function Dids(effects: seq<Effect>): seq<Item> {
    seq(|effects|, i requires 0 <= i < |effects| => Did(effects[i]))
  }

  function Wrotes(snapshots: seq<DeviceSnapshot>): seq<Item> {
    seq(|snapshots|, i requires 0 <= i < |snapshots| => Wrote(snapshots[i]))
  }

  function LogOver(env: Env, learning: bool, steps: seq<Step>): seq<Item> {
    if steps == [] then []
    else
      var most := steps[..|steps| - 1];
      var o := Apply(env, Run(env, learning, most).book, steps[|steps| - 1]);
      LogOver(env, learning, most) + Dids(o.effects) + Wrotes(o.flushed)
  }

  // The log's effects and snapshots, in order.
  function EffectsIn(items: seq<Item>): seq<Effect> {
    if items == [] then []
    else
      var x := items[|items| - 1];
      EffectsIn(items[..|items| - 1]) + (if x.Did? then [x.effect] else [])
  }

  function SnapshotsIn(items: seq<Item>): seq<DeviceSnapshot> {
    if items == [] then []
    else
      var x := items[|items| - 1];
      SnapshotsIn(items[..|items| - 1]) + (if x.Wrote? then [x.snapshot] else [])
  }

  lemma {:induction false} InDids(items: seq<Item>, effects: seq<Effect>)
    ensures EffectsIn(items + Dids(effects)) == EffectsIn(items) + effects
    ensures SnapshotsIn(items + Dids(effects)) == SnapshotsIn(items)
  {
    if effects == [] {
      assert items + Dids(effects) == items;
    } else {
      var first := effects[..|effects| - 1];
      InDids(items, first);
      assert (items + Dids(effects))[..|items| + |first|] == items + Dids(first);
    }
  }

  lemma {:induction false} InWrotes(items: seq<Item>, snapshots: seq<DeviceSnapshot>)
    ensures EffectsIn(items + Wrotes(snapshots)) == EffectsIn(items)
    ensures SnapshotsIn(items + Wrotes(snapshots)) == SnapshotsIn(items) + snapshots
  {
    if snapshots == [] {
      assert items + Wrotes(snapshots) == items;
    } else {
      var first := snapshots[..|snapshots| - 1];
      InWrotes(items, first);
      assert (items + Wrotes(snapshots))[..|items| + |first|] == items + Wrotes(first);
    }
  }

  // The log is the run's: its effects and its flushes, none missing, in order.
  lemma {:induction false} LogIsTheRun(env: Env, learning: bool, steps: seq<Step>)
    ensures EffectsIn(LogOver(env, learning, steps)) == Run(env, learning, steps).effects
    ensures SnapshotsIn(LogOver(env, learning, steps)) == Run(env, learning, steps).flushed
  {
    hide Apply;
    if steps != [] {
      var most := steps[..|steps| - 1];
      LogIsTheRun(env, learning, most);
      var o := Apply(env, Run(env, learning, most).book, steps[|steps| - 1]);
      InDids(LogOver(env, learning, most), o.effects);
      InWrotes(LogOver(env, learning, most) + Dids(o.effects), o.flushed);
    }
  }

  // ---------- sessions ----------

  predicate Opens(x: Item, m: Mac) {
    x.Did? && x.effect.PresenceOpened? && x.effect.subject == m
  }

  predicate Closes(x: Item, m: Mac) {
    x.Did? && x.effect.PresenceClosed? && x.effect.subject == m
  }

  predicate Counts(x: Item, m: Mac) {
    x.Wrote? && x.snapshot.mac == m
  }

  // When the next closing is.
  function NextClosing(items: seq<Item>, m: Mac): Option<int> {
    if items == [] then None
    else if Closes(items[0], m) then Some(items[0].effect.at)
    else NextClosing(items[1..], m)
  }

  // What is flushed before the next closing.
  function CountedUntilClosing(items: seq<Item>, m: Mac): nat {
    if items == [] || Closes(items[0], m) then 0
    else (if Counts(items[0], m) then items[0].snapshot.observationsSinceFlush else 0) + CountedUntilClosing(items[1..], m)
  }

  // The row of an opening: its interface, address and start, the next closing
  // for its end, and what was flushed in between for its count.
  function Session(x: Item, rest: seq<Item>, m: Mac, id: nat): seq<PresenceRow> {
    if Opens(x, m)
    then [PresenceRow(id, x.effect.interface, x.effect.openIp, x.effect.at, NextClosing(rest, m), CountedUntilClosing(rest, m))]
    else []
  }

  // One row an opening.
  function Sessions(items: seq<Item>, m: Mac, id: nat): seq<PresenceRow> {
    if items == [] then [] else Session(items[0], items[1..], m, id) + Sessions(items[1..], m, id)
  }

  function Closed(rows: seq<PresenceRow>, at: int): seq<PresenceRow> {
    seq(|rows|, i requires 0 <= i < |rows| => if rows[i].endedAt.None? then rows[i].(endedAt := Some(at)) else rows[i])
  }

  function Bumped(rows: seq<PresenceRow>, count: nat): seq<PresenceRow> {
    seq(|rows|, i requires 0 <= i < |rows| =>
        if rows[i].endedAt.None? then rows[i].(observations := rows[i].observations + count) else rows[i])
  }

  // What one more item does to the rows.
  function Next(rows: seq<PresenceRow>, x: Item, m: Mac, id: nat): seq<PresenceRow> {
    if Opens(x, m) then rows + [PresenceRow(id, x.effect.interface, x.effect.openIp, x.effect.at, None, 0)]
    else if Closes(x, m) then Closed(rows, x.effect.at)
    else if Counts(x, m) then Bumped(rows, x.snapshot.observationsSinceFlush)
    else rows
  }

  lemma {:induction false} ClosingMore(items: seq<Item>, x: Item, m: Mac)
    ensures NextClosing(items + [x], m)
         == if NextClosing(items, m).Some? then NextClosing(items, m)
            else if Closes(x, m) then Some(x.effect.at) else None
    ensures CountedUntilClosing(items + [x], m)
         == CountedUntilClosing(items, m)
            + if NextClosing(items, m).None? && Counts(x, m) then x.snapshot.observationsSinceFlush else 0
  {
    var all := items + [x];
    if items == [] {
      assert all[1..] == [];
    } else {
      assert all[0] == items[0] && all[1..] == items[1..] + [x];
      ClosingMore(items[1..], x, m);
    }
  }

  lemma NextApart(a: seq<PresenceRow>, b: seq<PresenceRow>, x: Item, m: Mac, id: nat)
    ensures Next(a + b, x, m, id) == (if Opens(x, m) then a else Next(a, x, m, id)) + Next(b, x, m, id)
  {}

  lemma SessionMore(head: Item, rest: seq<Item>, x: Item, m: Mac, id: nat)
    ensures Session(head, rest + [x], m, id)
         == if Opens(x, m) then Session(head, rest, m, id) else Next(Session(head, rest, m, id), x, m, id)
  {
    ClosingMore(rest, x, m);
    hide NextClosing, CountedUntilClosing;
  }

  lemma SessionsNone(x: Item, m: Mac, id: nat)
    ensures Sessions([x], m, id) == Next([], x, m, id) && Sessions([], m, id) == []
  {
    assert [x][1..] == [];
    assert NextClosing([], m) == None && CountedUntilClosing([], m) == 0;
  }

  lemma SessionsHead(items: seq<Item>, m: Mac, id: nat)
    requires items != []
    ensures Sessions(items, m, id) == Session(items[0], items[1..], m, id) + Sessions(items[1..], m, id)
  {}

  lemma {:induction false} SessionsMore(items: seq<Item>, x: Item, m: Mac, id: nat)
    ensures Sessions(items + [x], m, id) == Next(Sessions(items, m, id), x, m, id)
  {
    hide Sessions, Session, Next;
    if items == [] {
      assert items + [x] == [x];
      SessionsNone(x, m, id);
    } else {
      var head, rest, all := items[0], items[1..], items + [x];
      assert all[0] == head && all[1..] == rest + [x];
      SessionsMore(rest, x, m, id);
      SessionsHead(all, m, id);
      SessionsHead(items, m, id);
      SessionMore(head, rest, x, m, id);
      NextApart(Session(head, rest, m, id), Sessions(rest, m, id), x, m, id);
    }
  }

  // ---------- stays ----------

  predicate Moves(x: Item, m: Mac) {
    x.Did? && (x.effect.LocationChanged? || x.effect.LocationClosed?) && x.effect.subject == m
  }

  // When the device next changes access point or leaves one.
  function NextMove(items: seq<Item>, m: Mac): Option<int> {
    if items == [] then None
    else if Moves(items[0], m) then Some(items[0].effect.at)
    else NextMove(items[1..], m)
  }

  // The row of a change: its access point, place and start, the next move for
  // its end.
  function Stay(x: Item, rest: seq<Item>, m: Mac, id: nat): seq<StayRow> {
    if Moves(x, m) && x.effect.LocationChanged?
    then [StayRow(id, x.effect.ap, x.effect.location, x.effect.at, NextMove(rest, m))]
    else []
  }

  // One row a change.
  function Stays(items: seq<Item>, m: Mac, id: nat): seq<StayRow> {
    if items == [] then [] else Stay(items[0], items[1..], m, id) + Stays(items[1..], m, id)
  }

  function Left(rows: seq<StayRow>, at: int): seq<StayRow> {
    seq(|rows|, i requires 0 <= i < |rows| => if rows[i].endedAt.None? then rows[i].(endedAt := Some(at)) else rows[i])
  }

  function NextStays(rows: seq<StayRow>, x: Item, m: Mac, id: nat): seq<StayRow> {
    if !Moves(x, m) then rows
    else
      Left(rows, x.effect.at)
      + if x.effect.LocationChanged? then [StayRow(id, x.effect.ap, x.effect.location, x.effect.at, None)] else []
  }

  lemma {:induction false} MoveMore(items: seq<Item>, x: Item, m: Mac)
    ensures NextMove(items + [x], m)
         == if NextMove(items, m).Some? then NextMove(items, m) else if Moves(x, m) then Some(x.effect.at) else None
  {
    var all := items + [x];
    if items == [] {
      assert all[1..] == [];
    } else {
      assert all[0] == items[0] && all[1..] == items[1..] + [x];
      MoveMore(items[1..], x, m);
    }
  }

  lemma NextStaysApart(a: seq<StayRow>, b: seq<StayRow>, x: Item, m: Mac, id: nat)
    ensures NextStays(a + b, x, m, id) == (if Moves(x, m) then Left(a, x.effect.at) else a) + NextStays(b, x, m, id)
  {}

  lemma StayMore(head: Item, rest: seq<Item>, x: Item, m: Mac, id: nat)
    ensures Stay(head, rest + [x], m, id)
         == if Moves(x, m) then Left(Stay(head, rest, m, id), x.effect.at) else Stay(head, rest, m, id)
  {
    MoveMore(rest, x, m);
    hide NextMove;
  }

  lemma StaysNone(x: Item, m: Mac, id: nat)
    ensures Stays([x], m, id) == NextStays([], x, m, id) && Stays([], m, id) == []
  {
    assert [x][1..] == [];
    assert NextMove([], m) == None;
  }

  lemma StaysHead(items: seq<Item>, m: Mac, id: nat)
    requires items != []
    ensures Stays(items, m, id) == Stay(items[0], items[1..], m, id) + Stays(items[1..], m, id)
  {}

  lemma {:induction false} StaysMore(items: seq<Item>, x: Item, m: Mac, id: nat)
    ensures Stays(items + [x], m, id) == NextStays(Stays(items, m, id), x, m, id)
  {
    hide Stays, Stay, NextStays, Left;
    if items == [] {
      assert items + [x] == [x];
      StaysNone(x, m, id);
    } else {
      var head, rest, all := items[0], items[1..], items + [x];
      assert all[0] == head && all[1..] == rest + [x];
      StaysMore(rest, x, m, id);
      StaysHead(all, m, id);
      StaysHead(items, m, id);
      StayMore(head, rest, x, m, id);
      NextStaysApart(Stay(head, rest, m, id), Stays(rest, m, id), x, m, id);
    }
  }

  // ---------- addresses and evidence ----------

  predicate Shows(x: Item, m: Mac, ip: IpAddr) {
    x.Did? && x.effect.Address? && x.effect.subject == m && x.effect.ip == ip
  }

  predicate Says(x: Item, m: Mac, s: Signal) {
    x.Did? && x.effect.Evidence? && x.effect.subject == m && x.effect.signal == s
  }

  // First and last time, and the last interface.
  function IpSeen(items: seq<Item>, m: Mac, ip: IpAddr): Option<IpRow> {
    if items == [] then None
    else
      var before, x := IpSeen(items[..|items| - 1], m, ip), items[|items| - 1];
      if !Shows(x, m, ip) then before
      else Some(IpRow(x.effect.interface, if before.Some? then before.value.firstSeen else x.effect.at, x.effect.at))
  }

  function SignalSeen(items: seq<Item>, m: Mac, s: Signal): Option<SignalRow> {
    if items == [] then None
    else
      var before, x := SignalSeen(items[..|items| - 1], m, s), items[|items| - 1];
      if !Says(x, m, s) then before
      else Some(SignalRow(if before.Some? then before.value.firstSeen else x.effect.at, x.effect.at))
  }

  lemma SeenMore(items: seq<Item>, x: Item, m: Mac, ip: IpAddr, s: Signal)
    ensures IpSeen(items + [x], m, ip)
         == (if !Shows(x, m, ip) then IpSeen(items, m, ip)
             else Some(IpRow(x.effect.interface,
                             if IpSeen(items, m, ip).Some? then IpSeen(items, m, ip).value.firstSeen else x.effect.at,
                             x.effect.at)))
    ensures SignalSeen(items + [x], m, s)
         == (if !Says(x, m, s) then SignalSeen(items, m, s)
             else Some(SignalRow(if SignalSeen(items, m, s).Some? then SignalSeen(items, m, s).value.firstSeen else x.effect.at,
                                 x.effect.at)))
  {
    assert (items + [x])[..|items|] == items;
  }

  // ---------- the tables of one device ----------

  function RowsOf(rows: seq<PresenceRow>, id: nat): seq<PresenceRow> {
    if rows == [] then []
    else RowsOf(rows[..|rows| - 1], id) + (if rows[|rows| - 1].deviceId == id then [rows[|rows| - 1]] else [])
  }

  function StaysOf(rows: seq<StayRow>, id: nat): seq<StayRow> {
    if rows == [] then []
    else StaysOf(rows[..|rows| - 1], id) + (if rows[|rows| - 1].deviceId == id then [rows[|rows| - 1]] else [])
  }

  lemma RowsOfMore(rows: seq<PresenceRow>, r: PresenceRow, id: nat)
    ensures RowsOf(rows + [r], id) == if r.deviceId == id then RowsOf(rows, id) + [r] else RowsOf(rows, id)
  {
    assert (rows + [r])[..|rows|] == rows;
  }

  lemma StaysOfMore(rows: seq<StayRow>, r: StayRow, id: nat)
    ensures StaysOf(rows + [r], id) == if r.deviceId == id then StaysOf(rows, id) + [r] else StaysOf(rows, id)
  {
    assert (rows + [r])[..|rows|] == rows;
  }

  // The last row by itself, of a table and of what a statement makes of it.
  lemma LastRow(rows: seq<PresenceRow>, id: nat, at: int, count: nat, other: nat)
    requires rows != []
    ensures var most, r := rows[..|rows| - 1], rows[|rows| - 1];
            && RowsOf(rows, other) == (if r.deviceId == other then RowsOf(most, other) + [r] else RowsOf(most, other))
            && CloseSessions(rows, id, at)
               == CloseSessions(most, id, at) + [if r.deviceId == id then Ended(r, at) else r]
            && BumpSessions(rows, id, count)
               == BumpSessions(most, id, count) + [if r.deviceId == id then Counted(r, count) else r]
  {
    var most, r := rows[..|rows| - 1], rows[|rows| - 1];
    assert most + [r] == rows;
    RowsOfMore(most, r, other);
  }

  function Ended(r: PresenceRow, at: int): PresenceRow {
    if r.endedAt.None? then r.(endedAt := Some(at)) else r
  }

  function Counted(r: PresenceRow, count: nat): PresenceRow {
    if r.endedAt.None? then r.(observations := r.observations + count) else r
  }

  lemma ClosedMore(rows: seq<PresenceRow>, r: PresenceRow, at: int, count: nat)
    ensures Closed(rows + [r], at) == Closed(rows, at) + [Ended(r, at)]
    ensures Bumped(rows + [r], count) == Bumped(rows, count) + [Counted(r, count)]
    ensures Ended(r, at).deviceId == Counted(r, count).deviceId == r.deviceId
  {}

  // Closing ends the device's open rows and no other.
  lemma {:induction false} CloseReads(rows: seq<PresenceRow>, id: nat, at: int, other: nat)
    ensures RowsOf(CloseSessions(rows, id, at), other) == if other == id then Closed(RowsOf(rows, id), at) else RowsOf(rows, other)
  {
    if rows == [] {
      assert RowsOf([], other) == [] && CloseSessions([], id, at) == [] && Closed([], at) == [];
    } else {
      hide RowsOf, CloseSessions, Closed, Ended;
      var most, r := rows[..|rows| - 1], rows[|rows| - 1];
      CloseReads(most, id, at, other);
      LastRow(rows, id, at, 0, other);
      ClosedMore(RowsOf(most, other), r, at, 0);
      RowsOfMore(CloseSessions(most, id, at), if r.deviceId == id then Ended(r, at) else r, other);
    }
  }

  // Counting adds to the device's open rows and no other.
  lemma {:induction false} BumpReads(rows: seq<PresenceRow>, id: nat, count: nat, other: nat)
    ensures RowsOf(BumpSessions(rows, id, count), other)
         == if other == id then Bumped(RowsOf(rows, id), count) else RowsOf(rows, other)
  {
    if rows == [] {
      assert RowsOf([], other) == [] && BumpSessions([], id, count) == [] && Bumped([], count) == [];
    } else {
      hide RowsOf, BumpSessions, Bumped, Counted;
      var most, r := rows[..|rows| - 1], rows[|rows| - 1];
      BumpReads(most, id, count, other);
      LastRow(rows, id, 0, count, other);
      ClosedMore(RowsOf(most, other), r, 0, count);
      RowsOfMore(BumpSessions(most, id, count), if r.deviceId == id then Counted(r, count) else r, other);
    }
  }

  function Departed(r: StayRow, at: int): StayRow {
    if r.endedAt.None? then r.(endedAt := Some(at)) else r
  }

  lemma LastStay(rows: seq<StayRow>, id: nat, at: int, other: nat)
    requires rows != []
    ensures var most, r := rows[..|rows| - 1], rows[|rows| - 1];
            && StaysOf(rows, other) == (if r.deviceId == other then StaysOf(most, other) + [r] else StaysOf(most, other))
            && CloseStays(rows, id, at) == CloseStays(most, id, at) + [if r.deviceId == id then Departed(r, at) else r]
  {
    var most, r := rows[..|rows| - 1], rows[|rows| - 1];
    assert most + [r] == rows;
    StaysOfMore(most, r, other);
  }

  lemma LeftMore(rows: seq<StayRow>, r: StayRow, at: int)
    ensures Left(rows + [r], at) == Left(rows, at) + [Departed(r, at)] && Departed(r, at).deviceId == r.deviceId
  {}

  // Leaving ends the device's open stays and no other.
  lemma {:induction false} LeaveReads(rows: seq<StayRow>, id: nat, at: int, other: nat)
    ensures StaysOf(CloseStays(rows, id, at), other) == if other == id then Left(StaysOf(rows, id), at) else StaysOf(rows, other)
  {
    if rows == [] {
      assert StaysOf([], other) == [] && CloseStays([], id, at) == [] && Left([], at) == [];
    } else {
      hide StaysOf, CloseStays, Left, Departed;
      var most, r := rows[..|rows| - 1], rows[|rows| - 1];
      LeaveReads(most, id, at, other);
      LastStay(rows, id, at, other);
      LeftMore(StaysOf(most, other), r, at);
      StaysOfMore(CloseStays(most, id, at), if r.deviceId == id then Departed(r, at) else r, other);
    }
  }

  // ---------- the tables read as the log ----------

  function Lookup<K, V>(table: map<K, V>, k: K): Option<V> {
    if k in table then Some(table[k]) else None
  }

  ghost predicate IsDevices(ids: map<Mac, nat>, id: nat) {
    exists m :: m in ids && ids[m] == id
  }

  ghost predicate Sessioned(ids: map<Mac, nat>, rows: seq<PresenceRow>) {
    forall i :: 0 <= i < |rows| ==> IsDevices(ids, rows[i].deviceId)
  }

  ghost predicate Stayed(ids: map<Mac, nat>, rows: seq<StayRow>) {
    forall i :: 0 <= i < |rows| ==> IsDevices(ids, rows[i].deviceId)
  }

  // Every row is some device's.
  ghost predicate Owned(store: Store) {
    && Sessioned(store.ids, store.db.presence)
    && Stayed(store.ids, store.db.stays)
    && (forall k :: k in store.db.ips ==> IsDevices(store.ids, k.0))
    && (forall k :: k in store.db.signals ==> IsDevices(store.ids, k.0))
  }

  // One device's rows under an id, one of its addresses and one of its signals.
  predicate TablesRead(db: Db, items: seq<Item>, m: Mac, id: nat, ip: IpAddr, s: Signal) {
    && RowsOf(db.presence, id) == Sessions(items, m, id)
    && StaysOf(db.stays, id) == Stays(items, m, id)
    && Lookup(db.ips, (id, ip)) == IpSeen(items, m, ip)
    && Lookup(db.signals, (id, s)) == SignalSeen(items, m, s)
  }

  predicate Untold(items: seq<Item>, m: Mac, id: nat, ip: IpAddr, s: Signal) {
    Sessions(items, m, id) == [] && Stays(items, m, id) == [] && IpSeen(items, m, ip).None? && SignalSeen(items, m, s).None?
  }

  // What the tables hold under the device's id is what the log says; of a device
  // without an id the log says nothing.
  predicate Reads(store: Store, items: seq<Item>, m: Mac, id: nat, ip: IpAddr, s: Signal) {
    if m !in store.ids then Untold(items, m, id, ip, s)
    else store.ids[m] == id ==> TablesRead(store.db, items, m, id, ip, s)
  }

  lemma {:induction false} NoRowsOf(rows: seq<PresenceRow>, stays: seq<StayRow>, id: nat)
    ensures (forall r :: r in rows ==> r.deviceId < id) ==> RowsOf(rows, id) == []
    ensures (forall r :: r in stays ==> r.deviceId < id) ==> StaysOf(stays, id) == []
    decreases |rows| + |stays|
  {
    if rows != [] {
      NoRowsOf(rows[..|rows| - 1], [], id);
      assert rows == rows[..|rows| - 1] + [rows[|rows| - 1]];
    }
    if stays != [] {
      NoRowsOf([], stays[..|stays| - 1], id);
      assert stays == stays[..|stays| - 1] + [stays[|stays| - 1]];
    }
  }

  // An item that is not about the device's rows leaves what the log says.
  predicate Aside(x: Item, m: Mac) {
    x.Wrote? || x.effect.Discovered? || x.effect.Event? || x.effect.subject != m
  }

  lemma LogMore(items: seq<Item>, x: Item, m: Mac, id: nat, ip: IpAddr, s: Signal)
    ensures Sessions(items + [x], m, id) == Next(Sessions(items, m, id), x, m, id)
    ensures Stays(items + [x], m, id) == NextStays(Stays(items, m, id), x, m, id)
    ensures Aside(x, m) ==>
              && IpSeen(items + [x], m, ip) == IpSeen(items, m, ip)
              && SignalSeen(items + [x], m, s) == SignalSeen(items, m, s)
  {
    hide Sessions, Stays, IpSeen, SignalSeen;
    SessionsMore(items, x, m, id);
    StaysMore(items, x, m, id);
    SeenMore(items, x, m, ip, s);
  }

  lemma AsideEffect(db: Db, items: seq<Item>, e: Effect, m: Mac, id: nat, ip: IpAddr, s: Signal)
    requires Aside(Did(e), m)
    ensures TablesRead(db, items + [Did(e)], m, id, ip, s) <==> TablesRead(db, items, m, id, ip, s)
    ensures Untold(items + [Did(e)], m, id, ip, s) <==> Untold(items, m, id, ip, s)
  {
    hide Sessions, Stays, IpSeen, SignalSeen, RowsOf, StaysOf;
    LogMore(items, Did(e), m, id, ip, s);
  }

  // A statement on one device's id touches no other device's rows.
  lemma OtherRows(store: Store, e: Effect, id: nat, ip: IpAddr, s: Signal)
    requires !e.Discovered? && !e.Event?
    requires e.subject in store.ids && store.ids[e.subject] != id
    ensures var db, after := store.db, ApplyEffect(store, e).db;
            && RowsOf(after.presence, id) == RowsOf(db.presence, id) && StaysOf(after.stays, id) == StaysOf(db.stays, id)
            && Lookup(after.ips, (id, ip)) == Lookup(db.ips, (id, ip))
            && Lookup(after.signals, (id, s)) == Lookup(db.signals, (id, s))
  {
    hide RowsOf, StaysOf, CloseSessions, CloseStays, IsOpenSession, IsOpenStay;
    var db, own := store.db, store.ids[e.subject];
    match e {
      case PresenceOpened(_, interface, openIp, at) =>
        RowsOfMore(db.presence, PresenceRow(own, interface, openIp, at, None, 0), id);
      case PresenceClosed(_, at) => CloseReads(db.presence, own, at, id);
      case LocationChanged(_, ap, location, at) =>
        LeaveReads(db.stays, own, at, id);
        StaysOfMore(CloseStays(db.stays, own, at), StayRow(own, ap, location, at, None), id);
      case LocationClosed(_, at) => LeaveReads(db.stays, own, at, id);
      case _ =>
    }
  }

  // A statement on the device's own id does to its rows what the log says.
  lemma OwnRows(store: Store, items: seq<Item>, e: Effect, m: Mac, id: nat, ip: IpAddr, s: Signal)
    requires !e.Discovered? && !e.Event? && e.subject == m
    requires m in store.ids && store.ids[m] == id
    requires e.PresenceOpened? ==> OpenSessions(store.db.presence, id) == 0
    requires TablesRead(store.db, items, m, id, ip, s)
    ensures TablesRead(ApplyEffect(store, e).db, items + [Did(e)], m, id, ip, s)
  {
    hide RowsOf, StaysOf, CloseSessions, CloseStays, IsOpenSession, IsOpenStay, Sessions, Stays, IpSeen, SignalSeen, OpenSessions;
    var db := store.db;
    LogMore(items, Did(e), m, id, ip, s);
    SeenMore(items, Did(e), m, ip, s);
    match e {
      case PresenceOpened(_, interface, openIp, at) =>
        NoOpenSessions(db.presence, id);
        RowsOfMore(db.presence, PresenceRow(id, interface, openIp, at, None, 0), id);
      case PresenceClosed(_, at) => CloseReads(db.presence, id, at, id);
      case LocationChanged(_, ap, location, at) =>
        LeaveReads(db.stays, id, at, id);
        StaysOfMore(CloseStays(db.stays, id, at), StayRow(id, ap, location, at, None), id);
      case LocationClosed(_, at) => LeaveReads(db.stays, id, at, id);
      case _ =>
    }
  }

  lemma {:induction false} StillSessioned(ids: map<Mac, nat>, rows: seq<PresenceRow>, id: nat, at: int, count: nat)
    requires Sessioned(ids, rows)
    ensures Sessioned(ids, CloseSessions(rows, id, at)) && Sessioned(ids, BumpSessions(rows, id, count))
  {
    hide IsDevices;
    if rows != [] { StillSessioned(ids, rows[..|rows| - 1], id, at, count); }
  }

  lemma {:induction false} StillStayed(ids: map<Mac, nat>, rows: seq<StayRow>, id: nat, at: int)
    requires Stayed(ids, rows)
    ensures Stayed(ids, CloseStays(rows, id, at))
  {
    hide IsDevices;
    if rows != [] { StillStayed(ids, rows[..|rows| - 1], id, at); }
  }

  lemma EffectOwned(store: Store, e: Effect)
    requires Owned(store) && (e.Discovered? ==> e.snapshot.mac !in store.ids)
    ensures Owned(ApplyEffect(store, e))
  {
    hide CloseSessions, CloseStays, IsOpenSession, IsOpenStay, OpenSessions, OpenStays, InsertedRow;
    var db := store.db;
    if e.Discovered? {
      DiscoveryOwned(store, e);
    } else if !e.Event? && e.subject in store.ids {
      var id := store.ids[e.subject];
      assert IsDevices(store.ids, id);
      hide IsDevices;
      match e {
        case PresenceClosed(_, at) => StillSessioned(store.ids, db.presence, id, at, 0);
        case LocationChanged(_, _, _, at) => StillStayed(store.ids, db.stays, id, at);
        case LocationClosed(_, at) => StillStayed(store.ids, db.stays, id, at);
        case _ =>
      }
    }
  }

  lemma DiscoveryOwned(store: Store, e: Effect)
    requires Owned(store) && e.Discovered? && e.snapshot.mac !in store.ids
    ensures Owned(ApplyEffect(store, e))
  {
    hide InsertedRow;
    forall id: nat
      ensures IsDevices(store.ids, id) ==> IsDevices(ApplyEffect(store, e).ids, id)
    {
      if IsDevices(store.ids, id) {
        var m :| m in store.ids && store.ids[m] == id;
        assert ApplyEffect(store, e).ids[m] == id;
      }
    }
    InsertKeepsRows(store.db, e.snapshot);
    hide IsDevices, InsertDevice;
  }

  lemma InsertKeepsRows(db: Db, x: DeviceSnapshot)
    ensures var after := InsertDevice(db, x).0;
            after.presence == db.presence && after.stays == db.stays && after.ips == db.ips && after.signals == db.signals
  {}

  lemma OwnedBelow(store: Store)
    requires Tidy(store) && Owned(store)
    ensures forall r :: r in store.db.presence ==> r.deviceId < store.db.nextId
    ensures forall r :: r in store.db.stays ==> r.deviceId < store.db.nextId
    ensures forall k :: k in store.db.ips ==> k.0 < store.db.nextId
    ensures forall k :: k in store.db.signals ==> k.0 < store.db.nextId
  {
    hide OpenSessions, OpenStays;
  }

  lemma DiscoveryReads(store: Store, items: seq<Item>, e: Effect, m: Mac, id: nat, ip: IpAddr, s: Signal)
    requires e.Discovered? && e.snapshot.mac !in store.ids
    requires Tidy(store) && Owned(store) && Reads(store, items, m, id, ip, s)
    ensures Reads(ApplyEffect(store, e), items + [Did(e)], m, id, ip, s)
  {
    hide RowsOf, StaysOf, Sessions, Stays, IpSeen, SignalSeen, OpenSessions, OpenStays, InsertedRow;
    AsideEffect(store.db, items, e, m, id, ip, s);
    OwnedBelow(store);
    NoRowsOf(store.db.presence, store.db.stays, store.db.nextId);
  }

  lemma KnownWhen(store: Store, e: Effect, d: Track)
    requires Mirrors(store, e.Device(), d) && Watch(d, e, e.Device()).Track?
    ensures e.Discovered? ==> e.Device() !in store.ids
    ensures !e.Discovered? ==> e.Device() in store.ids
    ensures e.PresenceOpened? ==> OpenSessions(store.db.presence, store.ids[e.Device()]) == 0
  {
    hide OpenSessions, OpenStays;
  }

  lemma EffectReads(store: Store, items: seq<Item>, e: Effect, d: Track, m: Mac, id: nat, ip: IpAddr, s: Signal)
    requires Tidy(store) && Owned(store) && Reads(store, items, m, id, ip, s)
    requires Mirrors(store, e.Device(), d) && Watch(d, e, e.Device()).Track?
    ensures Reads(ApplyEffect(store, e), items + [Did(e)], m, id, ip, s)
  {
    hide Watch, Mirrors, RowsOf, StaysOf, Sessions, Stays, IpSeen, SignalSeen, OpenSessions, OpenStays, TablesRead, Untold;
    KnownWhen(store, e, d);
    if e.Discovered? {
      DiscoveryReads(store, items, e, m, id, ip, s);
    } else if e.Event? {
      EventReads(store, items, e, m, id, ip, s);
    } else {
      StatementReads(store, items, e, m, id, ip, s);
    }
  }

  lemma EventReads(store: Store, items: seq<Item>, e: Effect, m: Mac, id: nat, ip: IpAddr, s: Signal)
    requires e.Event? && Reads(store, items, m, id, ip, s)
    ensures Reads(ApplyEffect(store, e), items + [Did(e)], m, id, ip, s)
  {
    hide RowsOf, StaysOf, Sessions, Stays, IpSeen, SignalSeen, Untold;
    AsideEffect(store.db, items, e, m, id, ip, s);
  }

  lemma StatementReads(store: Store, items: seq<Item>, e: Effect, m: Mac, id: nat, ip: IpAddr, s: Signal)
    requires !e.Discovered? && !e.Event? && e.subject in store.ids
    requires e.PresenceOpened? ==> OpenSessions(store.db.presence, store.ids[e.subject]) == 0
    requires Tidy(store) && Reads(store, items, m, id, ip, s)
    ensures Reads(ApplyEffect(store, e), items + [Did(e)], m, id, ip, s)
  {
    hide RowsOf, StaysOf, Sessions, Stays, IpSeen, SignalSeen, OpenSessions, OpenStays, Untold;
    StatementKeepsIds(store, e);
    hide ApplyEffect;
    if e.subject == m {
      if store.ids[m] == id { OwnRows(store, items, e, m, id, ip, s); }
    } else {
      AsideEffect(store.db, items, e, m, id, ip, s);
      if m in store.ids && store.ids[m] == id { OtherRows(store, e, id, ip, s); }
    }
  }

  lemma StatementKeepsIds(store: Store, e: Effect)
    requires !e.Discovered?
    ensures ApplyEffect(store, e).ids == store.ids
  {}

  // ---------- flushes ----------

  lemma FlushReads(store: Store, items: seq<Item>, x: DeviceSnapshot, m: Mac, id: nat, ip: IpAddr, s: Signal)
    requires Tidy(store) && Reads(store, items, m, id, ip, s)
    ensures Reads(FlushOne(store, x), items + [Wrote(x)], m, id, ip, s)
  {
    hide RowsOf, StaysOf, Sessions, Stays, IpSeen, SignalSeen, OpenSessions, OpenStays, BumpSessions, UpdatedRow;
    LogMore(items, Wrote(x), m, id, ip, s);
    if x.mac in store.ids {
      BumpReads(store.db.presence, store.ids[x.mac], x.observationsSinceFlush, id);
    }
    CountNothing(RowsOf(store.db.presence, id));
  }

  lemma CountNothing(rows: seq<PresenceRow>)
    ensures Bumped(rows, 0) == rows
  {}

  lemma FlushOwned(store: Store, x: DeviceSnapshot)
    requires Owned(store)
    ensures Owned(FlushOne(store, x))
  {
    hide BumpSessions, UpdatedRow, IsDevices;
    if x.mac in store.ids {
      StillSessioned(store.ids, store.db.presence, store.ids[x.mac], 0, x.observationsSinceFlush);
    }
  }

  // ---------- events ----------

  function Told(items: seq<Item>): seq<DeviceEvent> {
    if items == [] then []
    else
      var x := items[|items| - 1];
      Told(items[..|items| - 1]) + (if x.Did? && x.effect.Event? then [x.effect.event] else [])
  }

  // One row an event, in order, under its device's id.
  ghost predicate EventsRead(store: Store, items: seq<Item>) {
    && |store.db.events| == |Told(items)|
    && forall i :: 0 <= i < |Told(items)| ==>
         var t := Told(items)[i];
         t.mac in store.ids && store.db.events[i] == EventRow(Some(store.ids[t.mac]), t.eventType, t.at, false)
  }

  lemma EffectTells(store: Store, items: seq<Item>, e: Effect, d: Track)
    requires EventsRead(store, items)
    requires Mirrors(store, e.Device(), d) && Watch(d, e, e.Device()).Track?
    ensures EventsRead(ApplyEffect(store, e), items + [Did(e)])
  {
    hide Watch, Mirrors, OpenSessions, OpenStays, CloseSessions, CloseStays, IsOpenSession, InsertedRow;
    KnownWhen(store, e, d);
    assert (items + [Did(e)])[..|items|] == items;
    if !e.Event? { OthersTellNothing(store, e); }
  }

  lemma OthersTellNothing(store: Store, e: Effect)
    requires !e.Event? && (e.Discovered? ==> e.snapshot.mac !in store.ids)
    ensures var after := ApplyEffect(store, e);
            && after.db.events == store.db.events
            && forall m :: m in store.ids ==> m in after.ids && after.ids[m] == store.ids[m]
  {
    hide CloseSessions, CloseStays, IsOpenSession, InsertedRow;
  }

  lemma FlushTells(store: Store, items: seq<Item>, x: DeviceSnapshot)
    requires EventsRead(store, items)
    ensures EventsRead(FlushOne(store, x), items + [Wrote(x)])
  {
    hide BumpSessions, UpdatedRow;
    assert (items + [Wrote(x)])[..|items|] == items;
  }

  // ---------- runs ----------

  ghost predicate Faithful(store: Store, items: seq<Item>, m: Mac, id: nat, ip: IpAddr, s: Signal) {
    Owned(store) && EventsRead(store, items) && Reads(store, items, m, id, ip, s)
  }

  lemma {:induction false} StreamReads(store: Store, items: seq<Item>, effects: seq<Effect>, tracks: Mac -> Track,
                                       m: Mac, id: nat, ip: IpAddr, s: Signal)
    requires Tidy(store) && forall n: Mac :: Mirrors(store, n, tracks(n))
    requires forall n: Mac :: WatchAll(tracks(n), effects, n).Track?
    requires Faithful(store, items, m, id, ip, s)
    ensures Faithful(ApplyEffects(store, effects), items + Dids(effects), m, id, ip, s)
  {
    hide Tidy, Owned, EventsRead, Reads, ApplyEffect, Watch, Mirrors;
    if effects == [] {
      assert items + Dids(effects) == items;
    } else {
      var first, e := effects[..|effects| - 1], effects[|effects| - 1];
      forall n: Mac
        ensures WatchAll(tracks(n), first, n).Track?
      {
        BrokenStays(WatchAll(tracks(n), first, n), e, n);
      }
      StreamReads(store, items, first, tracks, m, id, ip, s);
      StreamMirrored(store, first, tracks);
      var mid, d := ApplyEffects(store, first), e.Device();
      assert WatchAll(tracks(d), effects, d).Track?;
      var t := WatchAll(tracks(d), first, d);
      KnownWhen(mid, e, t);
      EffectOwned(mid, e);
      EffectTells(mid, items + Dids(first), e, t);
      EffectReads(mid, items + Dids(first), e, t, m, id, ip, s);
      assert items + Dids(effects) == (items + Dids(first)) + [Did(e)];
    }
  }

  lemma {:induction false} WritesRead(store: Store, items: seq<Item>, snapshots: seq<DeviceSnapshot>,
                                      m: Mac, id: nat, ip: IpAddr, s: Signal)
    requires Tidy(store) && Faithful(store, items, m, id, ip, s)
    ensures Tidy(Flush(store, snapshots))
    ensures Faithful(Flush(store, snapshots), items + Wrotes(snapshots), m, id, ip, s)
  {
    hide Tidy, Owned, EventsRead, Reads, FlushOne;
    if snapshots == [] {
      assert items + Wrotes(snapshots) == items;
    } else {
      var first, x := snapshots[..|snapshots| - 1], snapshots[|snapshots| - 1];
      WritesRead(store, items, first, m, id, ip, s);
      var mid := Flush(store, first);
      FlushTidy(mid, x);
      FlushOwned(mid, x);
      FlushTells(mid, items + Wrotes(first), x);
      FlushReads(mid, items + Wrotes(first), x, m, id, ip, s);
      assert items + Wrotes(snapshots) == (items + Wrotes(first)) + [Wrote(x)];
    }
  }

  lemma FlushTidy(store: Store, x: DeviceSnapshot)
    requires Tidy(store)
    ensures Tidy(FlushOne(store, x))
  {
    hide OpenSessions, OpenStays, BumpSessions;
    if x.mac in store.ids {
      forall id: nat
        ensures OpenSessions(FlushOne(store, x).db.presence, id) == OpenSessions(store.db.presence, id)
      {
        SessionsBumped(store.db.presence, store.ids[x.mac], x.observationsSinceFlush, id);
      }
    }
  }

  lemma NothingYet(m: Mac, id: nat, ip: IpAddr, s: Signal)
    ensures Faithful(EMPTY_STORE, [], m, id, ip, s)
  {}

  lemma {:induction false} RunFaithful(env: Env, learning: bool, steps: seq<Step>, m: Mac, id: nat, ip: IpAddr, s: Signal)
    ensures Faithful(StoreAfter(env, learning, steps), LogOver(env, learning, steps), m, id, ip, s)
  {
    hide Apply, Plan, Run, Watch, Mirrors, Tidy, TrackOf, Faithful;
    if steps == [] {
      NothingYet(m, id, ip, s);
    } else {
      var last := |steps| - 1;
      var most := steps[..last];
      RunFaithful(env, learning, most, m, id, ip, s);
      TablesMirrorRun(env, learning, most);
      RunSound(env, learning, most);
      var store, b := StoreAfter(env, learning, most), Run(env, learning, most).book;
      var o := Apply(env, b, steps[last]);
      var tracks := (n: Mac) => TrackOf(b, n);
      forall n: Mac
        ensures Mirrors(store, n, tracks(n))
        ensures WatchAll(tracks(n), o.effects, n).Track?
      {
        assert Mirrors(store, n, TrackOf(b, n));
        ApplyWatched(env, b, steps[last], n);
        WholeTrack(o.book, n);
      }
      var items := LogOver(env, learning, most);
      StreamReads(store, items, o.effects, tracks, m, id, ip, s);
      StreamMirrored(store, o.effects, tracks);
      WritesRead(ApplyEffects(store, o.effects), items + Dids(o.effects), o.flushed, m, id, ip, s);
    }
  }

  lemma WholeTrack(b: Book, m: Mac)
    ensures TrackOf(b, m).Track?
  {}

  // After any run a device's presence rows, in order, are its openings: each
  // with that interface, address and start, ended at the device's next closing
  // if there was one, counting what was flushed for it in between.  Its stays are
  // its changes of access point, each ended at the next change or leaving.
  lemma RowsAreTheEffects(env: Env, learning: bool, steps: seq<Step>, m: Mac)
    requires m in Run(env, learning, steps).book.devices
    ensures var store, items := StoreAfter(env, learning, steps), LogOver(env, learning, steps);
            && m in store.ids
            && RowsOf(store.db.presence, store.ids[m]) == Sessions(items, m, store.ids[m])
            && StaysOf(store.db.stays, store.ids[m]) == Stays(items, m, store.ids[m])
  {
    hide Run, StoreAfter, LogOver, RowsOf, StaysOf, Sessions, Stays, Tidy;
    var store := StoreAfter(env, learning, steps);
    OpenRowsExactly(env, learning, steps, m);
    RunFaithful(env, learning, steps, m, store.ids[m], V4(0), Signal(Vendor, ""));
  }

  // Its addresses are those it was seen with, each with the first time, the last
  // time and the interface of the last; its evidence likewise.
  lemma SeenIsTheEffects(env: Env, learning: bool, steps: seq<Step>, m: Mac, ip: IpAddr, s: Signal)
    requires m in Run(env, learning, steps).book.devices
    ensures var store, items := StoreAfter(env, learning, steps), LogOver(env, learning, steps);
            && m in store.ids
            && Lookup(store.db.ips, (store.ids[m], ip)) == IpSeen(items, m, ip)
            && Lookup(store.db.signals, (store.ids[m], s)) == SignalSeen(items, m, s)
  {
    hide Run, StoreAfter, LogOver, RowsOf, StaysOf, Sessions, Stays, IpSeen, SignalSeen, Tidy;
    var store := StoreAfter(env, learning, steps);
    OpenRowsExactly(env, learning, steps, m);
    RunFaithful(env, learning, steps, m, store.ids[m], ip, s);
  }

  // And there is no row that is not some device's.
  lemma NoOtherRows(env: Env, learning: bool, steps: seq<Step>)
    ensures Owned(StoreAfter(env, learning, steps))
  {
    hide StoreAfter, LogOver, Owned;
    RunFaithful(env, learning, steps, 0, 0, V4(0), Signal(Vendor, ""));
  }

  // The event table is the events announced, in order, each under its device's
  // id, at its time, not yet delivered.
  lemma EventsAreTheEffects(env: Env, learning: bool, steps: seq<Step>)
    ensures EventsRead(StoreAfter(env, learning, steps), LogOver(env, learning, steps))
  {
    hide StoreAfter, LogOver, EventsRead;
    RunFaithful(env, learning, steps, 0, 0, V4(0), Signal(Vendor, ""));
  }
}
