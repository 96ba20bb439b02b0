/** Two devices using one address at the same time. */
module IpConflicts {
  import opened Options
  import opened Types
  import opened Windows
  import opened Gateway
  import opened Analysis

  const CONFLICT_COOLDOWN: nat := 600 * SECOND

  // One device using an address, at a time.
  datatype Use = Use(mac: Mac, at: int)

  datatype Users = Users(latest: Use, previous: Option<Use>, lastAlert: Option<int>)

  predicate Collides(users: Users, u: Use, within: nat) {
    && users.latest.mac != u.mac
    && 0 <= u.at - users.latest.at <= within
    && CooledDown(users.lastAlert, u.at, CONFLICT_COOLDOWN)
  }

  // The same device only refreshes its time; another displaces it.
  function Displaced(users: Users, u: Use, within: nat): Users {
    if users.latest.mac == u.mac then users.(latest := u)
    else Users(u, Some(users.latest), if Collides(users, u, within) then Some(u.at) else users.lastAlert)
  }

  // An address nobody is known to use starts with the device now using it.
  function FirstUse(u: Use): Users {
    Users(u, None, None)
  }

  function UsersOr(users: Option<Users>, u: Use): Users {
    users.GetOr(FirstUse(u))
  }

  // ---------- the uses of one address ----------

  function UsersAfter(uses: seq<Use>, within: nat): Option<Users> {
    if uses == [] then None
    else
      var u := uses[|uses| - 1];
      Some(Displaced(UsersOr(UsersAfter(uses[..|uses| - 1], within), u), u, within))
  }

  predicate ConflictAt(uses: seq<Use>, i: nat, within: nat)
    requires i < |uses|
  {
    Collides(UsersOr(UsersAfter(uses[..i], within), uses[i]), uses[i], within)
  }

  // Two devices, one straight after the other, inside the window.
  predicate CoPresent(uses: seq<Use>, i: nat, within: nat)
    requires i < |uses|
  {
    i > 0 && uses[i - 1].mac != uses[i].mac && 0 <= uses[i].at - uses[i - 1].at <= within
  }

  ghost predicate UsesInOrder(uses: seq<Use>) {
    forall i, j :: 0 <= i < j < |uses| ==> uses[i].at <= uses[j].at
  }

  function Trials(uses: seq<Use>, within: nat): seq<Trial> {
    seq(|uses|, i requires 0 <= i < |uses| => Trial(uses[i].at, CoPresent(uses, i, within)))
  }

  // The last use by somebody other than the latest user.
  ghost predicate LastOther(uses: seq<Use>, previous: Option<Use>)
    requires uses != []
  {
    var mac := uses[|uses| - 1].mac;
    match previous
    case None => forall j :: 0 <= j < |uses| ==> uses[j].mac == mac
    case Some(u) => exists j :: 0 <= j < |uses| && uses[j] == u && u.mac != mac
                                && forall k :: j < k < |uses| ==> uses[k].mac == mac
  }

  lemma UsersMore(uses: seq<Use>, k: nat, within: nat)
    requires 0 < k <= |uses|
    ensures UsersAfter(uses[..k], within)
         == Some(Displaced(UsersOr(UsersAfter(uses[..k - 1], within), uses[k - 1]), uses[k - 1], within))
  {
    assert uses[..k][..k - 1] == uses[..k - 1];
  }

  // The entry holds the latest use, the last use by anybody else, and the last
  // alert of the uses taken as trials.
  lemma {:induction false} UsersRemember(uses: seq<Use>, k: nat, within: nat)
    requires k <= |uses|
    ensures var users := UsersAfter(uses[..k], within);
            && (users.Some? <==> k > 0)
            && LastAlert(Trials(uses, within)[..k], CONFLICT_COOLDOWN) == (if users.Some? then users.value.lastAlert else None)
            && (k > 0 ==> users.value.latest == uses[k - 1] && LastOther(uses[..k], users.value.previous))
  {
    if k > 0 {
      UsersRemember(uses, k - 1, within);
      UsersMore(uses, k, within);
      var trials := Trials(uses, within);
      assert trials[..k][..k - 1] == trials[..k - 1] && trials[..k][k - 1] == trials[k - 1];
      if k > 1 {
        LastOtherMore(uses, k, UsersAfter(uses[..k - 1], within).value.previous);
      }
    }
  }

  lemma LastOtherMore(uses: seq<Use>, k: nat, previous: Option<Use>)
    requires 1 < k <= |uses| && LastOther(uses[..k - 1], previous)
    ensures LastOther(uses[..k], if uses[k - 1].mac == uses[k - 2].mac then previous else Some(uses[k - 2]))
  {
    var before, now := uses[..k - 1], uses[..k];
    assert now[k - 2] == uses[k - 2];
    if uses[k - 1].mac == uses[k - 2].mac && previous.Some? {
      var j :| 0 <= j < |before| && before[j] == previous.value && previous.value.mac != before[k - 2].mac
               && forall i :: j < i < |before| ==> before[i].mac == before[k - 2].mac;
      assert now[j] == previous.value;
      assert forall i :: j < i < |now| ==> now[i] == (if i < k - 1 then before[i] else uses[k - 1]);
    }
  }

  lemma ConflictIsTrial(uses: seq<Use>, i: nat, within: nat)
    requires i < |uses|
    ensures ConflictAt(uses, i, within) <==> Alerts(Trials(uses, within), i, CONFLICT_COOLDOWN)
  {
    hide LastOther, UsersAfter, LastAlert;
    UsersRemember(uses, i, within);
    assert Trials(uses, within)[i] == Trial(uses[i].at, CoPresent(uses, i, within));
  }

  // A use raises an alert exactly when the use just before it was somebody
  // else's, inside the window, and no alert about the address is less than the
  // cooldown old.
  lemma ConflictsExactlyWhen(uses: seq<Use>, i: nat, within: nat)
    requires i < |uses| && UsesInOrder(uses)
    ensures ConflictAt(uses, i, within) <==>
              && CoPresent(uses, i, within)
              && forall j :: 0 <= j < i && ConflictAt(uses, j, within) ==> uses[i].at - uses[j].at >= CONFLICT_COOLDOWN
  {
    hide ConflictAt, Alerts, CoPresent;
    var trials := Trials(uses, within);
    AlertsExactlyWhen(trials, i, CONFLICT_COOLDOWN);
    ConflictIsTrial(uses, i, within);
    forall j | 0 <= j < i
      ensures ConflictAt(uses, j, within) <==> Alerts(trials, j, CONFLICT_COOLDOWN)
    {
      ConflictIsTrial(uses, j, within);
    }
  }

  // ---------- the table ----------

  // The address a frame uses.  The gateway answering for somebody else is not
  // using it.
  function UseOf(b: Belief, obs: Observation): Option<(Ipv4, Use)> {
    if obs.ip.None? || obs.ip.value.V6? || !IsHostV4(obs.ip.value.v4) || ProxyArpFor(b, obs).Some? then None
    else Some((obs.ip.value.v4, Use(obs.mac, obs.observedAt)))
  }

  // ---------- the uses, told from the frames ----------

  // A frame with an IPv4 host address uses it, unless it is the gateway
  // answering for somebody else.
  ghost predicate Uses(s: Sighting, a: Ipv4) {
    && s.obs.ip == Some(V4(a))
    && a != 0 && a != 0xFFFF_FFFF && !(0xE000_0000 <= a < 0xF000_0000)
    && forall other: Ipv4 :: !Proxies(s, other)
  }

  function UseIn(s: Sighting): Use {
    Use(s.obs.mac, s.obs.observedAt)
  }

  function UsesIn(frames: seq<Sighting>): seq<Use> {
    seq(|frames|, i requires 0 <= i < |frames| => UseIn(frames[i]))
  }

  // A frame's use is what its fields say.
  lemma UseRead(s: Sighting, a: Ipv4)
    ensures Uses(s, a) <==> UseOf(s.belief, s.obs) == Some((a, UseIn(s)))
    ensures UseOf(s.belief, s.obs).Some? ==> Uses(s, UseOf(s.belief, s.obs).value.0)
  {
    ProxyArpExactly(s);
    hide Proxies;
    assert ProxyArpFor(s.belief, s.obs).Some? ==> Proxies(s, ProxyArpFor(s.belief, s.obs).value);
  }

  predicate ConflictSeen(frames: seq<Sighting>, i: nat, within: nat)
    requires i < |frames|
  {
    ConflictAt(UsesIn(frames), i, within)
  }

  // Of the frames using an address, one raises an alert exactly when the frame
  // before it was another device's, no further back than the window, and no
  // alert about the address is less than ten minutes old.
  lemma ConflictsByFrames(frames: seq<Sighting>, i: nat, within: nat)
    requires i < |frames|
    requires forall j, k :: 0 <= j < k < |frames| ==> frames[j].obs.observedAt <= frames[k].obs.observedAt
    ensures ConflictSeen(frames, i, within) <==>
              && i > 0 && frames[i - 1].obs.mac != frames[i].obs.mac
              && frames[i].obs.observedAt - frames[i - 1].obs.observedAt <= within
              && forall j :: 0 <= j < i && ConflictSeen(frames, j, within) ==>
                   frames[i].obs.observedAt - frames[j].obs.observedAt >= 600 * SECOND
  {
    hide ConflictAt;
    ConflictsExactlyWhen(UsesIn(frames), i, within);
  }

  function UsersOf(addresses: map<Ipv4, (Users, int)>, a: Ipv4): Option<Users> {
    if a in addresses then Some(addresses[a].0) else None
  }

  function ConflictTable(addresses: map<Ipv4, (Users, int)>, capacity: nat, within: nat, b: Belief, obs: Observation, victim: Ipv4)
    : map<Ipv4, (Users, int)>
  {
    var used := UseOf(b, obs);
    if used.None? then addresses
    else
      var (a, u) := used.value;
      Inserted(addresses, capacity, a, Displaced(UsersOr(UsersOf(addresses, a), u), u, within), u.at, victim)
  }

  function ConflictAlerts(addresses: map<Ipv4, (Users, int)>, within: nat, b: Belief, obs: Observation): seq<Alert> {
    var used := UseOf(b, obs);
    if used.None? then []
    else
      var (a, u) := used.value;
      var users := UsersOr(UsersOf(addresses, a), u);
      if Collides(users, u, within) then [ConflictAlert(u.mac, u.at, a, users.latest.mac)] else []
  }

  // Each entry kept is the one its address's uses lead to.
  ghost predicate Tallied(addresses: map<Ipv4, (Users, int)>, log: map<Ipv4, seq<Sighting>>, within: nat) {
    forall a: Ipv4 :: a in addresses ==> a in log && Some(addresses[a].0) == UsersAfter(UsesIn(log[a]), within)
  }

  // The frames using an address since it was last taken on.
  ghost function Logged(addresses: map<Ipv4, (Users, int)>, log: map<Ipv4, seq<Sighting>>, a: Ipv4): seq<Sighting> {
    if a in addresses && a in log then log[a] else []
  }

  lemma TalliedMore(addresses: map<Ipv4, (Users, int)>, reached: map<Ipv4, (Users, int)>, log: map<Ipv4, seq<Sighting>>,
                    a: Ipv4, users: Users, frames: seq<Sighting>, within: nat)
    requires Tallied(addresses, log, within) && OthersKept(addresses, reached, a)
    requires Some(users) == UsersAfter(UsesIn(frames), within)
    ensures Tallied(reached[a := (users, reached[a].1)], log[a := frames], within)
  {
    hide UsersAfter, UsesIn;
  }

  lemma FramesMore(frames: seq<Sighting>, s: Sighting, within: nat)
    ensures var u, before := UseIn(s), UsersAfter(UsesIn(frames), within);
            && UsersAfter(UsesIn(frames + [s]), within) == Some(Displaced(UsersOr(before, u), u, within))
            && ConflictSeen(frames + [s], |frames|, within) == Collides(UsersOr(before, u), u, within)
            && (before.Some? <==> frames != [])
            && (before.Some? ==> before.value.latest.mac == frames[|frames| - 1].obs.mac)
    ensures UsersAfter(UsesIn([]), within) == None
  {
    hide Collides;
    assert UsesIn(frames + [s]) == UsesIn(frames) + [UseIn(s)];
    UsesMore(UsesIn(frames), UseIn(s), within);
    UsersRemember(UsesIn(frames), |frames|, within);
    assert UsesIn(frames)[..|frames|] == UsesIn(frames);
  }

  lemma UsesMore(uses: seq<Use>, u: Use, within: nat)
    ensures UsersAfter(uses + [u], within) == Some(Displaced(UsersOr(UsersAfter(uses, within), u), u, within))
    ensures ConflictAt(uses + [u], |uses|, within) == Collides(UsersOr(UsersAfter(uses, within), u), u, within)
    ensures UsersAfter([], within) == None
  {
    assert (uses + [u])[..|uses|] == uses;
  }

  class IpConflict {
    const within: nat
    const addresses: BoundedMap<Ipv4, Users>
    // The frames using each address held, since it was last taken on.
    ghost var log: map<Ipv4, seq<Sighting>>

    ghost predicate Valid()
      reads this, addresses
    {
      addresses.Valid() && Tallied(addresses.entries, log, within)
    }

    constructor (within: nat, maxTracked: nat)
      ensures Valid() && this.within == within && fresh(addresses) && addresses.entries == map[]
      ensures addresses.capacity == if maxTracked >= 1 then maxTracked else 1
    {
      this.within := within;
      this.addresses := new BoundedMap(maxTracked);
      this.log := map[];
    }

    // A frame that uses an address joins its log, and an alert is raised exactly
    // when the log says so, naming the device that used the address before.
    method Analyze(obs: Observation, belief: Belief) returns (alerts: seq<Alert>, ghost victim: Ipv4)
      requires Valid()
      modifies this, addresses
      ensures Valid()
      ensures addresses.entries == ConflictTable(old(addresses.entries), addresses.capacity, within, belief, obs, victim)
      ensures alerts == ConflictAlerts(old(addresses.entries), within, belief, obs)
      ensures (forall a: Ipv4 :: !Uses(Sighting(obs, belief), a)) ==> alerts == [] && log == old(log)
      ensures forall a: Ipv4 :: Uses(Sighting(obs, belief), a) ==>
                var before := Logged(old(addresses.entries), old(log), a);
                && log == old(log)[a := before + [Sighting(obs, belief)]]
                && (alerts != [] <==> ConflictSeen(log[a], |before|, within))
                && (alerts != [] ==> before != [] && alerts == [ConflictAlert(obs.mac, obs.observedAt, a, before[|before| - 1].obs.mac)])
    {
      hide IsHostV4, ProxyArpFor, UsersAfter, Inserted, Reached, Oldest, NeedsRoom, OthersKept, Stamps, After, FairTrace,
           ConflictSeen, Uses, UsesIn, Proxies;
      victim := 0;
      alerts := [];
      var used := UseOf(belief, obs);
      ghost var s := Sighting(obs, belief);
      forall a: Ipv4
        ensures Uses(s, a) ==> used == Some((a, UseIn(s)))
        ensures used.Some? ==> Uses(s, used.value.0)
      {
        UseRead(s, a);
      }
      if used.None? {
        return;
      }
      var (a, u) := used.value;
      ghost var before, entries := Logged(addresses.entries, log, a), addresses.entries;
      FramesMore(before, s, within);
      var users;
      users, victim := addresses.EntryOrInsertWith(a, u.at, FirstUse(u));
      ReachedKeepsOthers(entries, addresses.capacity, a, FirstUse(u), u.at, victim);
      ghost var was, reached := users, addresses.entries;
      assert was == UsersOr(UsersOf(entries, a), u);
      if users.latest.mac == u.mac {
        users := users.(latest := u);
      } else {
        var displaced := users.latest;
        users := Users(u, Some(displaced), users.lastAlert);
        if 0 <= u.at - displaced.at <= within {
          if CooledDown(users.lastAlert, u.at, CONFLICT_COOLDOWN) {
            users := users.(lastAlert := Some(u.at));
            alerts := [ConflictAlert(u.mac, u.at, a, displaced.mac)];
          }
        }
      }
      assert users == Displaced(was, u, within);
      ReachedThenUpdated(entries, addresses.capacity, a, FirstUse(u), users, u.at, victim);
      addresses.Update(a, users);
      TalliedMore(entries, reached, log, a, users, before + [s], within);
      log := log[a := before + [s]];
    }
  }
}
