/** The analyzers in a row, reading one shared belief about the gateway. */
module Chains {
  import opened Options
  import opened Types
  import opened Windows
  import opened SlidingWindows
  import opened Gateway
  import opened Analysis
  import Scans = ArpScanning
  import Spoofs = ArpSpoofing
  import Conflicts = IpConflicts
  import Floods = GratuitousArps

  // Which analyzers were built, and with what.
  datatype Config = Config(
    scan: Option<Scans.Limits>,
    spoofGrace: Option<nat>,
    conflictWithin: Option<nat>,
    flood: Option<(nat, nat)>,
    capacity: nat,
    exempt: set<Mac>)

  // Everything the chain remembers.
  datatype World = World(
    belief: Belief,
    scans: map<Mac, (Scans.ScanState, int)>,
    holders: map<Ipv4, (Spoofs.Holder, int)>,
    addresses: map<Ipv4, (Conflicts.Users, int)>,
    floods: map<Mac, (Floods.FloodState, int)>)

  // Which entry each bounded map gives up, should it have to: among equally old
  // ones that is the map's iteration order.
  datatype Victims = Victims(scan: Mac, holder: Ipv4, address: Ipv4, flood: Mac)

  datatype Input = Input(obs: Observation, victims: Victims)

  // The tracker learns first; every analyzer reads what it now believes.
  function Next(c: Config, w: World, i: Input): World {
    var b := Believed(w.belief, i.obs);
    World(
      b,
      if c.scan.Some? then Scans.ScanTable(w.scans, c.capacity, c.scan.value, b, i.obs, i.victims.scan) else w.scans,
      if c.spoofGrace.Some? then Spoofs.SpoofTable(w.holders, c.capacity, c.spoofGrace.value, b, i.obs, i.victims.holder)
      else w.holders,
      if c.conflictWithin.Some?
      then Conflicts.ConflictTable(w.addresses, c.capacity, c.conflictWithin.value, b, i.obs, i.victims.address)
      else w.addresses,
      if c.flood.Some?
      then Floods.FloodTable(w.floods, c.capacity, c.flood.value.0, c.flood.value.1, i.obs, i.victims.flood)
      else w.floods)
  }

  function ScanPart(c: Config, w: World, b: Belief, obs: Observation): seq<Alert> {
    if c.scan.Some? then Scans.ScanAlerts(w.scans, c.scan.value, b, obs) else []
  }

  function SpoofPart(c: Config, w: World, b: Belief, obs: Observation): seq<Alert> {
    if c.spoofGrace.Some? then Spoofs.SpoofAlerts(w.holders, c.spoofGrace.value, b, obs) else []
  }

  function ConflictPart(c: Config, w: World, b: Belief, obs: Observation): seq<Alert> {
    if c.conflictWithin.Some? then Conflicts.ConflictAlerts(w.addresses, c.conflictWithin.value, b, obs) else []
  }

  function FloodPart(c: Config, w: World, obs: Observation): seq<Alert> {
    if c.flood.Some? then Floods.FloodAlerts(w.floods, c.flood.value.0, c.flood.value.1, obs) else []
  }

  function NotExempt(alerts: seq<Alert>, exempt: set<Mac>): seq<Alert> {
    if alerts == [] then []
    else (if alerts[0].mac in exempt then [] else [alerts[0]]) + NotExempt(alerts[1..], exempt)
  }

  function Found(c: Config, w: World, obs: Observation): seq<Alert> {
    var b := Believed(w.belief, obs);
    ScanPart(c, w, b, obs) + SpoofPart(c, w, b, obs) + ConflictPart(c, w, b, obs) + FloodPart(c, w, obs)
  }

  // ---------- runs ----------

  function End(c: Config, w: World, inputs: seq<Input>): World
    decreases inputs
  {
    if inputs == [] then w else End(c, Next(c, w, inputs[0]), inputs[1..])
  }

  function Raised(c: Config, w: World, inputs: seq<Input>): seq<Alert>
    decreases inputs
  {
    if inputs == [] then []
    else NotExempt(Found(c, w, inputs[0].obs), c.exempt) + Raised(c, Next(c, w, inputs[0]), inputs[1..])
  }

  // ---------- proxy ARP ----------

  // The frame is recognised as the gateway answering for somebody else.
  predicate Recognised(w: World, obs: Observation) {
    ProxyArpFor(Believed(w.belief, obs), obs).Some?
  }

  // The run with every recognised frame taken out.
  function Without(c: Config, w: World, inputs: seq<Input>): seq<Input>
    decreases inputs
  {
    if inputs == [] then []
    else
      var rest := Without(c, Next(c, w, inputs[0]), inputs[1..]);
      if Recognised(w, inputs[0].obs) then rest else [inputs[0]] + rest
  }

  // The two differ at most in the report, and in what the flood analyzer holds.
  ghost predicate Alike(v: World, w: World) {
    Core(v.belief) == Core(w.belief) && v.scans == w.scans && v.holders == w.holders && v.addresses == w.addresses
  }

  // The alerts that are not about floods.
  function NotFloods(alerts: seq<Alert>): seq<Alert> {
    if alerts == [] then []
    else (if alerts[0].FloodAlert? then [] else [alerts[0]]) + NotFloods(alerts[1..])
  }

  lemma {:induction false} NotFloodsApart(a: seq<Alert>, b: seq<Alert>)
    ensures NotFloods(a + b) == NotFloods(a) + NotFloods(b)
  {
    if a == [] {
      assert a + b == b;
    } else {
      NotFloodsApart(a[1..], b);
      assert (a + b)[0] == a[0] && (a + b)[1..] == a[1..] + b;
      var head := if a[0].FloodAlert? then [] else [a[0]];
      assert head + (NotFloods(a[1..]) + NotFloods(b)) == (head + NotFloods(a[1..])) + NotFloods(b);
    }
  }

  lemma {:induction false} NotExemptApart(a: seq<Alert>, b: seq<Alert>, exempt: set<Mac>)
    ensures NotExempt(a + b, exempt) == NotExempt(a, exempt) + NotExempt(b, exempt)
  {
    if a == [] {
      assert a + b == b;
    } else {
      NotExemptApart(a[1..], b, exempt);
      assert (a + b)[0] == a[0] && (a + b)[1..] == a[1..] + b;
      var head := if a[0].mac in exempt then [] else [a[0]];
      assert head + (NotExempt(a[1..], exempt) + NotExempt(b, exempt))
          == (head + NotExempt(a[1..], exempt)) + NotExempt(b, exempt);
    }
  }

  // Nothing an analyzer asks of the belief depends on the report.
  lemma PartsReadCore(c: Config, v: World, w: World, b: Belief, d: Belief, obs: Observation)
    requires Alike(v, w) && Core(b) == Core(d)
    ensures ScanPart(c, v, b, obs) == ScanPart(c, w, d, obs)
    ensures SpoofPart(c, v, b, obs) == SpoofPart(c, w, d, obs)
    ensures ConflictPart(c, v, b, obs) == ConflictPart(c, w, d, obs)
  {
    ViewsReadCore(c, b, d, obs);
    hide Spoofs.ClaimOf, Conflicts.UseOf, Scans.AskedBy, Spoofs.Spoofs, Conflicts.Collides, Scans.ScanStep;
  }

  lemma ViewsReadCore(c: Config, b: Belief, d: Belief, obs: Observation)
    requires Core(b) == Core(d)
    ensures Spoofs.ClaimOf(b, obs) == Spoofs.ClaimOf(d, obs)
    ensures Conflicts.UseOf(b, obs) == Conflicts.UseOf(d, obs)
    ensures c.scan.Some? ==> Scans.AskedBy(c.scan.value, b, obs) == Scans.AskedBy(c.scan.value, d, obs)
  {
    hide IsHostV4;
    assert b.ip == d.ip && b.mac == d.mac && b.proxyArp == d.proxyArp;
  }

  lemma BelievedReadsCore(v: World, w: World, obs: Observation)
    requires Alike(v, w)
    ensures Core(Believed(v.belief, obs)) == Core(Believed(w.belief, obs))
    ensures Recognised(v, obs) == Recognised(w, obs)
  {
    hide Believed, ProxyArpFor;
    ReportNeverRead(v.belief, obs);
    ReportNeverRead(w.belief, obs);
  }

  // The same frame keeps two such worlds alike.
  lemma NextAlike(c: Config, v: World, w: World, i: Input)
    requires Alike(v, w)
    ensures Alike(Next(c, v, i), Next(c, w, i))
  {
    hide Believed, Spoofs.ClaimOf, Conflicts.UseOf, Scans.AskedBy, Spoofs.Succeeded, Conflicts.Displaced, Scans.ScanStep,
         Inserted;
    BelievedReadsCore(v, w, i.obs);
    ViewsReadCore(c, Believed(v.belief, i.obs), Believed(w.belief, i.obs), i.obs);
  }

  // A recognised frame leaves a world like the one before it, and raises nothing
  // but what the flood analyzer makes of it.
  lemma RecognisedTeachesNothing(c: Config, w: World, i: Input)
    requires Coherent(i.obs) && Recognised(w, i.obs)
    ensures Alike(Next(c, w, i), w)
    ensures var b := Believed(w.belief, i.obs);
            ScanPart(c, w, b, i.obs) == [] && SpoofPart(c, w, b, i.obs) == [] && ConflictPart(c, w, b, i.obs) == []
  {
    hide Believed, Spoofs.Spoofs, Conflicts.Collides, Scans.ScanStep, Inserted;
    ProxyFrameTeachesNothing(w.belief, i.obs);
  }

  lemma FloodPartIsFloods(c: Config, w: World, obs: Observation)
    ensures NotFloods(NotExempt(FloodPart(c, w, obs), c.exempt)) == []
  {
    hide Floods.FloodStep;
  }

  lemma RaisedByOne(c: Config, w: World, obs: Observation)
    ensures var b := Believed(w.belief, obs);
            NotFloods(NotExempt(Found(c, w, obs), c.exempt)) ==
            NotFloods(NotExempt(ScanPart(c, w, b, obs) + SpoofPart(c, w, b, obs) + ConflictPart(c, w, b, obs), c.exempt))
  {
    hide Believed, ScanPart, SpoofPart, ConflictPart, FloodPart, NotExempt, NotFloods;
    var b := Believed(w.belief, obs);
    var others := ScanPart(c, w, b, obs) + SpoofPart(c, w, b, obs) + ConflictPart(c, w, b, obs);
    var floods := FloodPart(c, w, obs);
    NotExemptApart(others, floods, c.exempt);
    NotFloodsApart(NotExempt(others, c.exempt), NotExempt(floods, c.exempt));
    FloodPartIsFloods(c, w, obs);
  }

  // What a run keeps and raises, one input at a time.
  lemma RunUnfolds(c: Config, w: World, i: Input, rest: seq<Input>)
    ensures End(c, w, [i] + rest) == End(c, Next(c, w, i), rest)
    ensures NotFloods(Raised(c, w, [i] + rest))
         == NotFloods(NotExempt(Found(c, w, i.obs), c.exempt)) + NotFloods(Raised(c, Next(c, w, i), rest))
  {
    hide Next, Found, NotExempt, NotFloods;
    var inputs := [i] + rest;
    assert inputs[0] == i && inputs[1..] == rest;
    NotFloodsApart(NotExempt(Found(c, w, i.obs), c.exempt), Raised(c, Next(c, w, i), rest));
  }

  lemma FoundAlike(c: Config, v: World, w: World, obs: Observation)
    requires Alike(v, w)
    ensures NotFloods(NotExempt(Found(c, v, obs), c.exempt)) == NotFloods(NotExempt(Found(c, w, obs), c.exempt))
  {
    hide Believed, ScanPart, SpoofPart, ConflictPart, Found, NotExempt, NotFloods, Core;
    BelievedReadsCore(v, w, obs);
    PartsReadCore(c, v, w, Believed(v.belief, obs), Believed(w.belief, obs), obs);
    RaisedByOne(c, v, obs);
    RaisedByOne(c, w, obs);
  }

  // Taking every recognised frame out of a run changes neither the belief, nor
  // any scan, spoof or conflict state, nor any of their alerts: only the report
  // of proxied addresses, and the flood analyzer, can tell.
  lemma {:induction false} ProxyArpIsInvisible(c: Config, v: World, w: World, inputs: seq<Input>)
    requires Alike(v, w) && forall i :: i in inputs ==> Coherent(i.obs)
    ensures Alike(End(c, v, inputs), End(c, w, Without(c, v, inputs)))
    ensures NotFloods(Raised(c, v, inputs)) == NotFloods(Raised(c, w, Without(c, v, inputs)))
    decreases inputs
  {
    if inputs != [] {
      hide NotExempt, NotFloods, Next, Recognised, Coherent, Alike, Found, End, Raised;
      var i, rest := inputs[0], inputs[1..];
      var v1, w1 := Next(c, v, i), Next(c, w, i);
      assert inputs == [i] + rest;
      RunUnfolds(c, v, i, rest);
      if Recognised(v, i.obs) {
        RecognisedTeachesNothing(c, v, i);
        AlikeTransits(v1, v, w);
        NothingRaised(c, v, i.obs);
        ProxyArpIsInvisible(c, v1, w, rest);
      } else {
        NextAlike(c, v, w, i);
        FoundAlike(c, v, w, i.obs);
        RunUnfolds(c, w, i, Without(c, v1, rest));
        ProxyArpIsInvisible(c, v1, w1, rest);
      }
    }
  }

  lemma NothingRaised(c: Config, w: World, obs: Observation)
    requires var b := Believed(w.belief, obs);
             ScanPart(c, w, b, obs) == [] && SpoofPart(c, w, b, obs) == [] && ConflictPart(c, w, b, obs) == []
    ensures NotFloods(NotExempt(Found(c, w, obs), c.exempt)) == []
  {
    hide Believed, ScanPart, SpoofPart, ConflictPart, FloodPart, Found;
    RaisedByOne(c, w, obs);
  }

  lemma AlikeTransits(u: World, v: World, w: World)
    requires Alike(u, v) && Alike(v, w)
    ensures Alike(u, w)
  {}

  // The sender's state is already what the frame would make it.
  predicate AlreadyCounted(floods: map<Mac, (Floods.FloodState, int)>, window: nat, threshold: nat, obs: Observation) {
    && obs.mac in floods
    && floods[obs.mac].1 == obs.observedAt
    && var v := Floods.FloodStep(floods[obs.mac].0, obs.observedAt, window, threshold);
       if v.alert.Some? then floods[obs.mac].0 == Floods.FloodState([], Some(obs.observedAt))
       else window > LONGEST_SPAN || FullOf(floods[obs.mac].0.announcements, Floods.FLOOD_CAPACITY, obs.observedAt)
  }

  // The flood analyzer's table changes at a frame, recognised or not, exactly
  // when the frame is gratuitous and not already counted at this very moment.
  lemma FloodsSeeOnlyGratuitous(c: Config, w: World, i: Input)
    requires c.flood.Some?
    ensures var (window, threshold) := c.flood.value;
            Next(c, w, i).floods == w.floods <==>
              !Floods.Announces(i.obs) || AlreadyCounted(w.floods, window, threshold, i.obs)
    ensures !Floods.Announces(i.obs) ==> FloodPart(c, w, i.obs) == []
  {
    hide Believed, Floods.FloodStep, FullOf, Floods.Announces, Scans.ScanTable, Spoofs.SpoofTable, Conflicts.ConflictTable;
    var (window, threshold) := c.flood.value;
    var mac, at := i.obs.mac, i.obs.observedAt;
    var state := Floods.StateOf(w.floods, mac);
    Floods.StepChangesNothing(state, at, window, threshold);
    InsertingNothing(w.floods, c.capacity, mac, Floods.FloodStep(state, at, window, threshold).state, at, i.victims.flood);
  }

  lemma InsertingNothing<V>(m: map<Mac, (V, int)>, capacity: nat, key: Mac, value: V, now: int, victim: Mac)
    ensures Inserted(m, capacity, key, value, now, victim) == m <==> key in m && m[key] == (value, now)
  {
    var after := Inserted(m, capacity, key, value, now, victim);
    assert key in after && after[key] == (value, now);
    if key in m && m[key] == (value, now) {
      assert after == m;
    }
  }

  // The run with every recognised frame taken out that is not gratuitous.
  function WithoutQuiet(c: Config, w: World, inputs: seq<Input>): seq<Input>
    decreases inputs
  {
    if inputs == [] then []
    else
      var rest := WithoutQuiet(c, Next(c, w, inputs[0]), inputs[1..]);
      if Recognised(w, inputs[0].obs) && !Floods.Announces(inputs[0].obs) then rest else [inputs[0]] + rest
  }

  ghost predicate AlikeAll(v: World, w: World) {
    Alike(v, w) && v.floods == w.floods
  }

  lemma FoundAlikeAll(c: Config, v: World, w: World, obs: Observation)
    requires AlikeAll(v, w)
    ensures Found(c, v, obs) == Found(c, w, obs)
  {
    hide Believed, ScanPart, SpoofPart, ConflictPart, Core;
    BelievedReadsCore(v, w, obs);
    PartsReadCore(c, v, w, Believed(v.belief, obs), Believed(w.belief, obs), obs);
  }

  lemma QuietTeachesNothing(c: Config, w: World, i: Input)
    requires Coherent(i.obs) && Recognised(w, i.obs) && !Floods.Announces(i.obs)
    ensures AlikeAll(Next(c, w, i), w) && Found(c, w, i.obs) == []
  {
    hide Believed, Recognised, Coherent, ScanPart, SpoofPart, ConflictPart, Alike, Floods.Announces,
         Scans.ScanTable, Spoofs.SpoofTable, Conflicts.ConflictTable;
    RecognisedTeachesNothing(c, w, i);
  }

  lemma NextAlikeAll(c: Config, v: World, w: World, i: Input)
    requires AlikeAll(v, w)
    ensures AlikeAll(Next(c, v, i), Next(c, w, i))
  {
    NextAlike(c, v, w, i);
    hide Believed, Alike, Floods.FloodTable, Scans.ScanTable, Spoofs.SpoofTable, Conflicts.ConflictTable;
  }

  // Taking those frames out of a run changes nothing but the report of proxied
  // addresses: belief, every analyzer's table and every alert, of floods too,
  // stay the same.
  lemma {:induction false} QuietProxyArpIsInvisible(c: Config, v: World, w: World, inputs: seq<Input>)
    requires AlikeAll(v, w) && forall i :: i in inputs ==> Coherent(i.obs)
    ensures AlikeAll(End(c, v, inputs), End(c, w, WithoutQuiet(c, v, inputs)))
    ensures Raised(c, v, inputs) == Raised(c, w, WithoutQuiet(c, v, inputs))
    decreases inputs
  {
    if inputs != [] {
      hide NotExempt, Next, Recognised, Coherent, Alike, Found, Floods.Announces;
      var i, rest := inputs[0], inputs[1..];
      var v1, w1 := Next(c, v, i), Next(c, w, i);
      if Recognised(v, i.obs) && !Floods.Announces(i.obs) {
        QuietTeachesNothing(c, v, i);
        AlikeAllTransits(v1, v, w);
        QuietProxyArpIsInvisible(c, v1, w, rest);
        NothingKept(c.exempt);
      } else {
        NextAlikeAll(c, v, w, i);
        FoundAlikeAll(c, v, w, i.obs);
        QuietProxyArpIsInvisible(c, v1, w1, rest);
        var out := [i] + WithoutQuiet(c, v1, rest);
        assert out[0] == i && out[1..] == WithoutQuiet(c, v1, rest);
      }
    }
  }

  lemma AlikeAllTransits(u: World, v: World, w: World)
    requires AlikeAll(u, v) && AlikeAll(v, w)
    ensures AlikeAll(u, w)
  {}

  lemma NothingKept(exempt: set<Mac>)
    ensures NotExempt([], exempt) == []
  {}

  // A gratuitous reply by a configured gateway, on behalf of somebody else, can
  // raise an alert.
  lemma GratuitousProxyIsCounted(at: int, window: nat)
    requires window <= LONGEST_SPAN
    ensures var gateway, address, proxied := 0x0200_0000_0001, 0x0A00_0001, 0x0A00_0005;
            var c := Config(None, None, None, Some((window, 1)), 1, {});
            var w := World(Initial(Some(address), Some(gateway), true), map[], map[], map[], map[]);
            var obs := Observation(gateway, Some(V4(proxied)), "", ReplyKind, [], [],
                                   Some(Arp(ArpDetail(Reply, gateway, Some(proxied), proxied, true))), at);
            && Coherent(obs)
            && Recognised(w, obs)
            && Found(c, w, obs) == [FloodAlert(gateway, at, 1, 1, Some(proxied))]
  {
    var gateway, address, proxied := 0x0200_0000_0001, 0x0A00_0001, 0x0A00_0005;
    var b := Initial(Some(address), Some(gateway), true);
    var obs := Observation(gateway, Some(V4(proxied)), "", ReplyKind, [], [],
                           Some(Arp(ArpDetail(Reply, gateway, Some(proxied), proxied, true))), at);
    assert AfterTraffic(AfterArp(AfterDhcp(b, obs), obs), obs) == b;
    assert ProxyArpFor(b, obs) == Some(proxied);
    assert RateRecorded([], Floods.FLOOD_CAPACITY, at, window) == [at];
    assert Floods.FloodStep(Floods.UNHEARD, at, window, 1).alert == Some(1);
  }

  // ---------- the chain ----------

  function AtLeastOne(n: nat): nat {
    if n >= 1 then n else 1
  }

  function Clamped(c: Config): Config {
    c.(scan := if c.scan.Some? then Some(Scans.Clamped(c.scan.value)) else None,
       flood := if c.flood.Some? then Some((c.flood.value.0, AtLeastOne(c.flood.value.1))) else None,
       capacity := AtLeastOne(c.capacity))
  }

  // A disabled analyzer is not built at all.
  method BuildScan(c: Config) returns (scan: Scans.ArpScan?, ghost repr: set<object>)
    ensures fresh(repr) && (scan == null <==> c.scan.None?)
    ensures scan != null ==>
              && repr == {scan, scan.tracked}
              && scan.Valid()
              && scan.limits == Scans.Clamped(c.scan.value)
              && scan.tracked.capacity == AtLeastOne(c.capacity)
              && scan.tracked.entries == map[]
  {
    scan, repr := null, {};
    if c.scan.Some? {
      scan := new Scans.ArpScan(c.scan.value.window, c.scan.value.threshold, c.scan.value.gatewayThreshold, c.capacity);
      repr := {scan, scan.tracked};
    }
  }

  method BuildSpoof(c: Config) returns (spoof: Spoofs.ArpSpoof?, ghost repr: set<object>)
    ensures fresh(repr) && (spoof == null <==> c.spoofGrace.None?)
    ensures spoof != null ==>
              && repr == {spoof, spoof.holders}
              && spoof.Valid()
              && spoof.grace == c.spoofGrace.value
              && spoof.holders.capacity == AtLeastOne(c.capacity)
              && spoof.holders.entries == map[]
  {
    spoof, repr := null, {};
    if c.spoofGrace.Some? {
      spoof := new Spoofs.ArpSpoof(c.spoofGrace.value, c.capacity);
      repr := {spoof, spoof.holders};
    }
  }

  method BuildConflict(c: Config) returns (conflict: Conflicts.IpConflict?, ghost repr: set<object>)
    ensures fresh(repr) && (conflict == null <==> c.conflictWithin.None?)
    ensures conflict != null ==>
              && repr == {conflict, conflict.addresses}
              && conflict.Valid()
              && conflict.within == c.conflictWithin.value
              && conflict.addresses.capacity == AtLeastOne(c.capacity)
              && conflict.addresses.entries == map[]
  {
    conflict, repr := null, {};
    if c.conflictWithin.Some? {
      conflict := new Conflicts.IpConflict(c.conflictWithin.value, c.capacity);
      repr := {conflict, conflict.addresses};
    }
  }

  method BuildFlood(c: Config) returns (flood: Floods.GratuitousArp?, ghost repr: set<object>)
    ensures fresh(repr) && (flood == null <==> c.flood.None?)
    ensures flood != null ==>
              && repr == {flood, flood.tracked}
              && flood.Valid()
              && flood.window == c.flood.value.0
              && flood.threshold == AtLeastOne(c.flood.value.1)
              && flood.tracked.capacity == AtLeastOne(c.capacity)
              && flood.tracked.entries == map[]
  {
    flood, repr := null, {};
    if c.flood.Some? {
      flood := new Floods.GratuitousArp(c.flood.value.0, c.flood.value.1, c.capacity);
      repr := {flood, flood.tracked};
    }
  }

  class Chain {
    const config: Config
    const enabled: bool
    const tracker: GatewayTracker
    ghost const scanRepr: set<object>
    const scan: Scans.ArpScan?
    ghost const spoofRepr: set<object>
    const spoof: Spoofs.ArpSpoof?
    ghost const conflictRepr: set<object>
    const conflict: Conflicts.IpConflict?
    ghost const floodRepr: set<object>
    const flood: Floods.GratuitousArp?

    ghost predicate ScanValid()
      reads scanRepr
    {
      && (config.scan.Some? <==> scan != null)
      && (scan != null ==> {scan, scan.tracked} <= scanRepr)
      && (scan != null ==> scan.Valid() && scan.limits == config.scan.value && scan.tracked.capacity == config.capacity)
    }

    ghost function ScanEntries(): map<Mac, (Scans.ScanState, int)>
      requires ScanValid()
      reads scanRepr
    {
      if scan != null then scan.tracked.entries else map[]
    }

    ghost predicate SpoofValid()
      reads spoofRepr
    {
      && (config.spoofGrace.Some? <==> spoof != null)
      && (spoof != null ==> {spoof, spoof.holders} <= spoofRepr)
      && (spoof != null ==> spoof.Valid() && spoof.grace == config.spoofGrace.value && spoof.holders.capacity == config.capacity)
    }

    ghost function SpoofEntries(): map<Ipv4, (Spoofs.Holder, int)>
      requires SpoofValid()
      reads spoofRepr
    {
      if spoof != null then spoof.holders.entries else map[]
    }

    ghost predicate ConflictValid()
      reads conflictRepr
    {
      && (config.conflictWithin.Some? <==> conflict != null)
      && (conflict != null ==> {conflict, conflict.addresses} <= conflictRepr)
      && (conflict != null ==>
            conflict.Valid() && conflict.within == config.conflictWithin.value && conflict.addresses.capacity == config.capacity)
    }

    ghost function ConflictEntries(): map<Ipv4, (Conflicts.Users, int)>
      requires ConflictValid()
      reads conflictRepr
    {
      if conflict != null then conflict.addresses.entries else map[]
    }

    ghost predicate FloodValid()
      reads floodRepr
    {
      && (config.flood.Some? <==> flood != null)
      && (flood != null ==> {flood, flood.tracked} <= floodRepr)
      && (flood != null ==>
            flood.Valid() && (flood.window, flood.threshold) == config.flood.value && flood.tracked.capacity == config.capacity)
    }

    ghost function FloodEntries(): map<Mac, (Floods.FloodState, int)>
      requires FloodValid()
      reads floodRepr
    {
      if flood != null then flood.tracked.entries else map[]
    }

    ghost function Repr(): set<object> {
      {tracker} + scanRepr + spoofRepr + conflictRepr + floodRepr
    }

    // No analyzer shares its memory with another.
    ghost predicate Apart() {
      && tracker !in scanRepr + spoofRepr + conflictRepr + floodRepr
      && scanRepr !! spoofRepr !! conflictRepr !! floodRepr
    }

    ghost predicate Valid()
      reads Repr()
    {
      Apart() && tracker.Valid() && ScanValid() && SpoofValid() && ConflictValid() && FloodValid()
    }

    ghost function Now(): World
      requires Valid()
      reads Repr()
    {
      World(tracker.Now(), ScanEntries(), SpoofEntries(), ConflictEntries(), FloodEntries())
    }

    constructor (c: Config, ip: Option<Ipv4>, mac: Option<Mac>, proxyArp: bool, enabled: bool)
      ensures Valid() && fresh(Repr()) && config == Clamped(c) && this.enabled == enabled
      ensures Now() == World(Initial(ip, mac, proxyArp), map[], map[], map[], map[])
    {
      hide Scans.Clamped, BeliefAfter, Sensible, Stamps, After, FairTrace, Scans.Tallied, Spoofs.Tallied, Conflicts.Tallied,
           Floods.Tallied;
      hide Scans.ArpScan.Valid, Spoofs.ArpSpoof.Valid, Conflicts.IpConflict.Valid, Floods.GratuitousArp.Valid, BoundedMap.Valid,
           GatewayTracker.Valid, GatewayTracker.Now;
      this.config := Clamped(c);
      this.enabled := enabled;
      this.tracker := new GatewayTracker(ip, mac, proxyArp);
      var scan, scanRepr := BuildScan(c);
      var spoof, spoofRepr := BuildSpoof(c);
      var conflict, conflictRepr := BuildConflict(c);
      var flood, floodRepr := BuildFlood(c);
      this.scan, this.spoof, this.conflict, this.flood := scan, spoof, conflict, flood;
      this.scanRepr, this.spoofRepr, this.conflictRepr, this.floodRepr := scanRepr, spoofRepr, conflictRepr, floodRepr;
    }

    method RunScan(obs: Observation, belief: Belief) returns (alerts: seq<Alert>, ghost victim: Mac)
      requires ScanValid()
      modifies scanRepr
      ensures ScanValid()
      ensures ScanEntries() == if config.scan.Some?
                    then Scans.ScanTable(old(ScanEntries()), config.capacity, config.scan.value, belief, obs, victim)
                    else old(ScanEntries())
      ensures alerts == if config.scan.Some?
                        then Scans.ScanAlerts(old(ScanEntries()), config.scan.value, belief, obs)
                        else []
    {
      if scan == null {
        return [], 0;
      }
      alerts, victim := scan.Analyze(obs, belief);
    }

    method RunSpoof(obs: Observation, belief: Belief) returns (alerts: seq<Alert>, ghost victim: Ipv4)
      requires SpoofValid()
      modifies spoofRepr
      ensures SpoofValid()
      ensures SpoofEntries() == if config.spoofGrace.Some?
                     then Spoofs.SpoofTable(old(SpoofEntries()), config.capacity, config.spoofGrace.value, belief, obs, victim)
                     else old(SpoofEntries())
      ensures alerts == if config.spoofGrace.Some?
                        then Spoofs.SpoofAlerts(old(SpoofEntries()), config.spoofGrace.value, belief, obs)
                        else []
    {
      if spoof == null {
        return [], 0;
      }
      alerts, victim := spoof.Analyze(obs, belief);
    }

    method RunConflict(obs: Observation, belief: Belief) returns (alerts: seq<Alert>, ghost victim: Ipv4)
      requires ConflictValid()
      modifies conflictRepr
      ensures ConflictValid()
      ensures ConflictEntries() == if config.conflictWithin.Some?
                        then Conflicts.ConflictTable(old(ConflictEntries()), config.capacity, config.conflictWithin.value, belief, obs,
                                                     victim)
                        else old(ConflictEntries())
      ensures alerts == if config.conflictWithin.Some?
                        then Conflicts.ConflictAlerts(old(ConflictEntries()), config.conflictWithin.value, belief, obs)
                        else []
    {
      if conflict == null {
        return [], 0;
      }
      alerts, victim := conflict.Analyze(obs, belief);
    }

    method RunFlood(obs: Observation) returns (alerts: seq<Alert>, ghost victim: Mac)
      requires FloodValid()
      modifies floodRepr
      ensures FloodValid()
      ensures FloodEntries() == if config.flood.Some?
                     then Floods.FloodTable(old(FloodEntries()), config.capacity, config.flood.value.0, config.flood.value.1, obs,
                                            victim)
                     else old(FloodEntries())
      ensures alerts == if config.flood.Some?
                        then Floods.FloodAlerts(old(FloodEntries()), config.flood.value.0, config.flood.value.1, obs)
                        else []
    {
      if flood == null {
        return [], 0;
      }
      alerts, victim := flood.Analyze(obs);
    }

    // Feeds one observation to every analyzer.
    method Observe(obs: Observation) returns (alerts: seq<Alert>, ghost victims: Victims)
      requires Valid()
      modifies Repr()
      ensures Valid()
      ensures !enabled ==> alerts == [] && Now() == old(Now())
      ensures enabled ==> alerts == NotExempt(Found(config, old(Now()), obs), config.exempt)
      ensures enabled ==> Now() == Next(config, old(Now()), Input(obs, victims))
    {
      hide Believed, NotExempt, Scans.ScanTable, Scans.ScanAlerts, Spoofs.SpoofTable, Spoofs.SpoofAlerts,
           Conflicts.ConflictTable, Conflicts.ConflictAlerts, Floods.FloodTable, Floods.FloodAlerts;
      hide ScanValid, SpoofValid, ConflictValid, FloodValid, ScanEntries, SpoofEntries, ConflictEntries, FloodEntries,
           BeliefAfter, Sensible;
      hide Scans.ArpScan.Valid, Spoofs.ArpSpoof.Valid, Conflicts.IpConflict.Valid, Floods.GratuitousArp.Valid, BoundedMap.Valid,
           GatewayTracker.Valid, GatewayTracker.Now;
      victims := Victims(0, 0, 0, 0);
      alerts := [];
      if !enabled {
        return;
      }
      tracker.Observe(obs);
      var belief := tracker.Now();
      var scans, s := RunScan(obs, belief);
      var spoofs, h := RunSpoof(obs, belief);
      var conflicts, a := RunConflict(obs, belief);
      var floods, f := RunFlood(obs);
      victims := Victims(s, h, a, f);
      alerts := Retain(scans + spoofs + conflicts + floods, config.exempt);
    }
  }

  // Drops the alerts about exempt devices.
  method Retain(alerts: seq<Alert>, exempt: set<Mac>) returns (kept: seq<Alert>)
    ensures kept == NotExempt(alerts, exempt)
  {
    kept := [];
    for i := 0 to |alerts|
      invariant kept == NotExempt(alerts[..i], exempt)
    {
      var alert := alerts[i];
      assert alerts[..i + 1] == alerts[..i] + [alert];
      NotExemptApart(alerts[..i], [alert], exempt);
      if alert.mac !in exempt {
        kept := kept + [alert];
      }
    }
    assert alerts[..|alerts|] == alerts;
  }
}
