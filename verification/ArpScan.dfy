/** One device sweeping the address space: distinct targets inside a window. */
module ArpScanning {
  import opened Options
  import opened Types
  import opened Windows
  import opened SlidingWindows
  import opened Gateway
  import opened Analysis

  const SCAN_CAPACITY: nat := 512

  datatype ScanState = ScanState(targets: seq<(Ipv4, int)>, lastAlert: Option<int>)

  const UNTRACKED := ScanState([], None)

  // One eligible request by a device, with the threshold it is held to.
  datatype Asked = Asked(target: Ipv4, at: int, threshold: nat)

  datatype Verdict = Verdict(state: ScanState, alert: Option<nat>)

  function ScanStep(s: ScanState, r: Asked, window: nat): Verdict {
    var targets := Recorded(s.targets, SCAN_CAPACITY, r.target, r.at, window);
    if |targets| < r.threshold then Verdict(s.(targets := targets), None)
    else if !CooledDown(s.lastAlert, r.at, window) then Verdict(s.(targets := targets), None)
    else Verdict(ScanState([], Some(r.at)), Some(|targets|))
  }

  function ScanAfter(asked: seq<Asked>, window: nat): ScanState {
    if asked == [] then UNTRACKED
    else ScanStep(ScanAfter(asked[..|asked| - 1], window), asked[|asked| - 1], window).state
  }

  // The alert raised by request `i`, carrying the count it was raised on.
  function ScanAlertAt(asked: seq<Asked>, i: nat, window: nat): Option<nat>
    requires i < |asked|
  {
    ScanStep(ScanAfter(asked[..i], window), asked[i], window).alert
  }

  // ---------- the trace the state stands for ----------

  function Pairs(asked: seq<Asked>): seq<(Ipv4, int)> {
    seq(|asked|, i requires 0 <= i < |asked| => (asked[i].target, asked[i].at))
  }

  // Where the current evidence starts: just after the last alert.
  function EvidenceFrom(asked: seq<Asked>, window: nat): (from: nat)
    ensures from <= |asked|
  {
    if asked == [] then 0
    else if ScanAlertAt(asked, |asked| - 1, window).Some? then |asked|
    else EvidenceFrom(asked[..|asked| - 1], window)
  }

  // The distinct targets asked for since the last alert and within the window of
  // request `i`.
  function Evidence(asked: seq<Asked>, i: nat, window: nat): set<Ipv4>
    requires i < |asked|
  {
    Live(Pairs(asked[EvidenceFrom(asked[..i], window)..i + 1]), asked[i].at, window)
  }

  ghost predicate AskedInOrder(asked: seq<Asked>) {
    forall i, j :: 0 <= i < j < |asked| ==> asked[i].at <= asked[j].at
  }

  lemma PairsMore(asked: seq<Asked>, from: nat, i: nat)
    requires from <= i < |asked|
    ensures Pairs(asked[from..i + 1]) == Pairs(asked[from..i]) + [(asked[i].target, asked[i].at)]
  {}

  lemma DistinctMore(trace: seq<(Ipv4, int)>, last: (Ipv4, int), window: nat)
    ensures DistinctAfter(trace + [last], SCAN_CAPACITY, window)
         == Recorded(DistinctAfter(trace, SCAN_CAPACITY, window), SCAN_CAPACITY, last.0, last.1, window)
  {
    assert (trace + [last])[..|trace|] == trace;
  }

  lemma NoPairs(asked: seq<Asked>, k: nat, window: nat)
    requires k <= |asked|
    ensures DistinctAfter(Pairs(asked[k..k]), SCAN_CAPACITY, window) == []
  {
    assert Pairs(asked[k..k]) == [];
  }

  lemma StepEffect(s: ScanState, r: Asked, window: nat)
    ensures var v := ScanStep(s, r, window);
            v.state == if v.alert.Some? then ScanState([], Some(r.at))
                       else s.(targets := Recorded(s.targets, SCAN_CAPACITY, r.target, r.at, window))
  {
    hide Recorded, CooledDown;
  }

  // One request more: the state steps, and an alert restarts the evidence.
  lemma OneMore(asked: seq<Asked>, k: nat, window: nat)
    requires 0 < k <= |asked|
    ensures var v := ScanStep(ScanAfter(asked[..k - 1], window), asked[k - 1], window);
            && ScanAfter(asked[..k], window) == v.state
            && ScanAlertAt(asked, k - 1, window) == v.alert
            && EvidenceFrom(asked[..k], window) == if v.alert.Some? then k else EvidenceFrom(asked[..k - 1], window)
  {
    hide ScanStep;
    assert asked[..k][..k - 1] == asked[..k - 1] && asked[..k][k - 1] == asked[k - 1];
  }

  // The state is a window over the evidence, and remembers the last alert.
  lemma {:induction false} StateIsEvidence(asked: seq<Asked>, k: nat, window: nat)
    requires k <= |asked|
    ensures var from := EvidenceFrom(asked[..k], window);
            var s := ScanAfter(asked[..k], window);
            && from <= k
            && s.targets == DistinctAfter(Pairs(asked[from..k]), SCAN_CAPACITY, window)
            && (from == 0 ==> s.lastAlert == None)
            && (from > 0 ==> s.lastAlert == Some(asked[from - 1].at) && ScanAlertAt(asked, from - 1, window).Some?)
  {
    if k > 0 {
      hide ScanStep, Recorded, ScanAfter, ScanAlertAt, EvidenceFrom, DistinctAfter, Pairs;
      StateIsEvidence(asked, k - 1, window);
      OneMore(asked, k, window);
      StepEffect(ScanAfter(asked[..k - 1], window), asked[k - 1], window);
      if ScanAlertAt(asked, k - 1, window).Some? {
        NoPairs(asked, k, window);
      } else {
        var from := EvidenceFrom(asked[..k - 1], window);
        PairsMore(asked, from, k - 1);
        DistinctMore(Pairs(asked[from..k - 1]), (asked[k - 1].target, asked[k - 1].at), window);
      }
    }
  }

  lemma CountIs(asked: seq<Asked>, i: nat, window: nat) returns (count: nat)
    requires i < |asked|
    ensures var from := EvidenceFrom(asked[..i], window);
            var s := ScanAfter(asked[..i], window);
            && count == |Recorded(s.targets, SCAN_CAPACITY, asked[i].target, asked[i].at, window)|
            && count == |DistinctAfter(Pairs(asked[from..i + 1]), SCAN_CAPACITY, window)|
            && (ScanAlertAt(asked, i, window) ==
                  if count >= asked[i].threshold && CooledDown(s.lastAlert, asked[i].at, window) then Some(count) else None)
  {
    hide Recorded, DistinctAfter;
    StateIsEvidence(asked, i, window);
    var from := EvidenceFrom(asked[..i], window);
    PairsMore(asked, from, i);
    DistinctMore(Pairs(asked[from..i]), (asked[i].target, asked[i].at), window);
    count := |Recorded(ScanAfter(asked[..i], window).targets, SCAN_CAPACITY, asked[i].target, asked[i].at, window)|;
  }

  // Every alert rests on at least the threshold of distinct targets, asked for
  // within the window and since the alert before it, which is at least a window
  // back.
  lemma AlertsAreFounded(asked: seq<Asked>, i: nat, window: nat)
    requires i < |asked| && window <= LONGEST_SPAN && AskedInOrder(asked)
    requires ScanAlertAt(asked, i, window).Some?
    ensures asked[i].threshold <= ScanAlertAt(asked, i, window).value <= |Evidence(asked, i, window)|
    ensures forall j :: 0 <= j < i && ScanAlertAt(asked, j, window).Some? ==>
              && j < EvidenceFrom(asked[..i], window)
              && asked[i].at - asked[j].at >= window
  {
    hide Recorded, ScanAfter, DistinctAfter;
    var count := CountIs(asked, i, window);
    StateIsEvidence(asked, i, window);
    var from := EvidenceFrom(asked[..i], window);
    var trace := Pairs(asked[from..i + 1]);
    assert InOrder(trace);
    CountIsLive(trace, SCAN_CAPACITY, window);
    forall j | 0 <= j < i && ScanAlertAt(asked, j, window).Some?
      ensures j < from && asked[i].at - asked[j].at >= window
    {
      EvidencePasses(asked, i, j, window);
    }
  }

  // Evidence starts after every alert raised so far.
  lemma {:induction false} EvidencePasses(asked: seq<Asked>, k: nat, j: nat, window: nat)
    requires j < k <= |asked| && ScanAlertAt(asked, j, window).Some?
    ensures j < EvidenceFrom(asked[..k], window)
  {
    hide ScanStep, ScanAfter;
    assert asked[..k][..k - 1] == asked[..k - 1];
    assert asked[..k][k - 1] == asked[k - 1];
    if j < k - 1 {
      EvidencePasses(asked, k - 1, j, window);
    }
  }

  // While no more than 512 targets are ever live at once, an alert is raised
  // exactly when the distinct targets reach the threshold and the last alert is
  // at least a window back.
  lemma AlertsExactly(asked: seq<Asked>, i: nat, window: nat)
    requires i < |asked| && window <= LONGEST_SPAN && AskedInOrder(asked)
    requires Roomy(Pairs(asked[EvidenceFrom(asked[..i], window)..i + 1]), SCAN_CAPACITY, window)
    ensures ScanAlertAt(asked, i, window).Some? <==>
              && |Evidence(asked, i, window)| >= asked[i].threshold
              && forall j :: 0 <= j < i && ScanAlertAt(asked, j, window).Some? ==> asked[i].at - asked[j].at >= window
  {
    hide Recorded, ScanAfter, DistinctAfter, Roomy;
    var count := CountIs(asked, i, window);
    StateIsEvidence(asked, i, window);
    var from := EvidenceFrom(asked[..i], window);
    var trace := Pairs(asked[from..i + 1]);
    assert InOrder(trace);
    CountIsLive(trace, SCAN_CAPACITY, window);
    if ScanAlertAt(asked, i, window).Some? {
      AlertsAreFounded(asked, i, window);
    }
  }

  // A threshold above the window's capacity is never reached.
  lemma BeyondCapacityNeverAlerts(asked: seq<Asked>, i: nat, window: nat)
    requires i < |asked| && asked[i].threshold > SCAN_CAPACITY
    ensures ScanAlertAt(asked, i, window).None?
  {
    hide Recorded, ScanAfter, DistinctAfter;
    var count := CountIs(asked, i, window);
    CountWithinCapacity(Pairs(asked[EvidenceFrom(asked[..i], window)..i + 1]), SCAN_CAPACITY, window);
  }

  // Nor does a window too long to measure ever raise an alert.
  lemma TooLongNeverAlerts(asked: seq<Asked>, i: nat, window: nat)
    requires i < |asked| && window > LONGEST_SPAN && asked[i].threshold >= 1
    ensures ScanAlertAt(asked, i, window).None?
  {
    hide Recorded, ScanAfter, DistinctAfter, ScanAlertAt;
    var count := CountIs(asked, i, window);
    TooLongCountsNothing(Pairs(asked[EvidenceFrom(asked[..i], window)..i + 1]), [], SCAN_CAPACITY, window);
  }

  // ---------- the analyzer ----------

  // Only an ordinary request about a host address is a probe of it.
  function ProbeOf(obs: Observation): Option<Ipv4> {
    var arp := ArpOf(obs);
    if arp.Some? && arp.value.op == Request && !arp.value.gratuitous && IsHostV4(arp.value.targetIp)
    then Some(arp.value.targetIp)
    else None
  }

  // How many distinct targets are too many: a gateway is allowed more.
  datatype Limits = Limits(window: nat, threshold: nat, gatewayThreshold: nat) {
    function For(b: Belief, mac: Mac): nat {
      if IsGateway(b, mac) then gatewayThreshold else threshold
    }
  }

  // A threshold of zero would alert on everything, and a gateway is never held to
  // less than anybody else.
  function Clamped(limits: Limits): (clamped: Limits)
    ensures 1 <= clamped.threshold <= clamped.gatewayThreshold
    ensures 1 <= limits.threshold <= limits.gatewayThreshold ==> clamped == limits
  {
    var t := if limits.threshold >= 1 then limits.threshold else 1;
    Limits(limits.window, t, if limits.gatewayThreshold >= t then limits.gatewayThreshold else t)
  }

  function AskedBy(limits: Limits, b: Belief, obs: Observation): Option<Asked> {
    if ProbeOf(obs).None? then None else Some(Asked(ProbeOf(obs).value, obs.observedAt, limits.For(b, obs.mac)))
  }

  // An ARP request about another host, not about the sender's own address.
  predicate Probes(s: Sighting, target: Ipv4) {
    && s.obs.detail.Some? && s.obs.detail.value.Arp?
    && s.obs.detail.value.arp.op == Request && !s.obs.detail.value.arp.gratuitous
    && s.obs.detail.value.arp.targetIp == target
    && target != 0 && target != 0xFFFF_FFFF && !(0xE000_0000 <= target < 0xF000_0000)
  }

  // What counts is what the frame's fields say: such a request, at its time, held
  // to the gateway's threshold exactly if its sender is believed to be the
  // gateway.
  lemma AskedRead(limits: Limits, s: Sighting, target: Ipv4)
    ensures Probes(s, target) <==>
              AskedBy(limits, s.belief, s.obs)
              == Some(Asked(target, s.obs.observedAt,
                            if s.belief.mac == Some(s.obs.mac) then limits.gatewayThreshold else limits.threshold))
    ensures AskedBy(limits, s.belief, s.obs).Some? ==> Probes(s, AskedBy(limits, s.belief, s.obs).value.target)
  {
    if s.obs.detail.Some? && s.obs.detail.value.Arp? { HostRange(s.obs.detail.value.arp.targetIp); }
  }

  lemma HostRange(a: Ipv4)
    ensures IsHostV4(a) <==> a != 0 && a != 0xFFFF_FFFF && !(0xE000_0000 <= a < 0xF000_0000)
  {}

  function StateOf(entries: map<Mac, (ScanState, int)>, mac: Mac): ScanState {
    if mac in entries then entries[mac].0 else UNTRACKED
  }

  function ScanTable(entries: map<Mac, (ScanState, int)>, capacity: nat, limits: Limits, b: Belief, obs: Observation, victim: Mac)
    : map<Mac, (ScanState, int)>
  {
    var asked := AskedBy(limits, b, obs);
    if asked.None? then entries
    else Inserted(entries, capacity, obs.mac, ScanStep(StateOf(entries, obs.mac), asked.value, limits.window).state,
                  obs.observedAt, victim)
  }

  function ScanAlerts(entries: map<Mac, (ScanState, int)>, limits: Limits, b: Belief, obs: Observation): seq<Alert> {
    var asked := AskedBy(limits, b, obs);
    if asked.None? then []
    else
      var alert := ScanStep(StateOf(entries, obs.mac), asked.value, limits.window).alert;
      if alert.Some? then [ScanAlert(obs.mac, obs.observedAt, alert.value, asked.value.threshold)] else []
  }

  // Each tracked state is the one its log leads to.
  ghost predicate Tallied(entries: map<Mac, (ScanState, int)>, log: map<Mac, seq<Asked>>, window: nat) {
    forall m: Mac :: m in entries ==> m in log && entries[m].0 == ScanAfter(log[m], window)
  }

  // What a device has asked since it was last taken on.
  ghost function Logged(entries: map<Mac, (ScanState, int)>, log: map<Mac, seq<Asked>>, mac: Mac): seq<Asked> {
    if mac in entries && mac in log then log[mac] else []
  }

  lemma TalliedMore(entries: map<Mac, (ScanState, int)>, reached: map<Mac, (ScanState, int)>, log: map<Mac, seq<Asked>>,
                    mac: Mac, state: ScanState, asked: seq<Asked>, window: nat)
    requires Tallied(entries, log, window) && OthersKept(entries, reached, mac)
    requires state == ScanAfter(asked, window)
    ensures Tallied(reached[mac := (state, reached[mac].1)], log[mac := asked], window)
  {
    hide ScanAfter;
  }

  class ArpScan {
    const limits: Limits
    const tracked: BoundedMap<Mac, ScanState>
    // What each tracked device has asked since it was last taken on.
    ghost var log: map<Mac, seq<Asked>>

    ghost predicate Valid()
      reads this, tracked
    {
      && tracked.Valid()
      && 1 <= limits.threshold <= limits.gatewayThreshold
      && Tallied(tracked.entries, log, limits.window)
    }

    constructor (window: nat, threshold: nat, gatewayThreshold: nat, maxTracked: nat)
      ensures Valid() && fresh(tracked) && tracked.entries == map[]
      ensures tracked.capacity == if maxTracked >= 1 then maxTracked else 1
      ensures limits == Clamped(Limits(window, threshold, gatewayThreshold))
    {
      var t := if threshold >= 1 then threshold else 1;
      this.limits := Limits(window, t, if gatewayThreshold >= t then gatewayThreshold else t);
      this.tracked := new BoundedMap(maxTracked);
      this.log := map[];
    }

    // The request joins its sender's log, which starts afresh if the sender was
    // not tracked, and an alert is raised exactly when the log says so.
    method Analyze(obs: Observation, belief: Belief) returns (alerts: seq<Alert>, ghost victim: Mac)
      requires Valid()
      modifies this, tracked
      ensures Valid()
      ensures tracked.entries == ScanTable(old(tracked.entries), tracked.capacity, limits, belief, obs, victim)
      ensures alerts == ScanAlerts(old(tracked.entries), limits, belief, obs)
      ensures AskedBy(limits, belief, obs).None? ==> log == old(log)
      ensures AskedBy(limits, belief, obs).Some? ==>
                var before := Logged(old(tracked.entries), old(log), obs.mac);
                && log == old(log)[obs.mac := before + [AskedBy(limits, belief, obs).value]]
                && (alerts != [] <==> ScanAlertAt(log[obs.mac], |before|, limits.window).Some?)
    {
      hide ProbeOf, ScanStep, ScanAfter, ScanAlertAt, Stamps, After, FairTrace, Inserted, Reached, Oldest, NeedsRoom, OthersKept;
      victim := 0;
      alerts := [];
      var probe := ProbeOf(obs);
      if probe.None? {
        return;
      }
      var mac, now, window := obs.mac, obs.observedAt, limits.window;
      var limit := if IsGateway(belief, mac) then limits.gatewayThreshold else limits.threshold;
      var asked := Asked(probe.value, now, limit);
      ghost var before, entries := Logged(tracked.entries, log, mac), tracked.entries;
      ScanMore(before, asked, window);
      var value;
      value, victim := tracked.EntryOrInsertWith(mac, now, UNTRACKED);
      ReachedKeepsOthers(entries, tracked.capacity, mac, UNTRACKED, now, victim);
      assert value == StateOf(entries, mac) == ScanAfter(before, window);
      var state, alert := Judge(value, asked, window);
      TalliedMore(entries, tracked.entries, log, mac, state, before + [asked], window);
      ReachedThenUpdated(entries, tracked.capacity, mac, UNTRACKED, state, now, victim);
      tracked.Update(mac, state);
      log := log[mac := before + [asked]];
      if alert.Some? {
        alerts := [ScanAlert(mac, now, alert.value, limit)];
      }
    }
  }

  // What one request does to its sender's window.
  method Judge(value: ScanState, asked: Asked, window: nat) returns (state: ScanState, alert: Option<nat>)
    ensures Verdict(state, alert) == ScanStep(value, asked, window)
  {
    hide Recorded;
    var targets, distinct := RecordDistinct(value.targets, SCAN_CAPACITY, asked.target, asked.at, window);
    state, alert := value.(targets := targets), None;
    if distinct < asked.threshold {
      return;
    }
    if !CooledDown(value.lastAlert, asked.at, window) {
      return;
    }
    state, alert := ScanState([], Some(asked.at)), Some(distinct);
  }

  lemma ScanMore(before: seq<Asked>, asked: Asked, window: nat)
    ensures var v := ScanStep(ScanAfter(before, window), asked, window);
            ScanAfter(before + [asked], window) == v.state
            && ScanAlertAt(before + [asked], |before|, window) == v.alert
    ensures ScanAfter([], window) == UNTRACKED
  {
    hide ScanStep;
    assert (before + [asked])[..|before|] == before;
  }
}
