/** A flood of gratuitous announcements from one device. */
module GratuitousArps {
  import opened Options
  import opened Types
  import opened Windows
  import opened SlidingWindows
  import opened Gateway
  import opened Analysis

  const FLOOD_CAPACITY: nat := 256

  // The longest duration the standard library can represent.
  const LONGEST_DURATION: nat := 0xFFFF_FFFF_FFFF_FFFF * 1_000_000_000 + 999_999_999

  // Ten windows, saturating.
  function FloodCooldown(window: nat): nat {
    if 10 * window <= LONGEST_DURATION then 10 * window else LONGEST_DURATION
  }

  datatype FloodState = FloodState(announcements: seq<int>, lastAlert: Option<int>)

  const UNHEARD := FloodState([], None)

  datatype Verdict = Verdict(state: FloodState, alert: Option<nat>)

  function FloodStep(s: FloodState, at: int, window: nat, threshold: nat): Verdict {
    var announcements := RateRecorded(s.announcements, FLOOD_CAPACITY, at, window);
    if |announcements| < threshold then Verdict(s.(announcements := announcements), None)
    else if !CooledDown(s.lastAlert, at, FloodCooldown(window)) then Verdict(s.(announcements := announcements), None)
    else Verdict(FloodState([], Some(at)), Some(|announcements|))
  }

  function FloodAfter(times: seq<int>, window: nat, threshold: nat): FloodState {
    if times == [] then UNHEARD
    else FloodStep(FloodAfter(times[..|times| - 1], window, threshold), times[|times| - 1], window, threshold).state
  }

  function FloodAlertAt(times: seq<int>, i: nat, window: nat, threshold: nat): Option<nat>
    requires i < |times|
  {
    FloodStep(FloodAfter(times[..i], window, threshold), times[i], window, threshold).alert
  }

  // Where the current burst starts: just after the last alert.
  function BurstFrom(times: seq<int>, window: nat, threshold: nat): (from: nat)
    ensures from <= |times|
  {
    if times == [] then 0
    else if FloodAlertAt(times, |times| - 1, window, threshold).Some? then |times|
    else BurstFrom(times[..|times| - 1], window, threshold)
  }

  // How many announcements since the last alert lie within the window of number
  // `i`.
  function Burst(times: seq<int>, i: nat, window: nat, threshold: nat): nat
    requires i < |times|
  {
    Within(times[BurstFrom(times[..i], window, threshold)..i + 1], times[i], window)
  }

  lemma RateMore(trace: seq<int>, at: int, window: nat)
    ensures RateAfter(trace + [at], FLOOD_CAPACITY, window)
         == RateRecorded(RateAfter(trace, FLOOD_CAPACITY, window), FLOOD_CAPACITY, at, window)
  {
    assert (trace + [at])[..|trace|] == trace;
  }

  lemma EmptyRate(window: nat)
    ensures RateAfter([], FLOOD_CAPACITY, window) == []
  {}

  lemma SliceMore(times: seq<int>, from: nat, k: nat)
    requires from < k <= |times|
    ensures times[from..k] == times[from..k - 1] + [times[k - 1]]
  {}

  lemma StepEffect(s: FloodState, at: int, window: nat, threshold: nat)
    ensures var v := FloodStep(s, at, window, threshold);
            v.state == if v.alert.Some? then FloodState([], Some(at))
                       else s.(announcements := RateRecorded(s.announcements, FLOOD_CAPACITY, at, window))
  {
    hide RateRecorded, FloodCooldown, CooledDown;
  }

  // One announcement more: the state steps, and an alert restarts the burst.
  lemma OneMore(times: seq<int>, k: nat, window: nat, threshold: nat)
    requires 0 < k <= |times|
    ensures var v := FloodStep(FloodAfter(times[..k - 1], window, threshold), times[k - 1], window, threshold);
            && FloodAfter(times[..k], window, threshold) == v.state
            && FloodAlertAt(times, k - 1, window, threshold) == v.alert
            && BurstFrom(times[..k], window, threshold)
               == if v.alert.Some? then k else BurstFrom(times[..k - 1], window, threshold)
  {
    hide FloodStep;
    assert times[..k][..k - 1] == times[..k - 1] && times[..k][k - 1] == times[k - 1];
  }

  lemma {:induction false} StateIsBurst(times: seq<int>, k: nat, window: nat, threshold: nat)
    requires k <= |times|
    ensures var from := BurstFrom(times[..k], window, threshold);
            var s := FloodAfter(times[..k], window, threshold);
            && from <= k
            && s.announcements == RateAfter(times[from..k], FLOOD_CAPACITY, window)
            && (from == 0 ==> s.lastAlert == None)
            && (from > 0 ==> s.lastAlert == Some(times[from - 1]) && FloodAlertAt(times, from - 1, window, threshold).Some?)
  {
    hide RateRecorded, FloodCooldown;
    if k == 0 {
      assert times[..k] == [] && times[0..0] == [];
    } else {
      hide FloodStep, FloodAfter, FloodAlertAt, BurstFrom, RateAfter;
      StateIsBurst(times, k - 1, window, threshold);
      OneMore(times, k, window, threshold);
      StepEffect(FloodAfter(times[..k - 1], window, threshold), times[k - 1], window, threshold);
      if FloodAlertAt(times, k - 1, window, threshold).Some? {
        EmptyRate(window);
        assert |times[k..k]| == 0;
      } else {
        var from := BurstFrom(times[..k - 1], window, threshold);
        SliceMore(times, from, k);
        RateMore(times[from..k - 1], times[k - 1], window);
      }
    }
  }

  lemma {:induction false} BurstPasses(times: seq<int>, k: nat, j: nat, window: nat, threshold: nat)
    requires j < k <= |times| && FloodAlertAt(times, j, window, threshold).Some?
    ensures j < BurstFrom(times[..k], window, threshold)
  {
    hide FloodStep, FloodAfter;
    assert times[..k][..k - 1] == times[..k - 1];
    assert times[..k][k - 1] == times[k - 1];
    if j < k - 1 {
      BurstPasses(times, k - 1, j, window, threshold);
    }
  }

  lemma CountIs(times: seq<int>, i: nat, window: nat, threshold: nat) returns (count: nat)
    requires i < |times| && window <= LONGEST_SPAN && Sorted(times)
    ensures var s := FloodAfter(times[..i], window, threshold);
            var burst := Burst(times, i, window, threshold);
            && count == (if burst <= FLOOD_CAPACITY then burst else FLOOD_CAPACITY)
            && FloodAlertAt(times, i, window, threshold)
               == (if count >= threshold && CooledDown(s.lastAlert, times[i], FloodCooldown(window)) then Some(count) else None)
  {
    hide RateRecorded, FloodCooldown, FloodAfter, Within, RateAfter;
    StateIsBurst(times, i, window, threshold);
    var from := BurstFrom(times[..i], window, threshold);
    var trace := times[from..i + 1];
    assert trace == times[from..i] + [times[i]];
    RateMore(times[from..i], times[i], window);
    RateCount(trace, FLOOD_CAPACITY, window);
    count := |RateAfter(trace, FLOOD_CAPACITY, window)|;
  }

  lemma TenWindows(window: nat)
    requires window <= LONGEST_SPAN
    ensures FloodCooldown(window) == 10 * window
  {}

  lemma AlertsSpaced(times: seq<int>, i: nat, window: nat, threshold: nat, cooldown: nat)
    requires i < |times| && window <= LONGEST_SPAN && Sorted(times) && cooldown == FloodCooldown(window)
    ensures FloodAlertAt(times, i, window, threshold).Some? <==>
              && threshold <= FLOOD_CAPACITY
              && Burst(times, i, window, threshold) >= threshold
              && forall j :: 0 <= j < i && FloodAlertAt(times, j, window, threshold).Some? ==> times[i] - times[j] >= cooldown
    ensures forall j :: 0 <= j < i && FloodAlertAt(times, j, window, threshold).Some? ==>
              j < BurstFrom(times[..i], window, threshold)
  {
    hide RateRecorded, FloodCooldown, FloodAfter, Within, FloodAlertAt, Burst;
    var count := CountIs(times, i, window, threshold);
    StateIsBurst(times, i, window, threshold);
    var from := BurstFrom(times[..i], window, threshold);
    forall j | 0 <= j < i && FloodAlertAt(times, j, window, threshold).Some?
      ensures j < from && times[j] <= times[from - 1]
    {
      BurstPasses(times, i, j, window, threshold);
    }
  }

  // With a threshold of at most 256, an alert is raised exactly when the
  // announcements since the last alert and within the window reach the
  // threshold and every earlier alert is at least ten windows back.  With a
  // greater one, never.
  lemma AlertsExactly(times: seq<int>, i: nat, window: nat, threshold: nat)
    requires i < |times| && window <= LONGEST_SPAN && Sorted(times)
    ensures FloodAlertAt(times, i, window, threshold).Some? <==>
              && threshold <= FLOOD_CAPACITY
              && Burst(times, i, window, threshold) >= threshold
              && forall j :: 0 <= j < i && FloodAlertAt(times, j, window, threshold).Some? ==>
                   times[i] - times[j] >= 10 * window
    ensures forall j :: 0 <= j < i && FloodAlertAt(times, j, window, threshold).Some? ==>
              j < BurstFrom(times[..i], window, threshold)
  {
    hide FloodCooldown, FloodAlertAt, Burst;
    TenWindows(window);
    AlertsSpaced(times, i, window, threshold, FloodCooldown(window));
  }

  // A window too long to measure never raises an alert.
  lemma TooLongNeverAlerts(times: seq<int>, i: nat, window: nat, threshold: nat)
    requires i < |times| && window > LONGEST_SPAN && threshold >= 1
    ensures FloodAlertAt(times, i, window, threshold).None?
  {
    hide FloodAfter, RateAfter, FloodCooldown;
    StateIsBurst(times, i, window, threshold);
    var from := BurstFrom(times[..i], window, threshold);
    TooLongCountsNothing<int>([], times[from..i], FLOOD_CAPACITY, window);
  }

  // ---------- the analyzer ----------

  predicate Announces(obs: Observation) {
    var arp := ArpOf(obs);
    arp.Some? && arp.value.gratuitous
  }

  // A coherent ARP frame counts, request or reply, exactly when it names one
  // address as its sender's and as its target.
  lemma AnnouncesRead(obs: Observation)
    requires Coherent(obs)
    ensures Announces(obs) <==>
              && obs.detail.Some? && obs.detail.value.Arp?
              && obs.detail.value.arp.senderIp == Some(obs.detail.value.arp.targetIp)
  {}

  function StateOf(entries: map<Mac, (FloodState, int)>, mac: Mac): FloodState {
    if mac in entries then entries[mac].0 else UNHEARD
  }

  // An announcement leaves its sender's state as it was exactly when it alerts
  // over a state just cleared by an alert at this moment, or raises none and its
  // recording changes nothing.
  lemma StepChangesNothing(s: FloodState, at: int, window: nat, threshold: nat)
    ensures var v := FloodStep(s, at, window, threshold);
            v.state == s <==> if v.alert.Some? then s == FloodState([], Some(at))
                              else window > LONGEST_SPAN || FullOf(s.announcements, FLOOD_CAPACITY, at)
  {
    hide RateRecorded, FloodCooldown, CooledDown, FullOf;
    RecordingChangesNothing(s.announcements, FLOOD_CAPACITY, at, window);
    StepEffect(s, at, window, threshold);
  }

  function FloodTable(entries: map<Mac, (FloodState, int)>, capacity: nat, window: nat, threshold: nat, obs: Observation, victim: Mac)
    : map<Mac, (FloodState, int)>
  {
    if !Announces(obs) then entries
    else Inserted(entries, capacity, obs.mac, FloodStep(StateOf(entries, obs.mac), obs.observedAt, window, threshold).state,
                  obs.observedAt, victim)
  }

  function FloodAlerts(entries: map<Mac, (FloodState, int)>, window: nat, threshold: nat, obs: Observation): seq<Alert> {
    if !Announces(obs) then []
    else
      var alert := FloodStep(StateOf(entries, obs.mac), obs.observedAt, window, threshold).alert;
      if alert.Some? then [FloodAlert(obs.mac, obs.observedAt, alert.value, threshold, ArpOf(obs).value.senderIp)] else []
  }

  // Each tracked state is the one its log leads to.
  ghost predicate Tallied(entries: map<Mac, (FloodState, int)>, log: map<Mac, seq<int>>, window: nat, threshold: nat) {
    forall m: Mac :: m in entries ==> m in log && entries[m].0 == FloodAfter(log[m], window, threshold)
  }

  // When a device has announced since it was last taken on.
  ghost function Logged(entries: map<Mac, (FloodState, int)>, log: map<Mac, seq<int>>, mac: Mac): seq<int> {
    if mac in entries && mac in log then log[mac] else []
  }

  lemma TalliedMore(entries: map<Mac, (FloodState, int)>, reached: map<Mac, (FloodState, int)>, log: map<Mac, seq<int>>,
                    mac: Mac, state: FloodState, times: seq<int>, window: nat, threshold: nat)
    requires Tallied(entries, log, window, threshold) && OthersKept(entries, reached, mac)
    requires state == FloodAfter(times, window, threshold)
    ensures Tallied(reached[mac := (state, reached[mac].1)], log[mac := times], window, threshold)
  {
    hide FloodAfter;
  }

  class GratuitousArp {
    const window: nat
    const threshold: nat
    const tracked: BoundedMap<Mac, FloodState>
    // When each tracked device announced, since it was last taken on.
    ghost var log: map<Mac, seq<int>>

    ghost predicate Valid()
      reads this, tracked
    {
      tracked.Valid() && 1 <= threshold && Tallied(tracked.entries, log, window, threshold)
    }

    constructor (window: nat, threshold: nat, maxTracked: nat)
      ensures Valid() && this.window == window && fresh(tracked) && tracked.entries == map[]
      ensures tracked.capacity == if maxTracked >= 1 then maxTracked else 1
      ensures this.threshold == if threshold >= 1 then threshold else 1
    {
      this.window := window;
      this.threshold := if threshold >= 1 then threshold else 1;
      this.tracked := new BoundedMap(maxTracked);
      this.log := map[];
    }

    // The announcement joins its sender's log, and an alert is raised exactly
    // when the log says so.
    method Analyze(obs: Observation) returns (alerts: seq<Alert>, ghost victim: Mac)
      requires Valid()
      modifies this, tracked
      ensures Valid()
      ensures tracked.entries == FloodTable(old(tracked.entries), tracked.capacity, window, threshold, obs, victim)
      ensures alerts == FloodAlerts(old(tracked.entries), window, threshold, obs)
      ensures !Announces(obs) ==> log == old(log)
      ensures Announces(obs) ==>
                var before := Logged(old(tracked.entries), old(log), obs.mac);
                && log == old(log)[obs.mac := before + [obs.observedAt]]
                && (alerts != [] <==> FloodAlertAt(log[obs.mac], |before|, window, threshold).Some?)
    {
      hide FloodStep, FloodAfter, FloodAlertAt, Stamps, After, FairTrace, Inserted, Reached, Oldest, NeedsRoom, OthersKept;
      victim := 0;
      alerts := [];
      if !Announces(obs) {
        return;
      }
      var mac, now := obs.mac, obs.observedAt;
      ghost var before, entries := Logged(tracked.entries, log, mac), tracked.entries;
      FloodMore(before, now, window, threshold);
      var value;
      value, victim := tracked.EntryOrInsertWith(mac, now, UNHEARD);
      ReachedKeepsOthers(entries, tracked.capacity, mac, UNHEARD, now, victim);
      assert value == StateOf(entries, mac) == FloodAfter(before, window, threshold);
      var state, alert := Judge(value, now, window, threshold);
      TalliedMore(entries, tracked.entries, log, mac, state, before + [now], window, threshold);
      ReachedThenUpdated(entries, tracked.capacity, mac, UNHEARD, state, now, victim);
      tracked.Update(mac, state);
      log := log[mac := before + [now]];
      if alert.Some? {
        alerts := [FloodAlert(mac, now, alert.value, threshold, ArpOf(obs).value.senderIp)];
      }
    }
  }

  // What one announcement does to its sender's window.
  method Judge(value: FloodState, now: int, window: nat, threshold: nat) returns (state: FloodState, alert: Option<nat>)
    ensures Verdict(state, alert) == FloodStep(value, now, window, threshold)
  {
    hide RateRecorded, FloodCooldown;
    var announcements, count := RecordEvent(value.announcements, FLOOD_CAPACITY, now, window);
    state, alert := value.(announcements := announcements), None;
    if count < threshold {
      return;
    }
    if !CooledDown(value.lastAlert, now, FloodCooldown(window)) {
      return;
    }
    state, alert := FloodState([], Some(now)), Some(count);
  }

  lemma FloodMore(before: seq<int>, now: int, window: nat, threshold: nat)
    ensures var v := FloodStep(FloodAfter(before, window, threshold), now, window, threshold);
            FloodAfter(before + [now], window, threshold) == v.state
            && FloodAlertAt(before + [now], |before|, window, threshold) == v.alert
    ensures FloodAfter([], window, threshold) == UNHEARD
  {
    hide FloodStep;
    assert (before + [now])[..|before|] == before;
  }
}
