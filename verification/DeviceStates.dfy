/**
 Whether a device is online, idle or offline, told from the history: its last
 frame, and what the sweeps since have found.
 */
module DeviceStates {
  import opened Options
  import opened Types
  import opened Identities
  import opened DeviceTable
  import opened DeviceTableFacts
  import opened DeviceSweeps
  import opened Persistence
  import History = DeviceHistory

  function StateIn(b: Book, m: Mac): Option<DeviceState> {
    if m in b.devices then Some(b.devices[m].state) else None
  }

  // ---------- one call ----------

  lemma PerformState(env: Env, b: Book, op: Op, m: Mac)
    requires !op.Check? && !op.Discover?
    ensures StateIn(Perform(env, b, op).book, m)
         == if op.Hear? && op.obs.mac == m && m in b.devices then Some(Online) else StateIn(b, m)
  {
    hide Resolve, Consider, Merged, Changes, HearingEffects, NameEffects, BestOf, IsRecordable, IsLinkLocal, IsBlank, NonBlank,
         EventFor;
  }

  lemma {:induction false} QuietState(env: Env, b: Book, ops: seq<Op>, m: Mac)
    requires forall op :: op in ops ==> !op.Check? && !op.Discover? && !op.Hear?
    ensures StateIn(PerformAll(env, b, ops).book, m) == StateIn(b, m)
  {
    hide Perform, StateIn;
    if ops != [] {
      var most, op := ops[..|ops| - 1], ops[|ops| - 1];
      assert op in ops;
      QuietState(env, b, most, m);
      PerformState(env, PerformAll(env, b, most).book, op, m);
    }
  }

  lemma ObserveState(env: Env, b: Book, obs: Observation, m: Mac)
    requires IsDevice(obs.mac)
    ensures StateIn(Apply(env, b, Observe(obs)).book, m) == if obs.mac == m then Some(Online) else StateIn(b, m)
  {
    hide Perform, Attribute, IsGroup, IsZero, IsRecordable, Arrival, PerformAll, NewEntry, Learns;
    ThreeParts(env, b, obs);
    ArrivalKnows(env, b, obs);
    hide Apply;
    var mid := PerformAll(env, b, Arrival(b, obs)).book;
    var att := Attribute(mid, obs);
    var hear := Hear(obs, att.mine, att.unattributed, obs.mac !in b.devices);
    PerformState(env, mid, hear, m);
    QuietState(env, Perform(env, mid, hear).book, Learns(att.others, obs.observedAt), m);
  }

  // What a sweep makes of a device's state, given how long it has been silent.
  function SweptInto(state: DeviceState, silence: nat, idle: nat, offline: nat): DeviceState {
    if state == Offline || silence >= offline then Offline
    else if silence >= idle then Idle
    else state
  }

  function SilenceIn(b: Book, m: Mac, now: int): nat
    requires m in b.devices
  {
    if now > b.devices[m].lastSeenAt then now - b.devices[m].lastSeenAt else 0
  }

  lemma SweepState(env: Env, b: Book, now: int, order: seq<Mac>, m: Mac)
    requires Sound(b) && Enumerates(order, b.devices) && m in b.devices
    ensures var config, t := env.config, b.devices[m].classification.deviceType;
            StateIn(Apply(env, b, Sweep(now, order)).book, m)
            == Some(SweptInto(b.devices[m].state, SilenceIn(b, m, now), config.IdleFor(t), config.OfflineFor(t)))
  {
    hide Apply, Swept;
    SweepIs(env, b, order, now);
    SweptState(env, b.devices[m], now);
  }

  // A frame makes its sender online, a sweep does what the silence says, and
  // nothing else changes a state.
  lemma StepState(env: Env, b: Book, step: Step, m: Mac)
    requires Sound(b) && Feasible(b, step)
    ensures var after := StateIn(Apply(env, b, step).book, m);
            if History.Heard(step, m) then after == Some(Online)
            else if step.Sweep? && m in b.devices then
              var t := b.devices[m].classification.deviceType;
              after == Some(SweptInto(b.devices[m].state, SilenceIn(b, m, step.now), env.config.IdleFor(t), env.config.OfflineFor(t)))
            else after == StateIn(b, m)
  {
    hide Perform, PerformAll, Attribute, IsGroup, IsZero, IsRecordable, SweptInto, SilenceIn;
    if step.Observe? && IsDevice(step.obs.mac) {
      ObserveState(env, b, step.obs, m);
    } else if step.Sweep? {
      if m in b.devices {
        SweepState(env, b, step.now, step.order, m);
      } else {
        SweepIs(env, b, step.order, step.now);
      }
    } else {
      QuietState(env, b, Plan(env, b, step), m);
    }
  }

  // ---------- over a run ----------

  // Call `j` is a sweep that finds the device silent for at least its idle, or its
  // offline, timeout; how long it has been silent is told from the frames.
  ghost predicate FoundIdle(env: Env, learning: bool, steps: seq<Step>, j: int, m: Mac) {
    && 0 <= j < |steps| && steps[j].Sweep?
    && m in Run(env, learning, steps[..j]).book.devices
    && History.SilenceOf(steps[..j], m, steps[j].now)
       >= env.config.IdleFor(Run(env, learning, steps[..j]).book.devices[m].classification.deviceType)
  }

  ghost predicate FoundGone(env: Env, learning: bool, steps: seq<Step>, j: int, m: Mac) {
    && 0 <= j < |steps| && steps[j].Sweep?
    && m in Run(env, learning, steps[..j]).book.devices
    && History.SilenceOf(steps[..j], m, steps[j].now)
       >= env.config.OfflineFor(Run(env, learning, steps[..j]).book.devices[m].classification.deviceType)
  }

  lemma SilenceAgrees(env: Env, learning: bool, steps: seq<Step>, m: Mac, now: int)
    requires m in Run(env, learning, steps).book.devices
    ensures History.SilenceOf(steps, m, now) == SilenceIn(Run(env, learning, steps).book, m, now)
  {
    hide Run, History.LastHeard;
    History.SeenIsLastHeard(env, learning, steps, m);
  }

  // Among the first `n` calls, `k` is the device's last frame.
  ghost predicate LastFrame(steps: seq<Step>, n: nat, k: int, m: Mac) {
    0 <= k < n <= |steps| && History.Heard(steps[k], m) && forall j :: k < j < n ==> !History.Heard(steps[j], m)
  }

  ghost predicate GoneSince(env: Env, learning: bool, steps: seq<Step>, n: nat, k: int, m: Mac) {
    exists j :: k < j < n && FoundGone(env, learning, steps, j, m)
  }

  ghost predicate IdleSince(env: Env, learning: bool, steps: seq<Step>, n: nat, k: int, m: Mac) {
    exists j :: k < j < n && FoundIdle(env, learning, steps, j, m)
  }

  lemma SinceMore(env: Env, learning: bool, steps: seq<Step>, n: nat, k: int, m: Mac)
    requires 0 <= k < n < |steps|
    ensures GoneSince(env, learning, steps, n + 1, k, m)
       <==> GoneSince(env, learning, steps, n, k, m) || FoundGone(env, learning, steps, n, m)
    ensures IdleSince(env, learning, steps, n + 1, k, m)
       <==> IdleSince(env, learning, steps, n, k, m) || FoundIdle(env, learning, steps, n, m)
  {
    hide FoundGone, FoundIdle;
  }

  lemma FeasibleAt(env: Env, learning: bool, steps: seq<Step>, n: nat)
    requires n < |steps| && FeasibleRun(env, learning, steps)
    ensures Feasible(Run(env, learning, steps[..n]).book, steps[n])
    decreases |steps|
  {
    hide Run, Feasible;
    var last := |steps| - 1;
    if n < last {
      FeasibleAt(env, learning, steps[..last], n);
      assert steps[..last][..n] == steps[..n];
    }
  }

  lemma StateMore(env: Env, learning: bool, steps: seq<Step>, n: nat, m: Mac)
    requires n < |steps| && FeasibleRun(env, learning, steps)
    ensures var b, c := Run(env, learning, steps[..n]).book, Run(env, learning, steps[..n + 1]).book;
            && Sound(b)
            && StateIn(c, m) == StateIn(Apply(env, b, steps[n]).book, m)
            && Feasible(b, steps[n])
  {
    hide Run, Apply, Feasible, FeasibleRun, Sound;
    FeasibleAt(env, learning, steps, n);
    RunLast(env, learning, steps[..n + 1]);
    assert steps[..n + 1][..n] == steps[..n];
    RunSound(env, learning, steps[..n]);
  }

  // The state after the call, when it is not the device's frame.
  lemma QuietMore(env: Env, learning: bool, steps: seq<Step>, n: nat, m: Mac)
    requires n < |steps| && FeasibleRun(env, learning, steps) && !History.Heard(steps[n], m)
    requires m in Run(env, learning, steps[..n]).book.devices
    ensures var b, c := Run(env, learning, steps[..n]).book, Run(env, learning, steps[..n + 1]).book;
            m in c.devices
            && c.devices[m].state == (if b.devices[m].state == Offline || FoundGone(env, learning, steps, n, m) then Offline
                                      else if FoundIdle(env, learning, steps, n, m) then Idle
                                      else b.devices[m].state)
            && (FoundGone(env, learning, steps, n, m) ==> FoundIdle(env, learning, steps, n, m))
  {
    hide Run, Apply, Feasible, FeasibleRun, Sound, History.Heard;
    var b := Run(env, learning, steps[..n]).book;
    StateMore(env, learning, steps, n, m);
    StepState(env, b, steps[n], m);
    if steps[n].Sweep? { SilenceAgrees(env, learning, steps[..n], m, steps[n].now); }
  }

  // A device is offline exactly when a sweep since its last frame found it silent
  // for its offline timeout, online exactly when none found it silent for its idle
  // timeout, and idle in between.
  lemma {:induction false} StateIsHistory(env: Env, learning: bool, steps: seq<Step>, n: nat, k: int, m: Mac)
    requires FeasibleRun(env, learning, steps) && LastFrame(steps, n, k, m)
    ensures var b := Run(env, learning, steps[..n]).book;
            && m in b.devices
            && (b.devices[m].state == Offline <==> GoneSince(env, learning, steps, n, k, m))
            && (b.devices[m].state == Online <==> !IdleSince(env, learning, steps, n, k, m))
  {
    hide Run, FoundGone, FoundIdle, History.Heard, FeasibleRun, GoneSince, IdleSince;
    var last := n - 1;
    if k == last {
      StateMore(env, learning, steps, last, m);
      StepState(env, Run(env, learning, steps[..last]).book, steps[last], m);
      NothingSince(env, learning, steps, k, m);
    } else {
      StateIsHistory(env, learning, steps, last, k, m);
      SinceMore(env, learning, steps, last, k, m);
      QuietMore(env, learning, steps, last, m);
      GoneIsIdle(env, learning, steps, last, k, m);
    }
  }

  lemma NothingSince(env: Env, learning: bool, steps: seq<Step>, k: int, m: Mac)
    requires 0 <= k < |steps|
    ensures !GoneSince(env, learning, steps, k + 1, k, m) && !IdleSince(env, learning, steps, k + 1, k, m)
  {}

  lemma GoneIsIdle(env: Env, learning: bool, steps: seq<Step>, n: nat, k: int, m: Mac)
    ensures GoneSince(env, learning, steps, n, k, m) ==> IdleSince(env, learning, steps, n, k, m)
  {
    hide Run, History.SilenceOf;
    if GoneSince(env, learning, steps, n, k, m) {
      var j :| k < j < n && FoundGone(env, learning, steps, j, m);
      assert FoundIdle(env, learning, steps, j, m);
    }
  }
}
