/**
 The address index agrees with history: who holds an address, told from the
 observations alone.
 */
module DeviceIndex {
  import opened Options
  import opened Types
  import opened Identities
  import opened DeviceTable
  import opened DeviceTableFacts

  // The step is an accepted frame from `m` that reveals a usable address.
  predicate Uses(step: Step, m: Mac, a: IpAddr) {
    step.Observe? && IsDevice(step.obs.mac) && step.obs.mac == m && step.obs.ip == Some(a) && IsRecordable(a)
  }

  function LastUser(steps: seq<Step>, a: IpAddr): Option<Mac> {
    if steps == [] then None
    else
      var step := steps[|steps| - 1];
      if step.Observe? && Uses(step, step.obs.mac, a) then Some(step.obs.mac)
      else LastUser(steps[..|steps| - 1], a)
  }

  // The last IPv4 address a device was seen using.
  function LastV4(steps: seq<Step>, m: Mac): Option<Ipv4> {
    if steps == [] then None
    else
      var step := steps[|steps| - 1];
      if step.Observe? && step.obs.ip.Some? && step.obs.ip.value.V4? && Uses(step, m, step.obs.ip.value)
      then Some(step.obs.ip.value.v4)
      else LastV4(steps[..|steps| - 1], m)
  }

  // The last IPv6 address a device was seen using, of one scope.
  function LastV6(steps: seq<Step>, m: Mac, linkLocal: bool): Option<Ipv6> {
    if steps == [] then None
    else
      var step := steps[|steps| - 1];
      if step.Observe? && step.obs.ip.Some? && step.obs.ip.value.V6? && Uses(step, m, step.obs.ip.value)
         && IsLinkLocal(step.obs.ip.value.v6) == linkLocal
      then Some(step.obs.ip.value.v6)
      else LastV6(steps[..|steps| - 1], m, linkLocal)
  }

  // Global over link-local: the last global address ever seen, and a link-local
  // one only if there never was a global one.
  function CurrentV6(steps: seq<Step>, m: Mac): Option<Ipv6> {
    var global := LastV6(steps, m, false);
    if global.Some? then global else LastV6(steps, m, true)
  }

  predicate StillUses(steps: seq<Step>, m: Mac, a: IpAddr) {
    match a
    case V4(v4) => LastV4(steps, m) == Some(v4)
    case V6(v6) => CurrentV6(steps, m) == Some(v6)
  }

  // ---------- what one step does to the addresses ----------

  datatype Held = Held(v4: Option<Ipv4>, v6: Option<Ipv6>)

  function HeldBy(b: Book, m: Mac): Held {
    if m in b.devices then Held(b.devices[m].lastIp, b.devices[m].lastIpv6) else Held(None, None)
  }

  function Using(h: Held, ip: Option<IpAddr>): Held {
    if ip.Some? && IsRecordable(ip.value) then
      match ip.value
      case V4(a) => h.(v4 := Some(a))
      case V6(a) => if IsLinkLocal(a) && h.v6.Some? && !IsLinkLocal(h.v6.value) then h else h.(v6 := Some(a))
    else h
  }

  lemma PerformHeld(env: Env, b: Book, op: Op, m: Mac)
    ensures var after := Perform(env, b, op).book;
            && HeldBy(after, m) == (if op.Hear? && op.obs.mac == m && m in b.devices then Using(HeldBy(b, m), op.obs.ip)
                                    else HeldBy(b, m))
            && (!op.Index? ==> after.addresses == b.addresses)
  {
    hide Resolve, Consider, Merged, Changes, HearingEffects, NameEffects, DiscoveryEffects, SweepEffects, BestOf,
         IsRecordable, IsLinkLocal, IsBlank, NonBlank, EventFor;
  }

  lemma {:induction false} OthersHeld(env: Env, b: Book, ops: seq<Op>, m: Mac)
    requires forall op :: op in ops ==> !op.Hear? && !op.Index?
    ensures HeldBy(PerformAll(env, b, ops).book, m) == HeldBy(b, m)
    ensures PerformAll(env, b, ops).book.addresses == b.addresses
  {
    hide Perform;
    if ops != [] {
      OthersHeld(env, b, ops[..|ops| - 1], m);
      PerformHeld(env, PerformAll(env, b, ops[..|ops| - 1]).book, ops[|ops| - 1], m);
    }
  }

  lemma ObserveHeld(env: Env, b: Book, obs: Observation, m: Mac)
    requires IsDevice(obs.mac)
    ensures var after := Apply(env, b, Observe(obs)).book;
            && HeldBy(after, m) == (if obs.mac == m then Using(HeldBy(b, m), obs.ip) else HeldBy(b, m))
            && after.addresses == (if obs.ip.Some? && IsRecordable(obs.ip.value) then b.addresses[obs.ip.value := obs.mac]
                                   else b.addresses)
  {
    hide Perform, Attribute, IsGroup, IsRecordable, Arrival, Using, IsLinkLocal;
    var mid := PerformAll(env, b, Arrival(b, obs)).book;
    var att := Attribute(mid, obs);
    var hear := Hear(obs, att.mine, att.unattributed, obs.mac !in b.devices);
    ThreeParts(env, b, obs);
    ArrivalKnows(env, b, obs);
    PerformHeld(env, mid, hear, m);
    OthersHeld(env, Perform(env, mid, hear).book, Learns(att.others, obs.observedAt), m);
  }

  lemma StepHeld(env: Env, b: Book, step: Step, m: Mac)
    ensures var after := Apply(env, b, step).book;
            var heard := step.Observe? && IsDevice(step.obs.mac);
            && HeldBy(after, m) == (if heard && step.obs.mac == m then Using(HeldBy(b, m), step.obs.ip) else HeldBy(b, m))
            && after.addresses == (if heard && step.obs.ip.Some? && IsRecordable(step.obs.ip.value)
                                   then b.addresses[step.obs.ip.value := step.obs.mac] else b.addresses)
  {
    hide Perform, IsGroup, IsRecordable, Attribute, Using;
    if step.Observe? && IsDevice(step.obs.mac) {
      ObserveHeld(env, b, step.obs, m);
    } else {
      OthersHeld(env, b, Plan(env, b, step), m);
    }
  }

  // ---------- history ----------

  lemma {:induction false} IndexIsLastUser(env: Env, learning: bool, steps: seq<Step>, a: IpAddr)
    ensures var addresses := Run(env, learning, steps).book.addresses;
            LastUser(steps, a) == if a in addresses then Some(addresses[a]) else None
  {
    hide Apply, IsRecordable, IsGroup;
    if steps != [] {
      IndexIsLastUser(env, learning, steps[..|steps| - 1], a);
      StepHeld(env, Run(env, learning, steps[..|steps| - 1]).book, steps[|steps| - 1], 0);
    }
  }

  lemma {:induction false} HeldIsHistory(env: Env, learning: bool, steps: seq<Step>, m: Mac)
    ensures HeldBy(Run(env, learning, steps).book, m) == Held(LastV4(steps, m), CurrentV6(steps, m))
    ensures var global := LastV6(steps, m, false);
            global.Some? ==> !IsLinkLocal(global.value)
    ensures var local := LastV6(steps, m, true);
            local.Some? ==> IsLinkLocal(local.value)
  {
    hide Apply, IsRecordable, IsGroup, IsLinkLocal;
    if steps != [] {
      HeldIsHistory(env, learning, steps[..|steps| - 1], m);
      StepHeld(env, Run(env, learning, steps[..|steps| - 1]).book, steps[|steps| - 1], m);
    }
  }

  // A lookup names a device exactly when that device is the last one seen using
  // the address and has not been seen to move off it since.
  lemma HolderAgreesWithHistory(env: Env, learning: bool, steps: seq<Step>, a: IpAddr, m: Mac)
    ensures HolderOf(Run(env, learning, steps).book, a) == Some(m)
       <==> LastUser(steps, a) == Some(m) && StillUses(steps, m, a)
  {
    hide Run, LastUser, LastV4, LastV6;
    IndexIsLastUser(env, learning, steps, a);
    HeldIsHistory(env, learning, steps, m);
  }
}
