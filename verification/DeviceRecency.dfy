/**
 The order of a device's evidence: most recently confirmed first, so the value
 used of a kind is the latest one told.
 */
module DeviceRecency {
  import opened Options
  import opened Types
  import opened Identities
  import opened DeviceTable
  import opened DeviceTableFacts
  import opened DeviceSessions
  import opened Persistence
  import Attribution = DeviceAttribution

  // ---------- the order a merge gives ----------

  // One signal stands before another in a list.
  ghost predicate Before(list: seq<Signal>, s: Signal, t: Signal) {
    exists i, j :: 0 <= i < j < |list| && list[i] == s && list[j] == t
  }

  // The first of one signal comes before the first of another.
  ghost predicate ComesFirst(list: seq<Signal>, s: Signal, t: Signal) {
    exists i :: 0 <= i < |list| && list[i] == s && forall j :: 0 <= j <= i ==> list[j] != t
  }

  lemma {:induction false} FirstsInOrder(incoming: seq<Signal>, s: Signal, t: Signal)
    requires s != t && t in incoming && ComesFirst(incoming, s, t)
    ensures Before(Firsts(incoming), s, t)
  {
    var most, last := incoming[..|incoming| - 1], incoming[|incoming| - 1];
    assert incoming == most + [last];
    var i :| 0 <= i < |incoming| && incoming[i] == s && forall j :: 0 <= j <= i ==> incoming[j] != t;
    if t in most {
      assert i < |most| by {
        var k :| 0 <= k < |most| && most[k] == t;
        assert incoming[k] == t;
      }
      assert ComesFirst(most, s, t) by {
        assert most[i] == s && forall j :: 0 <= j <= i ==> most[j] == incoming[j];
      }
      FirstsInOrder(most, s, t);
      var a, b :| 0 <= a < b < |Firsts(most)| && Firsts(most)[a] == s && Firsts(most)[b] == t;
      assert Firsts(incoming)[a] == s && Firsts(incoming)[b] == t;
    } else {
      assert last == t && i < |most| && most[i] == s;
      FirstsMembers(most, s);
      FirstsMembers(most, t);
      var a :| 0 <= a < |Firsts(most)| && Firsts(most)[a] == s;
      assert Firsts(incoming) == Firsts(most) + [t];
      assert Firsts(incoming)[a] == s && Firsts(incoming)[|Firsts(most)|] == t;
    }
  }

  lemma BeforePrefixed(front: seq<Signal>, rest: seq<Signal>, s: Signal, t: Signal)
    requires Before(rest, s, t)
    ensures Before(front + rest, s, t)
  {
    var i, j :| 0 <= i < j < |rest| && rest[i] == s && rest[j] == t;
    assert (front + rest)[|front| + i] == s && (front + rest)[|front| + j] == t;
  }

  lemma HeadIsBefore(rest: seq<Signal>, s: Signal, t: Signal)
    requires t in rest
    ensures Before([s] + rest, s, t)
  {
    var j :| 0 <= j < |rest| && rest[j] == t;
    assert ([s] + rest)[0] == s && ([s] + rest)[j + 1] == t;
  }

  lemma {:induction false} WithoutInOrder(signals: seq<Signal>, gone: seq<Signal>, s: Signal, t: Signal)
    requires Before(signals, s, t) && s !in gone && t !in gone
    ensures Before(Without(signals, gone), s, t)
  {
    var i, j :| 0 <= i < j < |signals| && signals[i] == s && signals[j] == t;
    var head, tail := signals[0], signals[1..];
    assert tail[j - 1] == t;
    if i > 0 {
      assert tail[i - 1] == s;
      WithoutInOrder(tail, gone, s, t);
      hide Before;
      BeforePrefixed(if head in gone then [] else [head], Without(tail, gone), s, t);
    } else {
      hide Before;
      WithoutMembers(tail, gone, t);
      HeadIsBefore(Without(tail, gone), s, t);
    }
  }

  // A batch goes before everything already held; its own signals keep the order
  // they first come in, and what is only held keeps the order it had.
  lemma MergedInOrder(signals: seq<Signal>, incoming: seq<Signal>, s: Signal, t: Signal)
    ensures s in incoming && t in signals && t !in incoming ==> Before(Merged(signals, incoming), s, t)
    ensures s != t && t in incoming && ComesFirst(incoming, s, t) ==> Before(Merged(signals, incoming), s, t)
    ensures Before(signals, s, t) && s !in incoming && t !in incoming ==> Before(Merged(signals, incoming), s, t)
  {
    var a, z := Firsts(incoming), Without(signals, incoming);
    FirstsMembers(incoming, s);
    WithoutMembers(signals, incoming, t);
    if s in incoming && t in signals && t !in incoming {
      var i :| 0 <= i < |a| && a[i] == s;
      var j :| 0 <= j < |z| && z[j] == t;
      assert (a + z)[i] == s && (a + z)[|a| + j] == t;
    }
    if s != t && t in incoming && ComesFirst(incoming, s, t) {
      FirstsInOrder(incoming, s, t);
      var i, j :| 0 <= i < j < |a| && a[i] == s && a[j] == t;
      assert (a + z)[i] == s && (a + z)[j] == t;
    }
    if Before(signals, s, t) && s !in incoming && t !in incoming {
      WithoutInOrder(signals, incoming, s, t);
      var i, j :| 0 <= i < j < |z| && z[i] == s && z[j] == t;
      assert (a + z)[|a| + i] == s && (a + z)[|a| + j] == t;
    }
  }

  // ---------- the value used of a kind ----------

  predicate Usable(s: Signal, kind: SignalKind) {
    s.kind == kind && !IsBlank(s.value)
  }

  // The value is the first usable one of its kind in the list.
  ghost predicate Leads(list: seq<Signal>, kind: SignalKind, value: string) {
    exists i :: 0 <= i < |list| && Usable(list[i], kind) && list[i].value == value
                && forall j :: 0 <= j < i ==> !Usable(list[j], kind)
  }

  predicate Carries(list: seq<Signal>, kind: SignalKind) {
    exists s :: s in list && Usable(s, kind)
  }

  lemma LeadsOn(head: Signal, rest: seq<Signal>, kind: SignalKind, value: string)
    requires !Usable(head, kind) && Leads(rest, kind, value)
    ensures Leads([head] + rest, kind, value)
  {
    hide Usable;
    var i :| 0 <= i < |rest| && Usable(rest[i], kind) && rest[i].value == value
             && forall j :: 0 <= j < i ==> !Usable(rest[j], kind);
    var all := [head] + rest;
    assert all[i + 1] == rest[i];
    assert forall j :: 0 < j < i + 1 ==> all[j] == rest[j - 1];
  }

  lemma HeadLeads(head: Signal, rest: seq<Signal>, kind: SignalKind)
    requires Usable(head, kind)
    ensures Leads([head] + rest, kind, head.value)
  {
    hide Usable;
    assert ([head] + rest)[0] == head;
  }

  lemma {:induction false} BestLeads(list: seq<Signal>, kind: SignalKind)
    ensures match BestOf(list, kind)
            case None => !Carries(list, kind)
            case Some(value) => Leads(list, kind, value)
  {
    hide IsBlank;
    if list != [] {
      var head, rest := list[0], list[1..];
      hide Leads;
      BestLeads(rest, kind);
      assert list == [head] + rest;
      if Usable(head, kind) {
        HeadLeads(head, rest, kind);
      } else if BestOf(list, kind).Some? {
        LeadsOn(head, rest, kind, BestOf(list, kind).value);
      }
    }
  }

  lemma OneLeads(list: seq<Signal>, kind: SignalKind, v: string, w: string)
    requires Leads(list, kind, v) && Leads(list, kind, w)
    ensures v == w
  {
    hide Usable;
  }

  lemma LeaderCarried(list: seq<Signal>, kind: SignalKind, v: string)
    requires Leads(list, kind, v)
    ensures Carries(list, kind)
  {
    hide Usable;
    var i :| 0 <= i < |list| && Usable(list[i], kind) && list[i].value == v;
    assert list[i] in list;
  }

  lemma {:induction false} FirstsLead(incoming: seq<Signal>, kind: SignalKind)
    ensures BestOf(Firsts(incoming), kind) == BestOf(incoming, kind)
  {
    if incoming != [] {
      hide IsBlank;
      var most, last := incoming[..|incoming| - 1], incoming[|incoming| - 1];
      assert incoming == most + [last];
      FirstsLead(most, kind);
      BestSnoc(most, last, kind);
      if last in Firsts(most) {
        if Usable(last, kind) { HeldIsFound(Firsts(most), last, kind); }
      } else {
        BestSnoc(Firsts(most), last, kind);
      }
    }
  }

  lemma {:induction false} BestApart(a: seq<Signal>, b: seq<Signal>, kind: SignalKind)
    ensures BestOf(a + b, kind) == if BestOf(a, kind).Some? then BestOf(a, kind) else BestOf(b, kind)
  {
    hide IsBlank;
    if a == [] {
      assert a + b == b;
    } else {
      BestApart(a[1..], b, kind);
      assert (a + b)[1..] == a[1..] + b;
    }
  }

  lemma BestSnoc(most: seq<Signal>, last: Signal, kind: SignalKind)
    ensures BestOf(most + [last], kind)
         == if BestOf(most, kind).Some? then BestOf(most, kind) else if Usable(last, kind) then Some(last.value) else None
  {
    hide IsBlank;
    BestApart(most, [last], kind);
    assert [last][1..] == [];
  }

  lemma {:induction false} HeldIsFound(list: seq<Signal>, s: Signal, kind: SignalKind)
    requires s in list && Usable(s, kind)
    ensures BestOf(list, kind).Some?
  {
    hide IsBlank;
    if list[0] != s {
      assert s in list[1..];
      HeldIsFound(list[1..], s, kind);
    }
  }

  lemma {:induction false} WithoutLeads(signals: seq<Signal>, gone: seq<Signal>, kind: SignalKind)
    requires !Carries(gone, kind)
    ensures BestOf(Without(signals, gone), kind) == BestOf(signals, kind)
  {
    hide IsBlank;
    if signals != [] {
      WithoutLeads(signals[1..], gone, kind);
      BestApart(if signals[0] in gone then [] else [signals[0]], Without(signals[1..], gone), kind);
      assert [signals[0]][1..] == [];
    }
  }

  // A batch that carries the kind decides its value; one that does not leaves it.
  lemma MergedLeads(signals: seq<Signal>, incoming: seq<Signal>, kind: SignalKind)
    ensures BestOf(Merged(signals, incoming), kind)
         == if Carries(incoming, kind) then BestOf(incoming, kind) else BestOf(signals, kind)
  {
    hide BestOf, Usable;
    FirstsLead(incoming, kind);
    BestApart(Firsts(incoming), Without(signals, incoming), kind);
    BestLeads(incoming, kind);
    if Carries(incoming, kind) {
      var s :| s in incoming && Usable(s, kind);
      HeldIsFound(incoming, s, kind);
    } else {
      WithoutLeads(signals, incoming, kind);
      if BestOf(incoming, kind).Some? { LeaderCarried(incoming, kind, BestOf(incoming, kind).value); }
    }
  }

  // ---------- batches over a run ----------

  function FoldedOnto(start: seq<Signal>, batches: seq<seq<Signal>>): seq<Signal> {
    if batches == [] then start
    else Merged(FoldedOnto(start, batches[..|batches| - 1]), batches[|batches| - 1])
  }

  lemma FoldedOne(start: seq<Signal>, batch: seq<Signal>)
    ensures FoldedOnto(start, [batch]) == Merged(start, batch)
    ensures FoldedOnto(start, []) == start
  {
    assert [batch][..0] == [];
  }

  lemma {:induction false} FoldedApart(start: seq<Signal>, a: seq<seq<Signal>>, b: seq<seq<Signal>>)
    ensures FoldedOnto(start, a + b) == FoldedOnto(FoldedOnto(start, a), b)
  {
    hide Merged;
    if b == [] {
      assert a + b == a;
    } else {
      FoldedApart(start, a, b[..|b| - 1]);
      assert (a + b)[..|a + b| - 1] == a + b[..|b| - 1];
    }
  }

  // The value used is the first of its kind in the last batch that carried one.
  ghost predicate LatestTold(batches: seq<seq<Signal>>, kind: SignalKind, told: Option<string>) {
    match told
    case None => forall k :: 0 <= k < |batches| ==> !Carries(batches[k], kind)
    case Some(value) =>
      exists k :: 0 <= k < |batches| && Leads(batches[k], kind, value)
                  && forall j :: k < j < |batches| ==> !Carries(batches[j], kind)
  }

  lemma ToldMore(most: seq<seq<Signal>>, last: seq<Signal>, kind: SignalKind, told: Option<string>)
    requires LatestTold(most, kind, told)
    ensures Carries(last, kind) || LatestTold(most + [last], kind, told)
    ensures forall value :: Leads(last, kind, value) ==> LatestTold(most + [last], kind, Some(value))
  {
    hide Carries, Leads;
    var all := most + [last];
    assert forall j :: 0 <= j < |most| ==> all[j] == most[j];
    assert all[|most|] == last;
    if told.Some? && !Carries(last, kind) {
      var k :| 0 <= k < |most| && Leads(most[k], kind, told.value) && forall j :: k < j < |most| ==> !Carries(most[j], kind);
      assert Leads(all[k], kind, told.value);
    }
  }

  lemma {:induction false} FoldedLeads(batches: seq<seq<Signal>>, kind: SignalKind)
    ensures LatestTold(batches, kind, BestOf(FoldedOnto([], batches), kind))
  {
    if batches == [] {
      assert FoldedOnto([], batches) == [] && BestOf([], kind) == None;
    } else {
      hide Merged, BestOf, Carries, Leads, LatestTold;
      var most, last := batches[..|batches| - 1], batches[|batches| - 1];
      assert batches == most + [last];
      FoldedLeads(most, kind);
      MergedLeads(FoldedOnto([], most), last, kind);
      BestLeads(last, kind);
      ToldMore(most, last, kind, BestOf(FoldedOnto([], most), kind));
    }
  }

  function Singles(signals: seq<Signal>): seq<seq<Signal>> {
    seq(|signals|, i requires 0 <= i < |signals| => [signals[i]])
  }

  // The batches of evidence one call tells about a device: its vendor when it is
  // discovered, then the frame's own signals with the claims about the sender; a
  // claim about somebody else, or a signal added, by itself.
  function Told(env: Env, b: Book, step: Step, m: Mac): seq<seq<Signal>> {
    match step
    case Observe(obs) =>
      if !IsDevice(obs.mac) then []
      else
        var mid := PerformAll(env, b, Arrival(b, obs)).book;
        if m == obs.mac then
          (if m in b.devices then [] else [VendorSignals(env, m)])
          + [NonBlank(obs.signals) + Attribution.ShareOf(mid, obs, obs.claims, Attribution.Sender)]
        else Singles(Attribution.ShareOf(mid, obs, obs.claims, Attribution.Other(m)))
    case AddSignal(mac, signal, _) =>
      if mac == m && m in b.devices && !IsBlank(signal.value) then [[signal]] else []
    case _ => []
  }

  function ToldOver(env: Env, learning: bool, steps: seq<Step>, m: Mac): seq<seq<Signal>> {
    if steps == [] then []
    else
      var most := steps[..|steps| - 1];
      ToldOver(env, learning, most, m) + Told(env, Run(env, learning, most).book, steps[|steps| - 1], m)
  }

  function SignalsIn(b: Book, m: Mac): seq<Signal> {
    if m in b.devices then b.devices[m].signals else []
  }

  // Operations that tell nothing about a device leave its evidence alone.
  predicate TellsNothing(op: Op, m: Mac) {
    match op
    case Discover(obs) => obs.mac != m
    case Hear(obs, _, _, _) => obs.mac != m
    case Learn(mac, _, _) => mac != m
    case _ => true
  }

  lemma PerformSignals(env: Env, b: Book, op: Op, m: Mac)
    requires TellsNothing(op, m)
    ensures SignalsIn(Perform(env, b, op).book, m) == SignalsIn(b, m)
  {
    hide PerformHear, PerformLearn, PerformDiscover, BestOf, Swept, SweepEffects;
    if op.Discover? || op.Hear? || op.Learn? || op.Check? {
      Undisturbed(env, b, op, m);
    }
    if op.Check? && op.mac in b.devices { SweptSignals(env, b.devices[op.mac], op.now); }
  }

  lemma SweptSignals(env: Env, e: Entry, now: int)
    ensures Swept(env, e, now).signals == e.signals
  {}

  lemma {:induction false} AllSignals(env: Env, b: Book, ops: seq<Op>, m: Mac)
    requires forall op :: op in ops ==> TellsNothing(op, m)
    ensures SignalsIn(PerformAll(env, b, ops).book, m) == SignalsIn(b, m)
  {
    hide Perform, TellsNothing, SignalsIn;
    if ops != [] {
      var most := ops[..|ops| - 1];
      AllSignals(env, b, most, m);
      PerformSignals(env, PerformAll(env, b, most).book, ops[|ops| - 1], m);
    }
  }

  lemma HearFolds(env: Env, b: Book, obs: Observation, mine: seq<Signal>, unattributed: nat, first: bool)
    requires obs.mac in b.devices
    ensures SignalsIn(PerformHear(env, b, obs, mine, unattributed, first).book, obs.mac)
         == Merged(SignalsIn(b, obs.mac), NonBlank(obs.signals) + mine)
  {
    hide Merged, NonBlank, Resolve, Consider, Changes, HearingEffects, IsRecordable, IsLinkLocal, BestOf;
  }

  lemma LearnFolds(env: Env, b: Book, mac: Mac, signal: Signal, at: int)
    requires mac in b.devices && !IsBlank(signal.value)
    ensures SignalsIn(PerformLearn(env, b, mac, signal, at).book, mac) == Merged(SignalsIn(b, mac), [signal])
    ensures PerformLearn(env, b, mac, signal, at).book.devices.Keys == b.devices.Keys
  {
    hide Merged, Resolve, Consider, Changes, NameEffects, BestOf, IsBlank;
  }

  lemma {:induction false} LearnsFold(env: Env, b: Book, others: seq<(Mac, Signal)>, at: int, m: Mac)
    requires forall o :: o in others ==> !IsBlank(o.1.value) && o.0 in b.devices
    ensures SignalsIn(PerformAll(env, b, Learns(others, at)).book, m)
         == FoldedOnto(SignalsIn(b, m), Singles(Attribution.About(others, m)))
  {
    hide Perform, PerformLearn, IsBlank, Merged, SignalsIn, FoldedOnto;
    if others == [] {
      FoldedOne(SignalsIn(b, m), []);
    } else {
      var most, last := others[..|others| - 1], others[|others| - 1];
      assert others == most + [last] && last in others;
      LearnsFold(env, b, most, at, m);
      Attribution.LearnsRecord(env, b, most, at, m, last.1);
      var ops := Learns(others, at);
      assert ops[..|ops| - 1] == Learns(most, at);
      var mid := PerformAll(env, b, Learns(most, at)).book;
      var told := Attribution.About(most, m);
      LearnIsPerform(env, mid, last.0, last.1, at);
      Attribution.AboutAppend(most, last, m);
      hide Attribution.About;
      if last.0 == m {
        LearnFolds(env, mid, m, last.1, at);
        assert Singles(told + [last.1]) == Singles(told) + [[last.1]];
        FoldedApart(SignalsIn(b, m), Singles(told), [[last.1]]);
        FoldedOne(SignalsIn(mid, m), [last.1]);
      } else {
        PerformSignals(env, mid, Learn(last.0, last.1, at), m);
        assert told + [] == told;
      }
    }
  }

  lemma LearnIsPerform(env: Env, b: Book, mac: Mac, signal: Signal, at: int)
    ensures Perform(env, b, Learn(mac, signal, at)) == PerformLearn(env, b, mac, signal, at)
  {}

  lemma {:induction false} NobodysShare(others: seq<(Mac, Signal)>, m: Mac)
    requires forall o :: o in others ==> o.0 != m
    ensures Attribution.About(others, m) == []
  {
    if others != [] {
      NobodysShare(others[..|others| - 1], m);
      assert others[|others| - 1] in others;
    }
  }

  // One call folds in exactly what it tells, batch by batch.
  lemma StepFolds(env: Env, b: Book, step: Step, m: Mac)
    requires Sound(b)
    ensures SignalsIn(Apply(env, b, step).book, m) == FoldedOnto(SignalsIn(b, m), Told(env, b, step, m))
  {
    if step.Observe? && IsDevice(step.obs.mac) {
      ObserveFolds(env, b, step.obs, m);
    } else if step.AddSignal? {
      hide PerformLearn, Merged, IsBlank;
      FoldedOne(SignalsIn(b, m), [step.signal]);
      PerformOne(env, b, Learn(step.mac, step.signal, step.at));
      if step.mac == m && m in b.devices && !IsBlank(step.signal.value) {
        LearnFolds(env, b, m, step.signal, step.at);
      } else {
        UntoldLearn(env, b, step.mac, step.signal, step.at, m);
      }
    } else {
      hide PerformAll, IsGroup;
      FoldedOne(SignalsIn(b, m), []);
      AllSignals(env, b, Plan(env, b, step), m);
    }
  }

  lemma UntoldLearn(env: Env, b: Book, mac: Mac, signal: Signal, at: int, m: Mac)
    requires mac != m || m !in b.devices || IsBlank(signal.value)
    ensures SignalsIn(PerformLearn(env, b, mac, signal, at).book, m) == SignalsIn(b, m)
  {
    hide Merged, Resolve, Consider, Changes, NameEffects, BestOf, IsBlank;
  }

  lemma ArrivalFolds(env: Env, b: Book, obs: Observation, m: Mac)
    ensures SignalsIn(PerformAll(env, b, Arrival(b, obs)).book, m)
         == FoldedOnto(SignalsIn(b, m), if m == obs.mac && m !in b.devices then [VendorSignals(env, m)] else [])
  {
    hide Resolve, Arrival;
    ArrivalKnows(env, b, obs);
    FoldedOne(SignalsIn(b, m), VendorSignals(env, m));
    VendorMerges(env, m);
  }

  lemma VendorMerges(env: Env, m: Mac)
    ensures Merged([], VendorSignals(env, m)) == VendorSignals(env, m)
  {
    var signals := VendorSignals(env, m);
    if signals != [] {
      assert signals[..0] == [] && Firsts(signals[..0]) == [];
      assert Firsts(signals) == [] + [signals[0]] == signals;
    }
    assert signals + [] == signals;
  }

  lemma ObserveFolds(env: Env, b: Book, obs: Observation, m: Mac)
    requires Sound(b) && IsDevice(obs.mac)
    ensures SignalsIn(Apply(env, b, Observe(obs)).book, m) == FoldedOnto(SignalsIn(b, m), Told(env, b, Observe(obs), m))
  {
    hide Perform, PerformAll, IsGroup, Arrival, Merged, NonBlank, SignalsIn, VendorSignals, Attribution.ShareOf, Apply, Attribute;
    ThreeParts(env, b, obs);
    ArrivalKnows(env, b, obs);
    ArrivalFolds(env, b, obs, m);
    var mid := PerformAll(env, b, Arrival(b, obs)).book;
    var att := Attribute(mid, obs);
    AttributeShares(mid, obs, m);
    var hear := Hear(obs, att.mine, att.unattributed, obs.mac !in b.devices);
    HearIsPerform(env, mid, obs, att, obs.mac !in b.devices);
    var heard := Perform(env, mid, hear).book;
    LearnsFold(env, heard, att.others, obs.observedAt, m);
    var start := SignalsIn(b, m);
    if m == obs.mac {
      HearFolds(env, mid, obs, att.mine, att.unattributed, obs.mac !in b.devices);
      var vendor := if m in b.devices then [] else [VendorSignals(env, m)];
      FoldedApart(start, vendor, [NonBlank(obs.signals) + att.mine]);
      FoldedOne(SignalsIn(mid, m), NonBlank(obs.signals) + att.mine);
      FoldedOne(SignalsIn(heard, m), []);
      assert Singles([]) == [];
    } else {
      PerformSignals(env, mid, hear, m);
      FoldedOne(start, []);
    }
  }

  lemma HearIsPerform(env: Env, b: Book, obs: Observation, att: Attributed, first: bool)
    requires obs.mac in b.devices
    ensures var hear := Hear(obs, att.mine, att.unattributed, first);
            && Perform(env, b, hear) == PerformHear(env, b, obs, att.mine, att.unattributed, first)
            && Perform(env, b, hear).book.devices.Keys == b.devices.Keys
  {
    hide HearingEffects, DeviceTable.Heard, Rescored, Reclassified, Changes;
  }

  lemma AttributeShares(mid: Book, obs: Observation, m: Mac)
    ensures var att := Attribute(mid, obs);
            && att.mine == Attribution.ShareOf(mid, obs, obs.claims, Attribution.Sender)
            && Attribution.About(att.others, m)
               == (if m == obs.mac then [] else Attribution.ShareOf(mid, obs, obs.claims, Attribution.Other(m)))
            && forall o :: o in att.others ==> !IsBlank(o.1.value) && o.0 in mid.devices
  {
    hide IsBlank, AttributeAll, Attribution.ShareOf, Attribution.About;
    Attribution.ClaimsSorted(mid, obs, obs.claims);
    Attribution.SortedForObserve(mid, obs, m, Signal(MacKind, ""));
    if m == obs.mac {
      NobodysShare(Attribute(mid, obs).others, m);
    }
  }

  lemma {:induction false} EvidenceIsFolded(env: Env, learning: bool, steps: seq<Step>, m: Mac)
    ensures SignalsIn(Run(env, learning, steps).book, m) == FoldedOnto([], ToldOver(env, learning, steps, m))
  {
    hide Apply, Run, Told, Merged, SignalsIn;
    RunNothing(env, learning);
    if steps == [] {
      NothingHeld(learning, m);
    } else {
      var most := steps[..|steps| - 1];
      EvidenceIsFolded(env, learning, most, m);
      RunLast(env, learning, steps);
      RunSound(env, learning, most);
      var b := Run(env, learning, most).book;
      StepFolds(env, b, steps[|steps| - 1], m);
      FoldedApart([], ToldOver(env, learning, most, m), Told(env, b, steps[|steps| - 1], m));
    }
  }

  lemma NothingHeld(learning: bool, m: Mac)
    ensures SignalsIn(EmptyBook(learning), m) == []
  {}

  // On every run, of every kind, a device uses the first non-blank value in the
  // last batch told about it that carried one.
  lemma BestIsLatest(env: Env, learning: bool, steps: seq<Step>, m: Mac, kind: SignalKind)
    requires m in Run(env, learning, steps).book.devices
    ensures LatestTold(ToldOver(env, learning, steps, m), kind, Run(env, learning, steps).book.devices[m].Best(kind))
  {
    hide Run, ToldOver, BestOf, LatestTold;
    EvidenceIsFolded(env, learning, steps, m);
    FoldedLeads(ToldOver(env, learning, steps, m), kind);
  }

  // ---------- the name that wins ----------

  lemma {:induction false} UsableIsBest(signals: seq<Signal>, kind: SignalKind)
    ensures FirstUsable(signals, kind)
         == if BestOf(signals, kind).Some? then Some(Trim(BestOf(signals, kind).value)) else None
  {
    hide IsBlank, Trim;
    if signals != [] {
      UsableIsBest(signals[1..], kind);
    }
  }

  // Kinds that name a device, by what they can be trusted with.
  predicate Names(kind: SignalKind) {
    kind == UserAssigned || kind in NAMING
  }

  lemma {:induction false} FirstNamingIs(signals: seq<Signal>, kinds: seq<SignalKind>)
    ensures match FirstNaming(signals, kinds)
            case None => forall k :: k in kinds ==> FirstUsable(signals, k).None?
            case Some(i) => i.source in kinds && FirstUsable(signals, i.source) == Some(i.displayName)
  {
    if kinds != [] {
      FirstNamingIs(signals, kinds[1..]);
    }
  }

  // The winner is the latest value of the heaviest kind there is; with no name at
  // all the vendor and what the device is, and with no vendor the address.
  lemma WinnerIsLatest(mac: Mac, signals: seq<Signal>, deviceType: Option<string>)
    ensures var r := Resolve(mac, signals, deviceType);
            && (Names(r.source) ==> BestOf(signals, r.source).Some? && r.displayName == Trim(BestOf(signals, r.source).value))
            && (!Names(r.source) ==> forall k :: Names(k) ==> BestOf(signals, k).None?)
            && (r.source == Vendor ==>
                  && BestOf(signals, Vendor).Some?
                  && r.displayName == Trim(BestOf(signals, Vendor).value) + " "
                       + (if deviceType.Some? && !IsBlank(deviceType.value) then Trim(deviceType.value) else "device"))
            && (r.source == MacKind ==> BestOf(signals, Vendor).None? && r.displayName == MacText(mac))
            && (Names(r.source) || r.source == Vendor || r.source == MacKind)
  {
    hide IsBlank, Trim, MacText, BestOf, FirstUsable, FirstNaming;
    FirstNamingIs(signals, NAMING);
    forall k
      ensures FirstUsable(signals, k) == if BestOf(signals, k).Some? then Some(Trim(BestOf(signals, k).value)) else None
    {
      UsableIsBest(signals, k);
    }
  }
}
