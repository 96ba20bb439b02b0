/**
 Name stability: what a run of rename decisions does to one device's identity,
 and how many renames a run of the manager can announce.
 */
module DeviceNaming {
  import opened Options
  import opened Types
  import opened Identities
  import opened DeviceTable
  import opened DeviceTableFacts
  import opened DeviceSessions

  function NamingOf(e: Entry): Naming {
    Naming(e.identity, e.pending)
  }

  // The decision applied to a log, oldest first.
  function NamingAfter(n: Naming, log: seq<Rescoring>): Naming {
    if log == [] then n
    else
      var r := log[|log| - 1];
      Consider(NamingAfter(n, log[..|log| - 1]), r.candidate, r.at)
  }

  ghost predicate Ordered(log: seq<Rescoring>) {
    forall i, j :: 0 <= i < j < |log| ==> log[i].at <= log[j].at
  }

  // Entries j..k of the log are all rivals of the same name against one and the
  // same incumbent.
  ghost predicate Unbroken(n: Naming, log: seq<Rescoring>, j: nat, k: nat, incumbent: Identity, name: string)
    requires k <= |log|
  {
    forall i :: j <= i < k ==>
      && NamingAfter(n, log[..i]).identity == incumbent
      && log[i].candidate.confidence == incumbent.confidence
      && log[i].candidate.displayName == name != incumbent.displayName
  }

  lemma NamingNothing(n: Naming, log: seq<Rescoring>)
    ensures NamingAfter(n, log[..0]) == n
  {}

  lemma NamingStep(n: Naming, log: seq<Rescoring>, k: nat)
    requires k < |log|
    ensures NamingAfter(n, log[..k + 1]) == Consider(NamingAfter(n, log[..k]), log[k].candidate, log[k].at)
  {
    assert log[..k + 1][..k] == log[..k];
  }

  // The pending clock reads the start of the unbroken run that ends here, and
  // there is one exactly when the last decision was such a run.
  lemma {:induction false} PendingIsRunStart(n: Naming, log: seq<Rescoring>, k: nat) returns (start: nat)
    requires k <= |log| && n.pending.None? && Ordered(log)
    ensures var now := NamingAfter(n, log[..k]);
            now.pending.Some? ==>
              && start < k
              && now.pending.value.since == log[start].at
              && Unbroken(n, log, start, k, now.identity, now.pending.value.identity.displayName)
    ensures var now := NamingAfter(n, log[..k]);
            forall j: nat, name :: j < k && Unbroken(n, log, j, k, now.identity, name) ==>
              && now.pending.Some?
              && now.pending.value.identity.displayName == name
              && start <= j
  {
    hide NamingAfter;
    if k == 0 {
      NamingNothing(n, log);
      start := 0;
    } else {
      start := PendingIsRunStart(n, log, k - 1);
      NamingStep(n, log, k - 1);
      var before := NamingAfter(n, log[..k - 1]);
      var now := NamingAfter(n, log[..k]);
      var r := log[k - 1];
      if now.pending.Some? {
        if !(before.pending.Some? && before.pending.value.identity.displayName == r.candidate.displayName) {
          start := k - 1;
        }
      }
      forall j: nat, name | j < k && Unbroken(n, log, j, k, now.identity, name)
        ensures now.pending.Some? && now.pending.value.identity.displayName == name && start <= j
      {
        assert before.identity == now.identity;
        if j < k - 1 {
          assert Unbroken(n, log, j, k - 1, before.identity, name);
        }
      }
    }
  }

  // Exactly when a decision changes the identity: the candidate outranks it, or
  // the same equal-rank name has won every decision, against this incumbent,
  // over at least the settle window.
  lemma AdoptedExactlyWhen(n: Naming, log: seq<Rescoring>, k: nat)
    requires k < |log| && n.pending.None? && Ordered(log)
    ensures var incumbent := NamingAfter(n, log[..k]).identity;
            var r := log[k];
            NamingAfter(n, log[..k + 1]).identity != incumbent <==>
              || r.candidate.confidence > incumbent.confidence
              || exists j: nat :: j <= k && r.at - log[j].at >= 300 * SECOND
                                  && Unbroken(n, log, j, k + 1, incumbent, r.candidate.displayName)
    ensures NamingAfter(n, log[..k + 1]).identity in {NamingAfter(n, log[..k]).identity, log[k].candidate}
  {
    hide NamingAfter;
    var before := NamingAfter(n, log[..k]);
    var incumbent := before.identity;
    var r := log[k];
    var name := r.candidate.displayName;
    NamingStep(n, log, k);
    var start := PendingIsRunStart(n, log, k);
    if NamingAfter(n, log[..k + 1]).identity != incumbent && Compare(r.candidate, incumbent) == Rival {
      assert Unbroken(n, log, start, k + 1, incumbent, name);
      assert r.at - log[start].at >= SETTLE_WINDOW;
    }
    if j: nat :| j <= k && r.at - log[j].at >= SETTLE_WINDOW && Unbroken(n, log, j, k + 1, incumbent, name) {
      assert j < k;
      assert Compare(r.candidate, incumbent) == Rival;
      assert Unbroken(n, log, j, k, incumbent, name);
      assert log[start].at <= log[j].at;
    }
  }

  // Two names that take turns never displace each other, however long they go on.
  lemma {:induction false} AlternatingNeverSettles(n: Naming, log: seq<Rescoring>, k: nat)
    requires k <= |log| && n.pending.None? && Ordered(log)
    requires forall i :: 0 <= i < |log| ==> log[i].candidate.confidence == n.identity.confidence
    requires forall i :: 0 <= i < |log| - 1 ==> log[i].candidate.displayName != log[i + 1].candidate.displayName
    ensures NamingAfter(n, log[..k]).identity == n.identity
  {
    hide NamingAfter;
    if k == 0 {
      NamingNothing(n, log);
    } else {
      AlternatingNeverSettles(n, log, k - 1);
      AdoptedExactlyWhen(n, log, k - 1);
      var r := log[k - 1];
      forall j: nat | j <= k - 1 && r.at - log[j].at >= SETTLE_WINDOW
        ensures !Unbroken(n, log, j, k, n.identity, r.candidate.displayName)
      {
        assert log[k - 2].candidate.displayName != r.candidate.displayName;
      }
    }
  }

  // ---------- counting adoptions ----------

  function Adoptions(n: Naming, log: seq<Rescoring>): nat {
    if log == [] then 0
    else
      var before := log[..|log| - 1];
      Adoptions(n, before) + (if NamingAfter(n, log).identity != NamingAfter(n, before).identity then 1 else 0)
  }

  lemma RungRises(a: Identity, b: Identity)
    requires WellRanked(a) && WellRanked(b) && a.confidence < b.confidence
    ensures Rung(a.confidence) < Rung(b.confidence)
  {}

  // One decision: a promotion climbs a rung, a rival that settles has waited a
  // window since `last`, and anything else leaves the identity alone.
  lemma OneAdoption(was: Naming, candidate: Identity, at: int, last: int)
    requires WellRanked(was.identity) && WellRanked(candidate) && last <= at
    requires was.pending.Some? ==> last <= was.pending.value.since && WellRanked(was.pending.value.identity)
    ensures var now := Consider(was, candidate, at);
            && WellRanked(now.identity)
            && was.identity.confidence <= now.identity.confidence
            && (now.pending.Some? ==> last <= now.pending.value.since && WellRanked(now.pending.value.identity))
            && (now.identity != was.identity ==>
                  && now.pending.None?
                  && if Compare(candidate, was.identity) == Better
                     then Rung(was.identity.confidence) + 1 <= Rung(now.identity.confidence)
                     else now.identity.confidence == was.identity.confidence && last + SETTLE_WINDOW <= at)
  {
    hide WellRanked, Rung;
    if Compare(candidate, was.identity) == Better {
      RungRises(was.identity, candidate);
    }
  }

  lemma OneDecisionMore(n: Naming, log: seq<Rescoring>)
    requires log != []
    ensures var before, r := log[..|log| - 1], log[|log| - 1];
            && NamingAfter(n, log) == Consider(NamingAfter(n, before), r.candidate, r.at)
            && Adoptions(n, log)
               == Adoptions(n, before) + (if NamingAfter(n, log).identity != NamingAfter(n, before).identity then 1 else 0)
  {
    hide Consider;
  }

  // Each promotion climbs a rung and each settled rival spends a window: so many
  // promotions and rivals, the last at `last`.
  ghost predicate Split(n: Naming, log: seq<Rescoring>, start: int, promotions: nat, rivals: nat, last: int) {
    var now := NamingAfter(n, log);
    && Adoptions(n, log) == promotions + rivals
    && WellRanked(now.identity)
    && n.identity.confidence <= now.identity.confidence
    && Rung(n.identity.confidence) + promotions <= Rung(now.identity.confidence)
    && start + rivals * SETTLE_WINDOW <= last
    && (last == start || (log != [] && last <= log[|log| - 1].at))
    && (now.pending.Some? ==> last <= now.pending.value.since && WellRanked(now.pending.value.identity))
  }

  lemma WindowMore(rivals: nat)
    ensures (rivals + 1) * SETTLE_WINDOW == rivals * SETTLE_WINDOW + SETTLE_WINDOW
  {}

  lemma SplitMore(n: Naming, log: seq<Rescoring>, start: int, p: nat, r: nat, at: int)
    returns (promotions: nat, rivals: nat, last: int)
    requires log != [] && Split(n, log[..|log| - 1], start, p, r, at)
    requires log[|log| - 1].at >= at && WellRanked(log[|log| - 1].candidate)
    ensures Split(n, log, start, promotions, rivals, last)
  {
    hide WellRanked, Rung, Consider, Compare;
    promotions, rivals, last := p, r, at;
    var was, next := NamingAfter(n, log[..|log| - 1]), log[|log| - 1];
    OneDecisionMore(n, log);
    hide NamingAfter, Adoptions;
    OneAdoption(was, next.candidate, next.at, at);
    WindowMore(r);
    if NamingAfter(n, log).identity != was.identity {
      last := next.at;
      if Compare(next.candidate, was.identity) == Better {
        promotions := p + 1;
      } else {
        rivals := r + 1;
      }
    }
  }

  lemma NothingSplit(n: Naming, start: int)
    requires n.pending.None? && WellRanked(n.identity)
    ensures Split(n, [], start, 0, 0, start)
  {}

  lemma {:induction false} AdoptionsSplit(n: Naming, log: seq<Rescoring>, start: int)
    returns (promotions: nat, rivals: nat, last: int)
    requires n.pending.None? && WellRanked(n.identity) && Ordered(log)
    requires forall r :: r in log ==> r.at >= start && WellRanked(r.candidate)
    ensures Split(n, log, start, promotions, rivals, last)
  {
    hide WellRanked;
    if log == [] {
      promotions, rivals, last := 0, 0, start;
      NothingSplit(n, start);
      hide Split;
    } else {
      var before, r := log[..|log| - 1], log[|log| - 1];
      assert r in log;
      promotions, rivals, last := AdoptionsSplit(n, before, start);
      if before != [] { assert before[|before| - 1].at <= r.at; }
      assert last <= r.at;
      hide Split;
      promotions, rivals, last := SplitMore(n, log, start, promotions, rivals, last);
    }
  }

  lemma AdoptionsBounded(n: Naming, log: seq<Rescoring>, start: int, until: int)
    requires n.pending.None? && WellRanked(n.identity) && Ordered(log)
    requires forall r :: r in log ==> start <= r.at <= until && WellRanked(r.candidate)
    requires start <= until
    ensures Adoptions(n, log) <= |RANKS| - 1 + (until - start) / SETTLE_WINDOW
    ensures n.identity.confidence <= NamingAfter(n, log).identity.confidence
  {
    hide NamingAfter, Adoptions, WellRanked, Rung;
    var promotions, rivals, last := AdoptionsSplit(n, log, start);
    assert last <= until by {
      if log != [] { assert log[|log| - 1] in log; }
    }
    WindowsFit(rivals, until - start);
  }

  lemma WindowsFit(count: nat, span: nat)
    requires count * SETTLE_WINDOW <= span
    ensures count <= span / SETTLE_WINDOW
  {}

  lemma {:induction false} NamingAppend(n: Naming, first: seq<Rescoring>, next: seq<Rescoring>)
    ensures NamingAfter(n, first + next) == NamingAfter(NamingAfter(n, first), next)
    ensures Adoptions(n, first + next) == Adoptions(n, first) + Adoptions(NamingAfter(n, first), next)
  {
    if next == [] {
      assert first + next == first;
    } else {
      var all := first + next;
      assert all[..|all| - 1] == first + next[..|next| - 1];
      NamingAppend(n, first, next[..|next| - 1]);
    }
  }

  // ---------- from decisions to runs of the manager ----------

  // One device's share of a log.
  function LogOf(log: seq<Rescoring>, m: Mac): seq<Rescoring> {
    if log == [] then []
    else LogOf(log[..|log| - 1], m) + (if log[|log| - 1].mac == m then [log[|log| - 1]] else [])
  }

  lemma {:induction false} LogAppend(first: seq<Rescoring>, next: seq<Rescoring>, m: Mac)
    ensures LogOf(first + next, m) == LogOf(first, m) + LogOf(next, m)
  {
    if next == [] {
      assert first + next == first;
    } else {
      var all := first + next;
      assert all[..|all| - 1] == first + next[..|next| - 1];
      LogAppend(first, next[..|next| - 1], m);
    }
  }

  lemma {:induction false} CountAppend(first: seq<Effect>, next: seq<Effect>, t: EventType, m: Mac)
    ensures Count(first + next, t, m) == Count(first, t, m) + Count(next, t, m)
  {
    if next == [] {
      assert first + next == first;
    } else {
      var all := first + next;
      assert all[..|all| - 1] == first + next[..|next| - 1];
      CountAppend(first, next[..|next| - 1], t, m);
    }
  }

  // The name a device starts with, from its vendor alone.
  function FirstNaming(env: Env, m: Mac): Naming {
    Naming(Resolve(m, VendorSignals(env, m), None), None)
  }

  function NamingIn(env: Env, b: Book, m: Mac): Naming {
    if m in b.devices then NamingOf(b.devices[m]) else FirstNaming(env, m)
  }

  // What one stretch of a run did to one device's name: its share of the log
  // explains the change, and no more renames were announced than adopted.
  ghost predicate Explains(env: Env, b: Book, o: Outcome, m: Mac) {
    var log := LogOf(o.rescorings, m);
    && NamingIn(env, o.book, m) == NamingAfter(NamingIn(env, b, m), log)
    && Count(o.effects, NameUpdated, m) <= Adoptions(NamingIn(env, b, m), log)
  }

  // Every adoption of the stretch was announced.
  ghost predicate Audible(env: Env, b: Book, o: Outcome, m: Mac) {
    Count(o.effects, NameUpdated, m) == Adoptions(NamingIn(env, b, m), LogOf(o.rescorings, m))
  }

  // The one decision that is not announced: a device's discovery says its name.
  predicate Hushed(op: Op, m: Mac) {
    op.Hear? && op.first && op.obs.mac == m
  }

  lemma OneRescoring(n: Naming, r: Rescoring)
    ensures NamingAfter(n, [r]) == Consider(n, r.candidate, r.at)
    ensures Adoptions(n, [r]) == if Consider(n, r.candidate, r.at).identity != n.identity then 1 else 0
    ensures LogOf([r], r.mac) == [r]
    ensures forall m :: m != r.mac ==> LogOf([r], m) == []
  {
    assert [r][..0] == [];
  }

  lemma {:induction false} NoRenameIn(effects: seq<Effect>, m: Mac)
    requires forall e :: e in effects ==> !e.Announces(NameUpdated, m)
    ensures Count(effects, NameUpdated, m) == 0
  {
    if effects != [] {
      NoRenameIn(effects[..|effects| - 1], m);
    }
  }

  lemma NameEffectsCount(before: Entry, after: Entry, interface: Option<string>, at: int, learning: bool, quiet: bool, m: Mac)
    ensures Count(NameEffects(before, after, interface, at, learning, quiet), NameUpdated, m)
         == if after.mac == m && before.identity != after.identity && !quiet then 1 else 0
  {
    hide BestOf, IsBlank;
    var effects := NameEffects(before, after, interface, at, learning, quiet);
    if effects != [] {
      assert effects[..0] == [];
    }
  }

  lemma HeardNaming(e: Entry, obs: Observation, mine: seq<Signal>)
    ensures Heard(e, obs, mine).mac == e.mac && NamingOf(Heard(e, obs, mine)) == NamingOf(e)
  {}

  lemma NoLog(m: Mac)
    ensures LogOf([], m) == [] && forall n :: NamingAfter(n, []) == n && Adoptions(n, []) == 0
    ensures forall t :: Count([], t, m) == 0
  {}

  lemma HearExplains(env: Env, b: Book, obs: Observation, mine: seq<Signal>, unattributed: nat, first: bool, m: Mac)
    requires Sound(b)
    ensures var o := PerformHear(env, b, obs, mine, unattributed, first);
            && Explains(env, b, o, m)
            && (if first && obs.mac == m then Count(o.effects, NameUpdated, m) == 0 else Audible(env, b, o, m))
  {
    hide Resolve, Consider, Merged, Changes, NonBlank, RevivalEffects, AddressEffects, NameEffects, BestOf, IsBlank,
         Heard, Adoptions, NamingAfter, LogOf, Count, EvidenceEffects;
    var o := PerformHear(env, b, obs, mine, unattributed, first);
    NoLog(m);
    if obs.mac in b.devices {
      var e := b.devices[obs.mac];
      var at := obs.observedAt;
      var heard := Heard(e, obs, mine);
      HeardNaming(e, obs, mine);
      OneRescoring(NamingOf(heard), Rescoring(obs.mac, Candidate(heard), at));
      QuietParts(e, obs, mine, b.learning, m);
      var quiet := RevivalEffects(Touched(e, at), obs, b.learning)
                   + AddressEffects(Revived(Touched(e, at)), obs, b.learning)
                   + EvidenceEffects(e.mac, NonBlank(obs.signals) + mine, at);
      var name := NameEffects(heard, Rescored(heard, at), Some(obs.interface), at, b.learning, first);
      NoRenameIn(quiet, m);
      CountAppend(quiet, name, NameUpdated, m);
      NameEffectsCount(heard, Rescored(heard, at), Some(obs.interface), at, b.learning, first, m);
    }
  }

  lemma QuietParts(e: Entry, obs: Observation, mine: seq<Signal>, learning: bool, m: Mac)
    ensures var at := obs.observedAt;
            var quiet := RevivalEffects(Touched(e, at), obs, learning)
                         + AddressEffects(Revived(Touched(e, at)), obs, learning)
                         + EvidenceEffects(e.mac, NonBlank(obs.signals) + mine, at);
            forall x :: x in quiet ==> !x.Announces(NameUpdated, m)
  {
    hide BestOf, IsBlank, IsRecordable, IsLinkLocal, NonBlank, Ipv4Of;
  }

  lemma LearnExplains(env: Env, b: Book, mac: Mac, signal: Signal, at: int, m: Mac)
    requires Sound(b)
    ensures var o := PerformLearn(env, b, mac, signal, at);
            Explains(env, b, o, m) && Audible(env, b, o, m)
  {
    hide Resolve, Consider, Merged, Changes, NameEffects, BestOf, IsBlank, Adoptions, NamingAfter, LogOf, Count;
    var o := PerformLearn(env, b, mac, signal, at);
    NoLog(m);
    if o.effects != [] {
      var e := b.devices[mac];
      var informed := e.(signals := Merged(e.signals, [signal]), dirty := true);
      var named := if signal !in e.signals then Rescored(informed, at) else informed;
      OneRescoring(NamingOf(informed), Rescoring(mac, Candidate(informed), at));
      var name := NameEffects(informed, named, e.lastInterface, at, b.learning, false);
      NoRenameIn([Evidence(mac, signal, at)], m);
      CountAppend([Evidence(mac, signal, at)], name, NameUpdated, m);
      NameEffectsCount(informed, named, e.lastInterface, at, b.learning, false, m);
    }
  }

  lemma PerformExplains(env: Env, b: Book, op: Op, m: Mac)
    requires Sound(b)
    ensures var o := Perform(env, b, op);
            && Explains(env, b, o, m)
            && (if Hushed(op, m) then Count(o.effects, NameUpdated, m) == 0 else Audible(env, b, o, m))
  {
    hide Resolve, PerformHear, PerformLearn, BestOf, IsBlank, Ipv4Of, Count, Adoptions, NamingAfter, LogOf;
    NoLog(m);
    match op {
      case Hear(obs, mine, unattributed, first) => HearExplains(env, b, obs, mine, unattributed, first, m);
      case Learn(mac, signal, at) => LearnExplains(env, b, mac, signal, at, m);
      case _ => NoRenameIn(Perform(env, b, op).effects, m);
    }
  }

  lemma ExplainsThen(env: Env, b: Book, first: Outcome, next: Outcome, m: Mac)
    requires Explains(env, b, first, m) && Explains(env, first.book, next, m)
    ensures Explains(env, b, first.Then(next), m)
  {
    hide Consider, Resolve;
    LogAppend(first.rescorings, next.rescorings, m);
    CountAppend(first.effects, next.effects, NameUpdated, m);
    NamingAppend(NamingIn(env, b, m), LogOf(first.rescorings, m), LogOf(next.rescorings, m));
  }

  lemma {:induction false} PerformAllExplains(env: Env, b: Book, ops: seq<Op>, m: Mac)
    requires Sound(b)
    ensures Explains(env, b, PerformAll(env, b, ops), m)
  {
    hide Perform, Resolve;
    if ops != [] {
      var most := ops[..|ops| - 1];
      PerformAllExplains(env, b, most, m);
      PerformAllSound(env, b, most);
      var before := PerformAll(env, b, most);
      PerformExplains(env, before.book, ops[|ops| - 1], m);
      ExplainsThen(env, b, before, Perform(env, before.book, ops[|ops| - 1]), m);
    }
  }

  // Every device's current name is what its log of decisions makes of its first
  // name, and every announced rename was an adoption.
  lemma {:induction false} RunExplains(env: Env, learning: bool, steps: seq<Step>, m: Mac)
    ensures Explains(env, EmptyBook(learning), Run(env, learning, steps), m)
  {
    hide Apply, Plan, Resolve;
    if steps != [] {
      var most := steps[..|steps| - 1];
      RunExplains(env, learning, most, m);
      RunSound(env, learning, most);
      var before := Run(env, learning, most);
      ApplyExplains(env, before.book, steps[|steps| - 1], m);
      ExplainsThen(env, EmptyBook(learning), before, Apply(env, before.book, steps[|steps| - 1]), m);
    }
  }

  lemma ApplyExplains(env: Env, b: Book, step: Step, m: Mac)
    requires Sound(b)
    ensures Explains(env, b, Apply(env, b, step), m)
  {
    hide Plan, PerformAll, Explains;
    PerformAllExplains(env, b, Plan(env, b, step), m);
  }

  // ---------- which adoptions are announced ----------

  // Adoptions, the discovery's own decision left out.
  function Announced(n: Naming, log: seq<Rescoring>, isNew: bool): nat {
    if isNew && log != [] then Adoptions(NamingAfter(n, log[..1]), log[1..]) else Adoptions(n, log)
  }

  lemma AudibleThen(env: Env, b: Book, first: Outcome, next: Outcome, m: Mac)
    requires Explains(env, b, first, m) && Audible(env, b, first, m) && Audible(env, first.book, next, m)
    ensures Audible(env, b, first.Then(next), m)
  {
    hide Consider, Resolve;
    LogAppend(first.rescorings, next.rescorings, m);
    CountAppend(first.effects, next.effects, NameUpdated, m);
    NamingAppend(NamingIn(env, b, m), LogOf(first.rescorings, m), LogOf(next.rescorings, m));
  }

  lemma {:induction false} AllAudible(env: Env, b: Book, ops: seq<Op>, m: Mac)
    requires Sound(b) && forall op :: op in ops ==> !Hushed(op, m)
    ensures Audible(env, b, PerformAll(env, b, ops), m)
  {
    hide Perform, Resolve, Hushed, Explains, Audible;
    if ops == [] {
      NothingAudible(env, b, m);
    } else {
      var most, op := ops[..|ops| - 1], ops[|ops| - 1];
      AllAudible(env, b, most, m);
      PerformAllExplains(env, b, most, m);
      PerformAllSound(env, b, most);
      var before := PerformAll(env, b, most);
      PerformExplains(env, before.book, op, m);
      AudibleThen(env, b, before, Perform(env, before.book, op), m);
    }
  }

  lemma NothingAudible(env: Env, b: Book, m: Mac)
    ensures Audible(env, b, Silent(b), m)
  {
    NoLog(m);
  }

  // What one call does to the announcements of a device known before it, or not.
  ghost predicate Replays(env: Env, b: Book, o: Outcome, m: Mac) {
    var log := LogOf(o.rescorings, m);
    && Count(o.effects, NameUpdated, m) == Announced(NamingIn(env, b, m), log, m !in b.devices)
    && (m !in o.book.devices ==> log == [])
    && (m !in b.devices && m in o.book.devices ==> log != [])
  }

  lemma StepReplays(env: Env, b: Book, step: Step, m: Mac)
    requires Sound(b)
    ensures Replays(env, b, Apply(env, b, step), m)
  {
    hide Perform, PerformAll, Attribute, IsGroup, Resolve, Adoptions, NamingAfter, LogOf, Count, Arrival, IsRecordable;
    NoLog(m);
    if step.Observe? && IsDevice(step.obs.mac) && step.obs.mac == m && m !in b.devices {
      DiscoveryReplays(env, b, step.obs);
    } else {
      var ops := Plan(env, b, step);
      forall op | op in ops
        ensures !Hushed(op, m) && !(op.Discover? && op.obs.mac == m && m !in b.devices)
      {
        PlanHushes(env, b, step, op, m);
      }
      AllAudible(env, b, ops, m);
      if m !in b.devices {
        StaysUnknown(env, b, ops, m);
      } else {
        StaysKnown(env, b, ops, m);
      }
    }
  }

  lemma PlanHushes(env: Env, b: Book, step: Step, op: Op, m: Mac)
    requires op in Plan(env, b, step)
    ensures Hushed(op, m) || (op.Discover? && op.obs.mac == m) ==>
              step.Observe? && IsDevice(step.obs.mac) && step.obs.mac == m && m !in b.devices
  {
    hide PerformAll, Attribute, IsGroup, IsRecordable;
  }

  // A device nobody discovers stays unknown, and nothing is decided about it.
  lemma {:induction false} StaysUnknown(env: Env, b: Book, ops: seq<Op>, m: Mac)
    requires Sound(b) && m !in b.devices && forall op :: op in ops ==> !(op.Discover? && op.obs.mac == m)
    ensures var o := PerformAll(env, b, ops);
            m !in o.book.devices && LogOf(o.rescorings, m) == []
  {
    hide Perform;
    if ops != [] {
      var most, op := ops[..|ops| - 1], ops[|ops| - 1];
      StaysUnknown(env, b, most, m);
      PerformAllSound(env, b, most);
      var before := PerformAll(env, b, most);
      UnknownUndecided(env, before.book, op, m);
      LogAppend(before.rescorings, Perform(env, before.book, op).rescorings, m);
    }
  }

  lemma UnknownUndecided(env: Env, b: Book, op: Op, m: Mac)
    requires Sound(b) && m !in b.devices && !(op.Discover? && op.obs.mac == m)
    ensures var o := Perform(env, b, op);
            m !in o.book.devices && LogOf(o.rescorings, m) == []
  {
    hide Resolve, Consider, Merged, Changes, HearingEffects, NameEffects, DiscoveryEffects, SweepEffects, BestOf, IsBlank,
         NonBlank, EventFor, Heard, NewEntry, Swept;
    var o := Perform(env, b, op);
    NoLog(m);
    if o.rescorings != [] {
      OneRescoring(FirstNaming(env, m), o.rescorings[0]);
    }
  }

  // A first frame: the discovery decides nothing, the hearing decides quietly,
  // and whatever follows is announced.
  lemma DiscoveryReplays(env: Env, b: Book, obs: Observation)
    requires Sound(b) && IsDevice(obs.mac) && obs.mac !in b.devices
    ensures Replays(env, b, Apply(env, b, Observe(obs)), obs.mac)
  {
    hide Perform, PerformAll, Attribute, IsGroup, Resolve, Adoptions, NamingAfter, LogOf, Count, Arrival, IsRecordable,
         Candidate, Heard, Consider;
    var m := obs.mac;
    NoLog(m);
    var arrival := PerformAll(env, b, Arrival(b, obs));
    ThreeParts(env, b, obs);
    ArrivalKnows(env, b, obs);
    ArrivalOps(b, obs, m);
    AllAudible(env, b, Arrival(b, obs), m);
    PerformAllExplains(env, b, Arrival(b, obs), m);
    PerformAllSound(env, b, Arrival(b, obs));
    var att := Attribute(arrival.book, obs);
    var hear := Hear(obs, att.mine, att.unattributed, true);
    var heard := Perform(env, arrival.book, hear);
    PerformExplains(env, arrival.book, hear, m);
    PerformSound(env, arrival.book, hear);
    HearDecides(env, arrival.book, hear);
    var ops := Learns(att.others, obs.observedAt);
    var learned := PerformAll(env, heard.book, ops);
    AllAudible(env, heard.book, ops, m);
    StaysKnown(env, heard.book, ops, m);
    LogAppend(arrival.rescorings, heard.rescorings, m);
    LogAppend(arrival.rescorings + heard.rescorings, learned.rescorings, m);
    CountAppend(arrival.effects, heard.effects, NameUpdated, m);
    CountAppend(arrival.effects + heard.effects, learned.effects, NameUpdated, m);
    var first, rest := LogOf(heard.rescorings, m), LogOf(learned.rescorings, m);
    assert [] + first + rest == first + rest;
    assert (first + rest)[..1] == first && (first + rest)[1..] == rest;
  }

  lemma ArrivalOps(b: Book, obs: Observation, m: Mac)
    ensures forall op :: op in Arrival(b, obs) ==> !Hushed(op, m)
  {}

  lemma HearDecides(env: Env, b: Book, hear: Op)
    requires hear.Hear? && hear.obs.mac in b.devices
    ensures |LogOf(Perform(env, b, hear).rescorings, hear.obs.mac)| == 1
    ensures hear.obs.mac in Perform(env, b, hear).book.devices
  {
    hide HearingEffects, Changes, Reclassified, Rescored, Heard, Candidate;
    OneRescoring(FirstNaming(env, hear.obs.mac), Perform(env, b, hear).rescorings[0]);
  }

  // On every run a device's announced renames are exactly the adoptions of its
  // decisions replayed in order, its discovery's own left out.
  lemma {:induction false} RenamesAreReplayed(env: Env, learning: bool, steps: seq<Step>, m: Mac)
    ensures var o := Run(env, learning, steps);
            && Count(o.effects, NameUpdated, m) == Announced(FirstNaming(env, m), LogOf(o.rescorings, m), true)
            && (m in o.book.devices <==> LogOf(o.rescorings, m) != [])
  {
    hide Apply, Plan, Resolve, Adoptions, NamingAfter, LogOf, Count;
    NoLog(m);
    if steps != [] {
      var most, step := steps[..|steps| - 1], steps[|steps| - 1];
      RenamesAreReplayed(env, learning, most, m);
      RunExplains(env, learning, most, m);
      RunSound(env, learning, most);
      var before := Run(env, learning, most);
      var o := Apply(env, before.book, step);
      StepReplays(env, before.book, step, m);
      var n, first, next := FirstNaming(env, m), LogOf(before.rescorings, m), LogOf(o.rescorings, m);
      LogAppend(before.rescorings, o.rescorings, m);
      CountAppend(before.effects, o.effects, NameUpdated, m);
      if m in before.book.devices {
        ApplyKnown(env, before.book, step, m);
        AnnouncedAppend(n, first, next);
        assert |first + next| > 0;
      } else {
        assert first + next == next;
      }
    }
  }

  lemma ApplyKnown(env: Env, b: Book, step: Step, m: Mac)
    requires m in b.devices
    ensures m in Apply(env, b, step).book.devices
  {
    hide Plan, PerformAll;
    StaysKnown(env, b, Plan(env, b, step), m);
  }

  lemma AnnouncedAppend(n: Naming, first: seq<Rescoring>, next: seq<Rescoring>)
    requires first != []
    ensures Announced(n, first + next, true) == Announced(n, first, true) + Adoptions(NamingAfter(n, first), next)
  {
    hide Consider;
    var head, tail := first[..1], first[1..];
    assert (first + next)[..1] == head && (first + next)[1..] == tail + next && head + tail == first;
    NamingAppend(n, head, tail);
    NamingAppend(NamingAfter(n, head), tail, next);
  }

  // ---------- times ----------

  // The clock reading of the calls that can rename a device.
  function Clock(step: Step): Option<int> {
    match step
    case Observe(obs) => Some(obs.observedAt)
    case AddSignal(_, _, at) => Some(at)
    case _ => None
  }

  ghost predicate ClockOrdered(steps: seq<Step>) {
    forall i, j :: 0 <= i < j < |steps| && Clock(steps[i]).Some? && Clock(steps[j]).Some? ==>
      Clock(steps[i]).value <= Clock(steps[j]).value
  }

  ghost predicate StampedBy(log: seq<Rescoring>, at: int) {
    forall r :: r in log ==> r.at == at && WellRanked(r.candidate)
  }

  // Every decision of one operation carries its time.
  predicate TimedBy(op: Op, at: int) {
    match op
    case Hear(obs, _, _, _) => obs.observedAt == at
    case Learn(_, _, t) => t == at
    case Discover(obs) => obs.observedAt == at
    case _ => true
  }

  lemma PerformStamped(env: Env, b: Book, op: Op, at: int)
    requires TimedBy(op, at)
    ensures StampedBy(Perform(env, b, op).rescorings, at)
  {
    hide Resolve, Consider, Merged, Changes, HearingEffects, NameEffects, DiscoveryEffects, SweepEffects, Heard, BestOf;
    forall e: Entry
      ensures WellRanked(Candidate(e))
    {
      ResolveRanked(e.mac, e.signals, e.classification.deviceType);
    }
  }

  lemma {:induction false} PerformAllStamped(env: Env, b: Book, ops: seq<Op>, at: int)
    requires forall op :: op in ops ==> TimedBy(op, at)
    ensures StampedBy(PerformAll(env, b, ops).rescorings, at)
  {
    hide Perform, TimedBy;
    if ops != [] {
      var most := ops[..|ops| - 1];
      PerformAllStamped(env, b, most, at);
      PerformStamped(env, PerformAll(env, b, most).book, ops[|ops| - 1], at);
    }
  }

  lemma ApplyStamped(env: Env, b: Book, step: Step)
    ensures var log := Apply(env, b, step).rescorings;
            if Clock(step).Some? then StampedBy(log, Clock(step).value) else log == []
  {
    hide Perform, Attribute, StampedBy, PerformAll, IsGroup, IsRecordable;
    match step {
      case Observe(obs) => PerformAllStamped(env, b, Plan(env, b, step), obs.observedAt);
      case AddSignal(mac, signal, at) => PerformAllStamped(env, b, Plan(env, b, step), at);
      case _ =>
        NoDecisions(env, b, Plan(env, b, step));
    }
  }

  lemma {:induction false} NoDecisions(env: Env, b: Book, ops: seq<Op>)
    requires forall op :: op in ops ==> !op.Hear? && !op.Learn?
    ensures PerformAll(env, b, ops).rescorings == []
  {
    hide PerformHear, PerformLearn, PerformDiscover, PerformCheck, Configured;
    if ops != [] {
      NoDecisions(env, b, ops[..|ops| - 1]);
      DecidesNothing(env, PerformAll(env, b, ops[..|ops| - 1]).book, ops[|ops| - 1]);
    }
  }

  lemma DecidesNothing(env: Env, b: Book, op: Op)
    requires !op.Hear? && !op.Learn?
    ensures Perform(env, b, op).rescorings == []
  {
    hide PerformHear, PerformLearn, NewEntry, DiscoveryEffects, Swept, SweepEffects, EventFor;
  }

  lemma OrderedAppend(first: seq<Rescoring>, next: seq<Rescoring>, bound: int)
    requires Ordered(first) && StampedBy(next, bound)
    requires forall r :: r in first ==> r.at <= bound
    ensures Ordered(first + next)
  {
    forall i, j | 0 <= i < j < |first + next|
      ensures (first + next)[i].at <= (first + next)[j].at
    {
      if j >= |first| {
        assert next[j - |first|] in next;
        if i < |first| { assert first[i] in first; } else { assert next[i - |first|] in next; }
      }
    }
  }

  // On a run whose clock never goes back, the log is in time order.
  lemma {:induction false} RunStamped(env: Env, learning: bool, steps: seq<Step>, until: int)
    requires ClockOrdered(steps)
    requires forall s :: s in steps && Clock(s).Some? ==> Clock(s).value <= until
    ensures var log := Run(env, learning, steps).rescorings;
            Ordered(log) && forall r :: r in log ==> r.at <= until && WellRanked(r.candidate)
  {
    hide Apply, Plan, WellRanked, Clock;
    if steps != [] {
      var most, step := steps[..|steps| - 1], steps[|steps| - 1];
      var b := Run(env, learning, most).book;
      ApplyStamped(env, b, step);
      if Clock(step).Some? {
        RunStamped(env, learning, most, Clock(step).value);
        OrderedAppend(Run(env, learning, most).rescorings, Apply(env, b, step).rescorings, Clock(step).value);
        assert step in steps;
      } else {
        RunStamped(env, learning, most, until);
      }
    }
  }

  lemma {:induction false} LogOfOrdered(log: seq<Rescoring>, m: Mac)
    requires Ordered(log)
    ensures Ordered(LogOf(log, m))
    ensures forall r :: r in LogOf(log, m) ==> r in log && r.mac == m
  {
    if log != [] {
      var most := log[..|log| - 1];
      LogOfOrdered(most, m);
      assert log == most + [log[|log| - 1]];
      var share := LogOf(most, m);
      forall r | r in share
        ensures r.at <= log[|log| - 1].at
      {
        var i :| 0 <= i < |most| && most[i] == r;
      }
    }
  }

  // ---------- the first sighting ----------

  // A device's decisions all come at or after it was first seen.
  ghost predicate SinceFirstSeen(b: Book, log: seq<Rescoring>) {
    forall r :: r in log ==> r.mac in b.devices && b.devices[r.mac].firstSeenAt <= r.at
  }

  ghost predicate SeenBy(b: Book, at: int) {
    forall m :: m in b.devices ==> b.devices[m].firstSeenAt <= at
  }

  lemma FirstSeenKept(env: Env, b: Book, op: Op, m: Mac)
    ensures var after := Perform(env, b, op).book;
            && (m in b.devices ==> m in after.devices && after.devices[m].firstSeenAt == b.devices[m].firstSeenAt)
            && (m in after.devices && m !in b.devices ==> op.Discover? && after.devices[m].firstSeenAt == op.obs.observedAt)
  {
    hide Resolve, Consider, Merged, Changes, HearingEffects, NameEffects, DiscoveryEffects, SweepEffects, BestOf,
         IsRecordable, IsLinkLocal, IsBlank, NonBlank, EventFor;
  }

  lemma DecidesKnown(env: Env, b: Book, op: Op, at: int)
    requires TimedBy(op, at)
    ensures forall r :: r in Perform(env, b, op).rescorings ==> r.mac in b.devices && r.at == at
  {
    hide Resolve, Consider, Merged, Changes, HearingEffects, NameEffects, NewEntry, DiscoveryEffects, SweepEffects,
         BestOf, Heard, IsBlank, EventFor, Swept;
  }

  lemma PerformFirstSeen(env: Env, b: Book, op: Op, log: seq<Rescoring>, at: int)
    requires TimedBy(op, at) && SeenBy(b, at) && SinceFirstSeen(b, log)
    ensures var o := Perform(env, b, op);
            SeenBy(o.book, at) && SinceFirstSeen(o.book, log + o.rescorings)
  {
    hide Perform;
    DecidesKnown(env, b, op, at);
    var after := Perform(env, b, op).book;
    forall m: Mac
      ensures m in b.devices ==> m in after.devices && after.devices[m].firstSeenAt == b.devices[m].firstSeenAt
      ensures m in after.devices && m !in b.devices ==> after.devices[m].firstSeenAt == at
    {
      FirstSeenKept(env, b, op, m);
    }
  }

  lemma {:induction false} PerformAllFirstSeen(env: Env, b: Book, ops: seq<Op>, log: seq<Rescoring>, at: int)
    requires forall op :: op in ops ==> TimedBy(op, at)
    requires SeenBy(b, at) && SinceFirstSeen(b, log)
    ensures var o := PerformAll(env, b, ops);
            SeenBy(o.book, at) && SinceFirstSeen(o.book, log + o.rescorings)
  {
    hide Perform, TimedBy;
    if ops == [] {
      assert log + [] == log;
    } else {
      var most := ops[..|ops| - 1];
      PerformAllFirstSeen(env, b, most, log, at);
      var before := PerformAll(env, b, most);
      var last := Perform(env, before.book, ops[|ops| - 1]);
      PerformFirstSeen(env, before.book, ops[|ops| - 1], log + before.rescorings, at);
      assert (log + before.rescorings) + last.rescorings == log + (before.rescorings + last.rescorings);
    }
  }

  lemma PlanTimed(env: Env, b: Book, step: Step, at: int)
    requires Clock(step).Some? ==> Clock(step).value == at
    ensures forall op :: op in Plan(env, b, step) ==> TimedBy(op, at)
  {
    hide Perform, Attribute, PerformAll;
  }

  lemma {:induction false} RunFirstSeen(env: Env, learning: bool, steps: seq<Step>, until: int)
    requires ClockOrdered(steps)
    requires forall s :: s in steps && Clock(s).Some? ==> Clock(s).value <= until
    ensures var o := Run(env, learning, steps);
            SeenBy(o.book, until) && SinceFirstSeen(o.book, o.rescorings)
  {
    hide Plan, PerformAll, Clock, TimedBy;
    if steps != [] {
      var most, step := steps[..|steps| - 1], steps[|steps| - 1];
      assert step in steps;
      var at := if Clock(step).Some? then Clock(step).value else until;
      RunFirstSeen(env, learning, most, at);
      var before := Run(env, learning, most);
      PlanTimed(env, before.book, step, at);
      PerformAllFirstSeen(env, before.book, Plan(env, before.book, step), before.rescorings, at);
    }
  }

  // ---------- the results ----------

  // On any run whose clock never goes back, a device first seen at time t0 has
  // announced at most (number of ranks - 1) + (now - t0) / SETTLE_WINDOW renames.
  lemma RenamesBounded(env: Env, learning: bool, steps: seq<Step>, m: Mac, until: int)
    requires ClockOrdered(steps)
    requires forall s :: s in steps && Clock(s).Some? ==> Clock(s).value <= until
    requires m in Run(env, learning, steps).book.devices
    ensures var o := Run(env, learning, steps);
            var firstSeen := o.book.devices[m].firstSeenAt;
            && firstSeen <= until
            && Count(o.effects, NameUpdated, m) <= |RANKS| - 1 + (until - firstSeen) / SETTLE_WINDOW
  {
    hide Run, Consider, Resolve, Clock, NamingAfter, Adoptions, LogOf, Count, Rung;
    var o := Run(env, learning, steps);
    RunExplains(env, learning, steps, m);
    RunStamped(env, learning, steps, until);
    RunFirstSeen(env, learning, steps, until);
    LogOfOrdered(o.rescorings, m);
    ResolveRanked(m, VendorSignals(env, m), None);
    var log := LogOf(o.rescorings, m);
    var firstSeen := o.book.devices[m].firstSeenAt;
    forall r | r in log
      ensures firstSeen <= r.at <= until && WellRanked(r.candidate)
    {
      assert r in o.rescorings && r.mac == m;
    }
    AdoptionsBounded(FirstNaming(env, m), log, firstSeen, until);
  }

  // Between any two points of a run a device's name never falls in rank.
  lemma RankNeverFalls(env: Env, learning: bool, steps: seq<Step>, k: nat, m: Mac)
    requires k <= |steps|
    requires m in Run(env, learning, steps[..k]).book.devices
    ensures m in Run(env, learning, steps).book.devices
    ensures Run(env, learning, steps[..k]).book.devices[m].identity.confidence
         <= Run(env, learning, steps).book.devices[m].identity.confidence
    decreases |steps| - k
  {
    hide Apply, Plan, Consider, Resolve;
    if k < |steps| {
      var b := Run(env, learning, steps[..k]).book;
      assert steps[..k + 1][..k] == steps[..k];
      RunSound(env, learning, steps[..k]);
      ApplyKeepsRank(env, b, steps[k], m);
      RankNeverFalls(env, learning, steps, k + 1, m);
    } else {
      assert steps[..k] == steps;
    }
  }

  lemma ApplyKeepsRank(env: Env, b: Book, step: Step, m: Mac)
    requires Sound(b) && m in b.devices
    ensures m in Apply(env, b, step).book.devices
    ensures b.devices[m].identity.confidence <= Apply(env, b, step).book.devices[m].identity.confidence
  {
    hide Plan, Consider, Perform, PerformAll;
    ApplyExplains(env, b, step, m);
    StaysKnown(env, b, Plan(env, b, step), m);
    ConsideredRank(NamingOf(b.devices[m]), LogOf(Apply(env, b, step).rescorings, m));
  }

  lemma {:induction false} ConsideredRank(n: Naming, log: seq<Rescoring>)
    ensures n.identity.confidence <= NamingAfter(n, log).identity.confidence
  {
    if log != [] {
      ConsideredRank(n, log[..|log| - 1]);
    }
  }

  lemma {:induction false} StaysKnown(env: Env, b: Book, ops: seq<Op>, m: Mac)
    requires m in b.devices
    ensures m in PerformAll(env, b, ops).book.devices
  {
    hide Perform;
    if ops != [] {
      StaysKnown(env, b, ops[..|ops| - 1], m);
      Undisturbed(env, PerformAll(env, b, ops[..|ops| - 1]).book, ops[|ops| - 1], m);
    }
  }
}
