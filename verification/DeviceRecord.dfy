/**
 What the table keeps of a device besides its evidence and its state, told from
 the calls: when it was first seen, whether that was while learning, where it
 was last heard, and what its user last decided.
 */
module DeviceRecord {
  import opened Options
  import opened Types
  import opened Identities
  import opened DeviceTable
  import opened DeviceTableFacts
  import History = DeviceHistory

  datatype Record = Record(first: int, baseline: bool, interface: Option<string>, name: Option<string>, notify: bool)

  function RecordOf(b: Book, m: Mac): Option<Record> {
    if m !in b.devices then None
    else
      var e := b.devices[m];
      Some(Record(e.firstSeenAt, e.baseline, e.lastInterface, e.displayName, e.notify))
  }

  // ---------- one operation ----------

  lemma DiscoverRecords(env: Env, b: Book, obs: Observation, m: Mac)
    ensures RecordOf(Perform(env, b, Discover(obs)).book, m)
         == if obs.mac == m && m !in b.devices then Some(Record(obs.observedAt, b.learning, Some(obs.interface), None, true))
            else RecordOf(b, m)
  {
    hide Resolve, DiscoveryEffects;
  }

  lemma HearRecords(env: Env, b: Book, obs: Observation, mine: seq<Signal>, unattributed: nat, first: bool, m: Mac)
    requires m in b.devices && obs.mac == m
    ensures RecordOf(Perform(env, b, Hear(obs, mine, unattributed, first)).book, m)
         == Some(RecordOf(b, m).value.(interface := Some(obs.interface)))
  {
    hide Resolve, Consider, Merged, Changes, HearingEffects, IsRecordable, IsLinkLocal, NonBlank, BestOf;
  }

  lemma ConfigureRecords(env: Env, b: Book, s: UserSettings, m: Mac)
    ensures RecordOf(Perform(env, b, Configure(s)).book, m)
         == if m in b.devices && s.mac == m then Some(RecordOf(b, m).value.(name := s.displayName, notify := s.notify))
            else RecordOf(b, m)
  {}

  lemma OthersRecord(env: Env, b: Book, op: Op, m: Mac)
    requires !op.Discover? && !op.Configure? && !(op.Hear? && op.obs.mac == m)
    ensures RecordOf(Perform(env, b, op).book, m) == RecordOf(b, m)
  {
    hide Resolve, Consider, Merged, Changes, HearingEffects, NameEffects, SweepEffects, BestOf, Heard, IsBlank, GoesOffline, EventFor;
  }

  predicate Silent(op: Op) {
    !op.Discover? && !op.Configure? && !op.Hear?
  }

  lemma {:induction false} SilentRecord(env: Env, b: Book, ops: seq<Op>, m: Mac)
    requires forall op :: op in ops ==> Silent(op)
    ensures RecordOf(PerformAll(env, b, ops).book, m) == RecordOf(b, m)
  {
    hide Perform, RecordOf;
    if ops != [] {
      var most, op := ops[..|ops| - 1], ops[|ops| - 1];
      assert op in ops;
      SilentRecord(env, b, most, m);
      OthersRecord(env, PerformAll(env, b, most).book, op, m);
    }
  }

  // ---------- one call ----------

  lemma ObserveRecords(env: Env, b: Book, obs: Observation, m: Mac)
    requires IsDevice(obs.mac)
    ensures RecordOf(Apply(env, b, Observe(obs)).book, m)
         == if obs.mac != m then RecordOf(b, m)
            else if m in b.devices then Some(RecordOf(b, m).value.(interface := Some(obs.interface)))
            else Some(Record(obs.observedAt, b.learning, Some(obs.interface), None, true))
  {
    hide Perform, Attribute, IsGroup, IsRecordable, Arrival, PerformAll, Resolve, Learns;
    ThreeParts(env, b, obs);
    ArrivalKnows(env, b, obs);
    hide Apply;
    var mid := PerformAll(env, b, Arrival(b, obs));
    var att := Attribute(mid.book, obs);
    var hear := Hear(obs, att.mine, att.unattributed, obs.mac !in b.devices);
    var heard := Perform(env, mid.book, hear);
    SilentRecord(env, heard.book, Learns(att.others, obs.observedAt), m);
    if obs.mac == m {
      HearRecords(env, mid.book, obs, att.mine, att.unattributed, obs.mac !in b.devices, m);
    } else {
      OthersRecord(env, mid.book, hear, m);
    }
  }

  // A batch's last edit of a device.
  function LastEdit(settings: seq<UserSettings>, m: Mac): Option<UserSettings> {
    if settings == [] then None
    else if settings[|settings| - 1].mac == m then Some(settings[|settings| - 1])
    else LastEdit(settings[..|settings| - 1], m)
  }

  function Edited(r: Option<Record>, edit: Option<UserSettings>): Option<Record> {
    if r.Some? && edit.Some? then Some(r.value.(name := edit.value.displayName, notify := edit.value.notify)) else r
  }

  function Configures(settings: seq<UserSettings>): seq<Op> {
    seq(|settings|, i requires 0 <= i < |settings| => Configure(settings[i]))
  }

  lemma {:induction false} BatchRecords(env: Env, b: Book, settings: seq<UserSettings>, m: Mac)
    ensures RecordOf(PerformAll(env, b, Configures(settings)).book, m) == Edited(RecordOf(b, m), LastEdit(settings, m))
  {
    hide Perform;
    if settings != [] {
      var most := settings[..|settings| - 1];
      BatchRecords(env, b, most, m);
      assert Configures(settings)[..|most|] == Configures(most);
      ConfigureRecords(env, PerformAll(env, b, Configures(most)).book, settings[|most|], m);
    }
  }

  // What a call makes of a device's record.
  function NextRecord(r: Option<Record>, learning: bool, step: Step, m: Mac): Option<Record> {
    if History.Heard(step, m) then
      if r.Some? then Some(r.value.(interface := Some(step.obs.interface)))
      else Some(Record(step.obs.observedAt, learning, Some(step.obs.interface), None, true))
    else if step.ApplyUserSettings? then Edited(r, LastEdit(step.settings, m))
    else r
  }

  lemma StepRecords(env: Env, b: Book, step: Step, m: Mac)
    ensures RecordOf(Apply(env, b, step).book, m) == NextRecord(RecordOf(b, m), b.learning, step, m)
  {
    hide Perform, PerformAll, Attribute, IsGroup, IsZero, IsRecordable, RecordOf, LastEdit, Edited;
    if step.Observe? && IsDevice(step.obs.mac) {
      ObserveRecords(env, b, step.obs, m);
      ARecordIsHeld(b, m);
    } else if step.ApplyUserSettings? {
      assert Plan(env, b, step) == Configures(step.settings);
      BatchRecords(env, b, step.settings, m);
    } else {
      SilentRecord(env, b, Plan(env, b, step), m);
    }
  }

  lemma ARecordIsHeld(b: Book, m: Mac)
    ensures RecordOf(b, m).Some? <==> m in b.devices
  {}

  // ---------- learning ----------

  lemma PerformLearning(env: Env, b: Book, op: Op)
    ensures Perform(env, b, op).book.learning == (b.learning && !op.StopLearning?)
  {
    hide Resolve, Consider, Merged, Changes, HearingEffects, NameEffects, SweepEffects, BestOf, Heard, IsBlank, GoesOffline,
         EventFor, DiscoveryEffects, Swept, NewEntry;
  }

  lemma {:induction false} AllLearning(env: Env, b: Book, ops: seq<Op>)
    requires forall op :: op in ops ==> !op.StopLearning?
    ensures PerformAll(env, b, ops).book.learning == b.learning
  {
    hide Perform;
    if ops != [] {
      var most, op := ops[..|ops| - 1], ops[|ops| - 1];
      assert op in ops;
      AllLearning(env, b, most);
      PerformLearning(env, PerformAll(env, b, most).book, op);
    }
  }

  lemma StepLearning(env: Env, b: Book, step: Step)
    ensures Apply(env, b, step).book.learning == (b.learning && !step.EndLearning?)
  {
    hide Perform, Attribute, IsRecordable;
    if step.EndLearning? {
      PerformOne(env, b, StopLearning);
      PerformLearning(env, b, StopLearning);
    } else {
      hide PerformAll;
      AllLearning(env, b, Plan(env, b, step));
    }
  }

  // Learning is on from the start until it is ended, for good.
  lemma {:induction false} LearningIsHistory(env: Env, learning: bool, steps: seq<Step>)
    ensures Run(env, learning, steps).book.learning <==> learning && EndLearning !in steps
  {
    hide Apply;
    if steps != [] {
      var most, last := steps[..|steps| - 1], steps[|steps| - 1];
      assert steps == most + [last];
      LearningIsHistory(env, learning, most);
      StepLearning(env, Run(env, learning, most).book, last);
    }
  }

  // ---------- over a run ----------

  // The device's first frame.
  ghost predicate FirstFrame(steps: seq<Step>, k: int, m: Mac) {
    0 <= k < |steps| && History.Heard(steps[k], m) && forall i :: 0 <= i < k ==> !History.Heard(steps[i], m)
  }

  // Its last.
  ghost predicate LastFrame(steps: seq<Step>, k: int, m: Mac) {
    0 <= k < |steps| && History.Heard(steps[k], m) && forall i :: k < i < |steps| ==> !History.Heard(steps[i], m)
  }

  predicate Edits(step: Step, m: Mac) {
    step.ApplyUserSettings? && LastEdit(step.settings, m).Some?
  }

  // The last batch that edits the device, once it was known.
  ghost predicate LastBatch(steps: seq<Step>, k: int, m: Mac) {
    && 0 <= k < |steps| && Edits(steps[k], m)
    && (exists i :: 0 <= i < k && History.Heard(steps[i], m))
    && forall i :: k < i < |steps| ==> !Edits(steps[i], m)
  }

  ghost predicate HeardFrom(steps: seq<Step>, m: Mac) {
    exists k :: 0 <= k < |steps| && History.Heard(steps[k], m)
  }

  function RecordAfter(env: Env, learning: bool, steps: seq<Step>, m: Mac): Option<Record> {
    RecordOf(Run(env, learning, steps).book, m)
  }

  lemma OneCallMore(env: Env, learning: bool, steps: seq<Step>, m: Mac)
    requires steps != []
    ensures var most, last := steps[..|steps| - 1], steps[|steps| - 1];
            RecordAfter(env, learning, steps, m)
            == NextRecord(RecordAfter(env, learning, most, m), learning && EndLearning !in most, last, m)
  {
    hide Apply, RecordOf, NextRecord;
    var most := steps[..|steps| - 1];
    StepRecords(env, Run(env, learning, most).book, steps[|steps| - 1], m);
    LearningIsHistory(env, learning, most);
  }

  // A device is in the table exactly when it has been heard from.
  lemma {:induction false} KnownIsHeard(env: Env, learning: bool, steps: seq<Step>, m: Mac)
    ensures RecordAfter(env, learning, steps, m).Some? <==> HeardFrom(steps, m)
  {
    if steps != [] {
      hide RecordAfter, History.Heard, LastEdit;
      var most, last := steps[..|steps| - 1], steps[|steps| - 1];
      assert steps == most + [last];
      KnownIsHeard(env, learning, most, m);
      OneCallMore(env, learning, steps, m);
      if HeardFrom(most, m) {
        var k :| 0 <= k < |most| && History.Heard(most[k], m);
        assert History.Heard(steps[k], m);
      }
    }
  }

  // Its entry tells the time of its first frame and whether learning was still
  // on then.
  lemma {:induction false} FirstIsTold(env: Env, learning: bool, steps: seq<Step>, k: int, m: Mac)
    requires FirstFrame(steps, k, m)
    ensures var r := RecordAfter(env, learning, steps, m);
            && r.Some?
            && r.value.first == steps[k].obs.observedAt
            && (r.value.baseline <==> learning && EndLearning !in steps[..k])
  {
    hide RecordAfter, LastEdit;
    var most := steps[..|steps| - 1];
    OneCallMore(env, learning, steps, m);
    KnownIsHeard(env, learning, most, m);
    if k < |most| {
      assert FirstFrame(most, k, m);
      FirstIsTold(env, learning, most, k, m);
      assert most[..k] == steps[..k];
    } else {
      assert forall i :: 0 <= i < |most| ==> most[i] == steps[i];
      assert !HeardFrom(most, m);
    }
  }

  // The interface of its last frame.
  lemma {:induction false} LastIsTold(env: Env, learning: bool, steps: seq<Step>, k: int, m: Mac)
    requires LastFrame(steps, k, m)
    ensures var r := RecordAfter(env, learning, steps, m);
            r.Some? && r.value.interface == Some(steps[k].obs.interface)
  {
    hide RecordAfter, LastEdit;
    var most := steps[..|steps| - 1];
    OneCallMore(env, learning, steps, m);
    if k < |most| {
      assert forall i :: 0 <= i < |most| ==> most[i] == steps[i];
      assert LastFrame(most, k, m);
      LastIsTold(env, learning, most, k, m);
    }
  }

  // And what the last edit since its first frame made of it.
  lemma {:induction false} EditIsTold(env: Env, learning: bool, steps: seq<Step>, k: int, m: Mac)
    requires LastBatch(steps, k, m)
    ensures var r, edit := RecordAfter(env, learning, steps, m), LastEdit(steps[k].settings, m).value;
            r.Some? && r.value.name == edit.displayName && r.value.notify == edit.notify
  {
    hide RecordAfter, LastEdit;
    var most := steps[..|steps| - 1];
    OneCallMore(env, learning, steps, m);
    KnownIsHeard(env, learning, most, m);
    assert forall i :: 0 <= i < |most| ==> most[i] == steps[i];
    var i :| 0 <= i < k && History.Heard(steps[i], m);
    assert History.Heard(most[i], m);
    if k < |most| {
      assert LastBatch(most, k, m);
      EditIsTold(env, learning, most, k, m);
    }
  }

  // Nothing at all while there has been none.
  lemma {:induction false} UneditedIsTold(env: Env, learning: bool, steps: seq<Step>, m: Mac)
    requires forall k :: !LastBatch(steps, k, m)
    ensures var r := RecordAfter(env, learning, steps, m);
            r.Some? ==> r.value.name == None && r.value.notify
  {
    hide RecordAfter, LastEdit, LastBatch;
    if steps == [] {
      KnownIsHeard(env, learning, steps, m);
    } else {
      var most, last := steps[..|steps| - 1], steps[|steps| - 1];
      OneCallMore(env, learning, steps, m);
      KnownIsHeard(env, learning, most, m);
      forall k
        ensures !LastBatch(most, k, m)
      {
        BatchStands(steps, k, m);
        assert !LastBatch(steps, |most|, m);
      }
      UneditedIsTold(env, learning, most, m);
      assert !LastBatch(steps, |most|, m);
      if HeardFrom(most, m) && Edits(last, m) {
        EditedLast(steps, m);
      }
    }
  }

  // So the name shown for it is the user's, from the last edit on, unless that is
  // blank; then, and till then, the one it goes by.
  lemma NameIsShown(env: Env, learning: bool, steps: seq<Step>, m: Mac)
    requires m in Run(env, learning, steps).book.devices
    ensures var e := Run(env, learning, steps).book.devices[m];
            && (forall k :: LastBatch(steps, k, m) ==>
                  var name := LastEdit(steps[k].settings, m).value.displayName;
                  e.Display() == if name.Some? && !IsBlank(name.value) then Trim(name.value) else e.identity.displayName)
            && ((forall k :: !LastBatch(steps, k, m)) ==> e.Display() == e.identity.displayName)
  {
    hide Run, LastEdit, IsBlank, Trim, History.Heard;
    forall k | LastBatch(steps, k, m)
      ensures Run(env, learning, steps).book.devices[m].displayName == LastEdit(steps[k].settings, m).value.displayName
    {
      EditIsTold(env, learning, steps, k, m);
    }
    if forall k :: !LastBatch(steps, k, m) {
      UneditedIsTold(env, learning, steps, m);
    }
  }

  lemma EditedLast(steps: seq<Step>, m: Mac)
    requires steps != [] && HeardFrom(steps[..|steps| - 1], m) && Edits(steps[|steps| - 1], m)
    ensures LastBatch(steps, |steps| - 1, m)
  {
    hide History.Heard, LastEdit;
    var most := steps[..|steps| - 1];
    var i :| 0 <= i < |most| && History.Heard(most[i], m);
    assert History.Heard(steps[i], m);
  }

  lemma BatchStands(steps: seq<Step>, k: int, m: Mac)
    requires steps != []
    ensures LastBatch(steps[..|steps| - 1], k, m) ==> LastBatch(steps, k, m) || LastBatch(steps, |steps| - 1, m)
  {
    hide History.Heard, LastEdit;
    var most := steps[..|steps| - 1];
    assert forall i :: 0 <= i < |most| ==> most[i] == steps[i];
    if LastBatch(most, k, m) {
      var i :| 0 <= i < k && History.Heard(most[i], m);
      assert History.Heard(steps[i], m) && i < |steps| - 1;
    }
  }
}
