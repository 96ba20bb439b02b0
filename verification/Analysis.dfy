/** What the analyzers share: findings, and the cooldown that spaces them. */
module Analysis {
  import opened Options
  import opened Types

  datatype Alert =
    | ScanAlert(mac: Mac, at: int, distinct: nat, threshold: nat)
    | FloodAlert(mac: Mac, at: int, count: nat, threshold: nat, ip: Option<Ipv4>)
    | SpoofAlert(mac: Mac, at: int, claimed: Ipv4, previousHolder: Option<Mac>, impersonation: bool, forged: bool)
    | ConflictAlert(mac: Mac, at: int, address: Ipv4, otherMac: Mac)

  // A clock that went backwards holds an alert rather than releasing it.
  predicate CooledDown(last: Option<int>, now: int, cooldown: nat) {
    last.Some? ==> now - last.value >= cooldown
  }

  // ---------- spacing ----------

  // Something that might be worth an alert, and when.
  datatype Trial = Trial(at: int, suspicious: bool)

  // When the last alert of a history was raised.
  function LastAlert(trials: seq<Trial>, cooldown: nat): Option<int> {
    if trials == [] then None
    else
      var before := LastAlert(trials[..|trials| - 1], cooldown);
      var t := trials[|trials| - 1];
      if t.suspicious && CooledDown(before, t.at, cooldown) then Some(t.at) else before
  }

  predicate Alerts(trials: seq<Trial>, i: nat, cooldown: nat)
    requires i < |trials|
  {
    trials[i].suspicious && CooledDown(LastAlert(trials[..i], cooldown), trials[i].at, cooldown)
  }

  ghost predicate TrialsInOrder(trials: seq<Trial>) {
    forall i, j :: 0 <= i < j < |trials| ==> trials[i].at <= trials[j].at
  }

  // The recorded time is the latest alert's, if there has been one.
  lemma {:induction false} LastAlertIs(trials: seq<Trial>, k: nat, cooldown: nat)
    requires k <= |trials| && TrialsInOrder(trials)
    ensures var last := LastAlert(trials[..k], cooldown);
            && (last.Some? ==> exists j :: 0 <= j < k && Alerts(trials, j, cooldown) && trials[j].at == last.value)
            && (forall j :: 0 <= j < k && Alerts(trials, j, cooldown) ==> last.Some? && trials[j].at <= last.value)
  {
    if k > 0 {
      LastAlertIs(trials, k - 1, cooldown);
      assert trials[..k][..k - 1] == trials[..k - 1];
      var before := LastAlert(trials[..k - 1], cooldown);
      if Alerts(trials, k - 1, cooldown) {
        forall j | 0 <= j < k && Alerts(trials, j, cooldown)
          ensures trials[j].at <= trials[k - 1].at
        {}
      } else {
        assert LastAlert(trials[..k], cooldown) == before;
      }
    }
  }

  // An alert is raised exactly when there is something suspicious and every
  // alert already raised is at least the cooldown old.
  lemma AlertsExactlyWhen(trials: seq<Trial>, i: nat, cooldown: nat)
    requires i < |trials| && TrialsInOrder(trials)
    ensures Alerts(trials, i, cooldown) <==>
              && trials[i].suspicious
              && forall j :: 0 <= j < i && Alerts(trials, j, cooldown) ==> trials[i].at - trials[j].at >= cooldown
  {
    LastAlertIs(trials, i, cooldown);
  }
}
