/**
 The weighted scorer: a pile of signals in, one display identity out, and the
 comparison that decides whether a new identity replaces the old one.
 */
module Identities {
  import opened Options
  import opened Types

  // How long an equal-rank rival must stay the winner before it is adopted.
  const SETTLE_WINDOW: nat := 300 * SECOND

  datatype Identity = Identity(displayName: string, source: SignalKind, confidence: nat)

  datatype Verdict = Same | Better | Rival | Worse

  // The first non-blank value of a kind, trimmed.
  function FirstUsable(signals: seq<Signal>, kind: SignalKind): Option<string> {
    if signals == [] then None
    else if signals[0].kind == kind && !IsBlank(signals[0].value) then Some(Trim(signals[0].value))
    else FirstUsable(signals[1..], kind)
  }

  const NAMING: seq<SignalKind> := [MdnsName, DhcpHostname, ReverseDns, NetbiosName, SsdpFriendlyName]

  function FirstNaming(signals: seq<Signal>, kinds: seq<SignalKind>): Option<Identity> {
    if kinds == [] then None
    else
      var value := FirstUsable(signals, kinds[0]);
      if value.Some? then Some(Identity(value.value, kinds[0], Weight(kinds[0])))
      else FirstNaming(signals, kinds[1..])
  }

  function Resolve(mac: Mac, signals: seq<Signal>, deviceType: Option<string>): Identity {
    var chosen := FirstUsable(signals, UserAssigned);
    if chosen.Some? then Identity(chosen.value, UserAssigned, Weight(UserAssigned))
    else
      var named := FirstNaming(signals, NAMING);
      if named.Some? then named.value
      else
        var vendor := FirstUsable(signals, Vendor);
        if vendor.Some? then
          var what := if deviceType.Some? && !IsBlank(deviceType.value) then Trim(deviceType.value) else "device";
          Identity(vendor.value + " " + what, Vendor, Weight(Vendor))
        else Identity(MacText(mac), MacKind, Weight(MacKind))
  }

  function Compare(candidate: Identity, current: Identity): Verdict {
    if candidate.confidence > current.confidence then Better
    else if candidate.confidence < current.confidence then Worse
    else if candidate.displayName == current.displayName then Same
    else Rival
  }

  // A negative span never settles, and the window is positive, so one
  // comparison covers both.
  predicate Settled(since: int, now: int) {
    now - since >= SETTLE_WINDOW
  }

  // The ranks an identity can hold, weakest first.
  const RANKS: seq<nat> := [1, 3, 5, 6, 7, 8, 9, 10]

  // Position of a rank in the ladder.
  function Rung(confidence: nat): (rung: nat)
    ensures rung < |RANKS|
  {
    if confidence >= 10 then 7
    else if confidence >= 5 then confidence - 3
    else if confidence >= 3 then 1
    else 0
  }

  ghost predicate WellRanked(i: Identity) {
    i.confidence == Weight(i.source) && i.confidence in RANKS
  }

  lemma FirstNamingRanked(signals: seq<Signal>, kinds: seq<SignalKind>)
    requires forall k :: k in kinds ==> Weight(k) in RANKS
    ensures var r := FirstNaming(signals, kinds); r.Some? ==> WellRanked(r.value) && r.value.source in kinds
  {}

  // What wins carries exactly its kind's weight, and that is one of the ranks.
  lemma ResolveRanked(mac: Mac, signals: seq<Signal>, deviceType: Option<string>)
    ensures WellRanked(Resolve(mac, signals, deviceType))
  {
    FirstNamingRanked(signals, NAMING);
  }

  // No stored non-blank signal of a naming kind outweighs the winner.
  lemma ResolveIsHeaviest(mac: Mac, signals: seq<Signal>, deviceType: Option<string>, s: Signal)
    requires s in signals && !IsBlank(s.value) && s.kind != MacKind
    ensures Weight(s.kind) <= Resolve(mac, signals, deviceType).confidence
  {
    hide IsBlank, Trim, MacText, FirstUsable, WellRanked;
    FirstUsableFinds(signals, s);
    FirstNamingRanked(signals, NAMING);
    if s.kind in NAMING {
      FirstNamingHeaviest(signals, NAMING, s.kind);
    }
  }

  lemma FirstUsableFinds(signals: seq<Signal>, s: Signal)
    requires s in signals && !IsBlank(s.value)
    ensures FirstUsable(signals, s.kind).Some?
  {}

  lemma FirstNamingHeaviest(signals: seq<Signal>, kinds: seq<SignalKind>, kind: SignalKind)
    requires kind in kinds && FirstUsable(signals, kind).Some?
    requires forall i, j :: 0 <= i < j < |kinds| ==> Weight(kinds[i]) >= Weight(kinds[j])
    ensures FirstNaming(signals, kinds).Some? && FirstNaming(signals, kinds).value.confidence >= Weight(kind)
  {
    if kinds[0] != kind && FirstUsable(signals, kinds[0]).None? {
      FirstNamingHeaviest(signals, kinds[1..], kind);
    }
  }
}
