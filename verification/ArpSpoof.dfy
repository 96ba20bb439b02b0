/** An address claimed by one device while another is still using it. */
module ArpSpoofing {
  import opened Options
  import opened Types
  import opened Windows
  import opened Gateway
  import opened Analysis

  const SPOOF_COOLDOWN: nat := 300 * SECOND

  datatype Holder = Holder(mac: Mac, lastClaim: int, lastAlert: Option<int>)

  // One claim on an address: who, when, and whether it is the gateway's address
  // in a stranger's hands.
  datatype Claim = Claim(mac: Mac, at: int, impersonation: bool)

  // The holder, when it is somebody else.
  function Other(holder: Option<Holder>, mac: Mac): Option<Holder> {
    if holder.Some? && holder.value.mac != mac then holder else None
  }

  predicate StillActive(holder: Option<Holder>, c: Claim, grace: nat) {
    var other := Other(holder, c.mac);
    other.Some? && 0 <= c.at - other.value.lastClaim < grace
  }

  predicate Spoofs(holder: Option<Holder>, c: Claim, grace: nat) {
    && (c.impersonation || StillActive(holder, c, grace))
    && CooledDown(if holder.Some? then holder.value.lastAlert else None, c.at, SPOOF_COOLDOWN)
  }

  // The claim is recorded whether or not it raised an alert.
  function Succeeded(holder: Option<Holder>, c: Claim, grace: nat): Holder {
    Holder(c.mac, c.at,
           if Spoofs(holder, c, grace) then Some(c.at)
           else if holder.Some? then holder.value.lastAlert else None)
  }

  // ---------- the claims on one address ----------

  function HolderAfter(claims: seq<Claim>, grace: nat): Option<Holder> {
    if claims == [] then None
    else Some(Succeeded(HolderAfter(claims[..|claims| - 1], grace), claims[|claims| - 1], grace))
  }

  predicate SpoofAt(claims: seq<Claim>, i: nat, grace: nat)
    requires i < |claims|
  {
    Spoofs(HolderAfter(claims[..i], grace), claims[i], grace)
  }

  // A claim is suspicious when a stranger has the gateway's address, or when the
  // claim just before it was somebody else's and less than the grace period old.
  predicate Suspicious(claims: seq<Claim>, i: nat, grace: nat)
    requires i < |claims|
  {
    claims[i].impersonation
    || (i > 0 && claims[i - 1].mac != claims[i].mac && 0 <= claims[i].at - claims[i - 1].at < grace)
  }

  ghost predicate ClaimsInOrder(claims: seq<Claim>) {
    forall i, j :: 0 <= i < j < |claims| ==> claims[i].at <= claims[j].at
  }

  function Trials(claims: seq<Claim>, grace: nat): seq<Trial> {
    seq(|claims|, i requires 0 <= i < |claims| => Trial(claims[i].at, Suspicious(claims, i, grace)))
  }

  lemma HolderIsLast(claims: seq<Claim>, k: nat, grace: nat)
    requires k <= |claims|
    ensures var h := HolderAfter(claims[..k], grace);
            if k == 0 then h == None
            else h.Some? && h.value.mac == claims[k - 1].mac && h.value.lastClaim == claims[k - 1].at
  {}

  lemma HolderMore(claims: seq<Claim>, k: nat, grace: nat)
    requires 0 < k <= |claims|
    ensures HolderAfter(claims[..k], grace) == Some(Succeeded(HolderAfter(claims[..k - 1], grace), claims[k - 1], grace))
  {
    assert claims[..k][..k - 1] == claims[..k - 1];
  }

  // The holder remembers the last alert of the claims taken as trials.
  lemma {:induction false} HolderRemembers(claims: seq<Claim>, k: nat, grace: nat)
    requires k <= |claims|
    ensures var h := HolderAfter(claims[..k], grace);
            LastAlert(Trials(claims, grace)[..k], SPOOF_COOLDOWN) == if h.Some? then h.value.lastAlert else None
  {
    if k > 0 {
      HolderRemembers(claims, k - 1, grace);
      HolderIsLast(claims, k - 1, grace);
      HolderMore(claims, k, grace);
      var trials := Trials(claims, grace);
      assert trials[..k][..k - 1] == trials[..k - 1] && trials[..k][k - 1] == trials[k - 1];
    }
  }

  lemma SpoofIsTrial(claims: seq<Claim>, i: nat, grace: nat)
    requires i < |claims|
    ensures SpoofAt(claims, i, grace) <==> Alerts(Trials(claims, grace), i, SPOOF_COOLDOWN)
  {
    HolderRemembers(claims, i, grace);
    HolderIsLast(claims, i, grace);
    assert Trials(claims, grace)[i] == Trial(claims[i].at, Suspicious(claims, i, grace));
  }

  // A claim raises an alert exactly when it is suspicious and no alert about the
  // address is less than the cooldown old.
  lemma SpoofsExactlyWhen(claims: seq<Claim>, i: nat, grace: nat)
    requires i < |claims| && ClaimsInOrder(claims)
    ensures SpoofAt(claims, i, grace) <==>
              && Suspicious(claims, i, grace)
              && forall j :: 0 <= j < i && SpoofAt(claims, j, grace) ==> claims[i].at - claims[j].at >= SPOOF_COOLDOWN
  {
    hide SpoofAt, Alerts, Suspicious;
    var trials := Trials(claims, grace);
    AlertsExactlyWhen(trials, i, SPOOF_COOLDOWN);
    SpoofIsTrial(claims, i, grace);
    forall j | 0 <= j < i
      ensures SpoofAt(claims, j, grace) <==> Alerts(trials, j, SPOOF_COOLDOWN)
    {
      SpoofIsTrial(claims, j, grace);
    }
  }

  // ---------- the table ----------

  // What one frame claims.  The gateway answering for somebody else claims
  // nothing.
  function ClaimOf(b: Belief, obs: Observation): Option<(Ipv4, Claim)> {
    var arp := ArpOf(obs);
    if arp.None? || arp.value.senderIp.None? || !IsHostV4(arp.value.senderIp.value) || ProxyArpFor(b, obs).Some? then None
    else
      var claimed := arp.value.senderIp.value;
      Some((claimed, Claim(obs.mac, obs.observedAt, IsGatewayIp(b, claimed) && !IsGateway(b, obs.mac))))
  }

  // ---------- the claims, told from the frames ----------

  predicate NamesHost(a: Ipv4) {
    a != 0 && a != 0xFFFF_FFFF && !(0xE000_0000 <= a < 0xF000_0000)
  }

  // An ARP frame naming `a` as its sender's address claims it, unless it is the
  // gateway answering for somebody else.
  predicate Claims(s: Sighting, a: Ipv4) {
    && s.obs.detail.Some? && s.obs.detail.value.Arp? && s.obs.detail.value.arp.senderIp == Some(a)
    && NamesHost(a)
    && !Proxies(s, a)
  }

  // The gateway's address, from another device than the gateway.
  predicate Impersonates(s: Sighting, a: Ipv4) {
    s.belief.ip == Some(a) && s.belief.mac != Some(s.obs.mac)
  }

  predicate Forged(s: Sighting) {
    s.obs.detail.Some? && s.obs.detail.value.Arp? && s.obs.detail.value.arp.senderMac != s.obs.mac
  }

  function ClaimIn(s: Sighting, a: Ipv4): Claim {
    Claim(s.obs.mac, s.obs.observedAt, Impersonates(s, a))
  }

  function ClaimsIn(frames: seq<Sighting>, a: Ipv4): seq<Claim> {
    seq(|frames|, i requires 0 <= i < |frames| => ClaimIn(frames[i], a))
  }

  // A frame's claim is what its fields say.
  lemma ClaimRead(s: Sighting, a: Ipv4)
    ensures Claims(s, a) <==> ClaimOf(s.belief, s.obs) == Some((a, ClaimIn(s, a)))
    ensures ClaimOf(s.belief, s.obs).Some? ==> Claims(s, ClaimOf(s.belief, s.obs).value.0)
  {
    ProxyArpExactly(s);
  }

  predicate SpoofSeen(frames: seq<Sighting>, a: Ipv4, i: nat, grace: nat)
    requires i < |frames|
  {
    SpoofAt(ClaimsIn(frames, a), i, grace)
  }

  ghost predicate FramesInOrder(frames: seq<Sighting>) {
    forall i, j :: 0 <= i < j < |frames| ==> frames[i].obs.observedAt <= frames[j].obs.observedAt
  }

  // Of the frames claiming an address, one raises an alert exactly when it is
  // the gateway's address from another device, or the frame before it was
  // another device's and less than the grace period back; and no alert about the
  // address is less than five minutes old.
  lemma SpoofsByFrames(frames: seq<Sighting>, a: Ipv4, i: nat, grace: nat)
    requires i < |frames| && FramesInOrder(frames) && forall s :: s in frames ==> Claims(s, a)
    ensures SpoofSeen(frames, a, i, grace) <==>
              && (|| (frames[i].belief.ip == Some(a) && frames[i].belief.mac != Some(frames[i].obs.mac))
                  || (i > 0 && frames[i - 1].obs.mac != frames[i].obs.mac
                      && frames[i].obs.observedAt - frames[i - 1].obs.observedAt < grace))
              && forall j :: 0 <= j < i && SpoofSeen(frames, a, j, grace) ==>
                   frames[i].obs.observedAt - frames[j].obs.observedAt >= 300 * SECOND
  {
    hide SpoofAt;
    SpoofsExactlyWhen(ClaimsIn(frames, a), i, grace);
  }

  function HolderOf(holders: map<Ipv4, (Holder, int)>, a: Ipv4): Option<Holder> {
    if a in holders then Some(holders[a].0) else None
  }

  function SpoofTable(holders: map<Ipv4, (Holder, int)>, capacity: nat, grace: nat, b: Belief, obs: Observation, victim: Ipv4)
    : map<Ipv4, (Holder, int)>
  {
    var claim := ClaimOf(b, obs);
    if claim.None? then holders
    else Inserted(holders, capacity, claim.value.0, Succeeded(HolderOf(holders, claim.value.0), claim.value.1, grace),
                  obs.observedAt, victim)
  }

  function SpoofAlerts(holders: map<Ipv4, (Holder, int)>, grace: nat, b: Belief, obs: Observation): seq<Alert> {
    var claim := ClaimOf(b, obs);
    if claim.None? then []
    else
      var (claimed, c) := claim.value;
      var holder := HolderOf(holders, claimed);
      var other := Other(holder, c.mac);
      if Spoofs(holder, c, grace)
      then [SpoofAlert(obs.mac, obs.observedAt, claimed, if other.Some? then Some(other.value.mac) else None,
                       c.impersonation, ArpOf(obs).value.senderMac != obs.mac)]
      else []
  }

  // Each holder kept is the one its address's claims lead to.
  ghost predicate Tallied(holders: map<Ipv4, (Holder, int)>, log: map<Ipv4, seq<Sighting>>, grace: nat) {
    forall a: Ipv4 :: a in holders ==> a in log && Some(holders[a].0) == HolderAfter(ClaimsIn(log[a], a), grace)
  }

  // The frames claiming an address since it was last taken on.
  ghost function Logged(holders: map<Ipv4, (Holder, int)>, log: map<Ipv4, seq<Sighting>>, a: Ipv4): seq<Sighting> {
    if a in holders && a in log then log[a] else []
  }

  lemma TalliedMore(holders: map<Ipv4, (Holder, int)>, after: map<Ipv4, (Holder, int)>, log: map<Ipv4, seq<Sighting>>,
                    a: Ipv4, frames: seq<Sighting>, grace: nat)
    requires Tallied(holders, log, grace) && OthersKept(holders, after, a)
    requires Some(after[a].0) == HolderAfter(ClaimsIn(frames, a), grace)
    ensures Tallied(after, log[a := frames], grace)
  {
    hide HolderAfter, ClaimsIn;
  }

  lemma FramesMore(frames: seq<Sighting>, s: Sighting, a: Ipv4, grace: nat)
    ensures var c, h := ClaimIn(s, a), HolderAfter(ClaimsIn(frames, a), grace);
            && HolderAfter(ClaimsIn(frames + [s], a), grace) == Some(Succeeded(h, c, grace))
            && SpoofSeen(frames + [s], a, |frames|, grace) == Spoofs(h, c, grace)
            && (h.Some? <==> frames != [])
            && (h.Some? ==> h.value.mac == frames[|frames| - 1].obs.mac)
  {
    hide Spoofs;
    assert ClaimsIn(frames + [s], a) == ClaimsIn(frames, a) + [ClaimIn(s, a)];
    ClaimsMore(ClaimsIn(frames, a), ClaimIn(s, a), grace);
    HolderIsLast(ClaimsIn(frames, a), |frames|, grace);
    assert ClaimsIn(frames, a)[..|frames|] == ClaimsIn(frames, a);
  }

  // The other device whose claim came just before.
  function PreviousHolder(before: seq<Sighting>, mac: Mac): Option<Mac> {
    if before != [] && before[|before| - 1].obs.mac != mac then Some(before[|before| - 1].obs.mac) else None
  }

  lemma ClaimsMore(claims: seq<Claim>, c: Claim, grace: nat)
    ensures HolderAfter(claims + [c], grace) == Some(Succeeded(HolderAfter(claims, grace), c, grace))
    ensures SpoofAt(claims + [c], |claims|, grace) == Spoofs(HolderAfter(claims, grace), c, grace)
  {
    assert (claims + [c])[..|claims|] == claims;
  }

  class ArpSpoof {
    const grace: nat
    const holders: BoundedMap<Ipv4, Holder>
    // The frames claiming each address held, since it was last taken on.
    ghost var log: map<Ipv4, seq<Sighting>>

    ghost predicate Valid()
      reads this, holders
    {
      holders.Valid() && Tallied(holders.entries, log, grace)
    }

    constructor (grace: nat, maxTracked: nat)
      ensures Valid() && this.grace == grace && fresh(holders) && holders.entries == map[]
      ensures holders.capacity == if maxTracked >= 1 then maxTracked else 1
    {
      this.grace := grace;
      this.holders := new BoundedMap(maxTracked);
      this.log := map[];
    }

    // A frame that claims an address joins its log, and an alert is raised
    // exactly when the log says so, naming the device that held the address.
    method Analyze(obs: Observation, belief: Belief) returns (alerts: seq<Alert>, ghost victim: Ipv4)
      requires Valid()
      modifies this, holders
      ensures Valid()
      ensures holders.entries == SpoofTable(old(holders.entries), holders.capacity, grace, belief, obs, victim)
      ensures alerts == SpoofAlerts(old(holders.entries), grace, belief, obs)
      ensures (forall a: Ipv4 :: !Claims(Sighting(obs, belief), a)) ==> alerts == [] && log == old(log)
      ensures forall a: Ipv4 :: Claims(Sighting(obs, belief), a) ==>
                var s, before := Sighting(obs, belief), Logged(old(holders.entries), old(log), a);
                && log == old(log)[a := before + [s]]
                && alerts == if SpoofSeen(log[a], a, |before|, grace)
                             then [SpoofAlert(obs.mac, obs.observedAt, a, PreviousHolder(before, obs.mac),
                                              Impersonates(s, a), Forged(s))]
                             else []
    {
      hide IsHostV4, ProxyArpFor, HolderAfter, Inserted, Oldest, NeedsRoom, OthersKept, Stamps, After, FairTrace, SpoofSeen,
           Claims, ClaimsIn, Proxies;
      victim := 0;
      alerts := [];
      var claim := ClaimOf(belief, obs);
      ghost var s := Sighting(obs, belief);
      forall a: Ipv4
        ensures Claims(s, a) ==> claim == Some((a, ClaimIn(s, a)))
        ensures claim.Some? ==> Claims(s, claim.value.0)
      {
        ClaimRead(s, a);
      }
      if claim.None? {
        return;
      }
      var (claimed, c) := claim.value;
      var now := obs.observedAt;
      var holder := holders.Get(claimed);
      var other := Other(holder, c.mac);
      var stillActive := other.Some? && 0 <= now - other.value.lastClaim < grace;
      var lastAlert := if holder.Some? then holder.value.lastAlert else None;
      if c.impersonation || stillActive {
        if CooledDown(lastAlert, now, SPOOF_COOLDOWN) {
          alerts := [SpoofAlert(obs.mac, now, claimed, if other.Some? then Some(other.value.mac) else None,
                                c.impersonation, ArpOf(obs).value.senderMac != obs.mac)];
        }
      }
      ghost var before, entries := Logged(holders.entries, log, claimed), holders.entries;
      EmptyLog(claimed, grace);
      FramesMore(before, s, claimed, grace);
      var next := Holder(c.mac, now, if alerts != [] then Some(now) else lastAlert);
      victim := holders.Insert(claimed, next, now);
      InsertedKeepsOthers(entries, holders.capacity, claimed, next, now, victim);
      TalliedMore(entries, holders.entries, log, claimed, before + [s], grace);
      log := log[claimed := before + [s]];
    }
  }

  lemma EmptyLog(a: Ipv4, grace: nat)
    ensures HolderAfter(ClaimsIn([], a), grace) == None
  {}
}
