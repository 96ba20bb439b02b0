/**
 Value types shared by every layer: hardware and network addresses, signals,
 claims and observations.

 Times and durations are integers counting nanoseconds, the resolution of the
 source's clock type.  Addresses are numbers rather than rendered text: the
 rendering is one-to-one, so comparing texts and comparing numbers agree.
 */
module Types {
  import opened Options

  const SECOND: nat := 1_000_000_000
  const HOUR: nat := 3600 * SECOND

  // ---------- addresses ----------

  type Mac = m: nat | m < 0x1_0000_0000_0000

  // The multicast bit is the low bit of the first octet.
  predicate IsGroup(m: Mac) {
    (m / 0x100_0000_0000) % 2 == 1
  }

  predicate IsZero(m: Mac) {
    m == 0
  }

  type Ipv4 = a: nat | a < 0x1_0000_0000
  type Ipv6 = a: nat | a < 0x1_0000_0000_0000_0000_0000_0000_0000_0000

  datatype IpAddr = V4(v4: Ipv4) | V6(v6: Ipv6)

  predicate IsUnspecifiedV4(a: Ipv4) { a == 0 }
  predicate IsBroadcastV4(a: Ipv4) { a == 0xFFFF_FFFF }
  predicate IsMulticastV4(a: Ipv4) { 224 <= a / 0x100_0000 < 240 }

  predicate IsUnspecifiedV6(a: Ipv6) { a == 0 }
  predicate IsMulticastV6(a: Ipv6) {
    a / 0x100_0000_0000_0000_0000_0000_0000_0000 == 0xff
  }

  // fe80::/10
  predicate IsLinkLocal(a: Ipv6) {
    a / 0x40_0000_0000_0000_0000_0000_0000_0000 == 0x3fa
  }

  // An address that names one host: what is worth keeping and worth claiming.
  predicate IsHostV4(a: Ipv4) {
    !IsUnspecifiedV4(a) && !IsBroadcastV4(a) && !IsMulticastV4(a)
  }

  predicate IsRecordable(ip: IpAddr) {
    match ip
    case V4(a) => IsHostV4(a)
    case V6(a) => !IsUnspecifiedV6(a) && !IsMulticastV6(a)
  }

  // The address as an IPv4 one, when it is one that can be shown.
  function Ipv4Of(ip: Option<IpAddr>): Option<Ipv4> {
    if ip.Some? && ip.value.V4? && !IsUnspecifiedV4(ip.value.v4) && !IsMulticastV4(ip.value.v4)
    then Some(ip.value.v4)
    else None
  }

  // The kinds of address as ranges: 224.0.0.0 to 239.255.255.255, ff00 onwards,
  // fe80 up to fec0, and an odd first octet; what is recorded and what is shown.
  lemma AddressRanges(a: Ipv4, b: Ipv6, octet: nat, rest: nat)
    requires octet < 256 && rest < 0x100_0000_0000
    ensures IsMulticastV4(a) <==> 0xE000_0000 <= a < 0xF000_0000
    ensures IsMulticastV6(b) <==> b >= 0xff00_0000_0000_0000_0000_0000_0000_0000
    ensures IsLinkLocal(b) <==>
              0xfe80_0000_0000_0000_0000_0000_0000_0000 <= b < 0xfec0_0000_0000_0000_0000_0000_0000_0000
    ensures IsRecordable(V4(a)) <==> a != 0 && a != 0xFFFF_FFFF && !(0xE000_0000 <= a < 0xF000_0000)
    ensures IsRecordable(V6(b)) <==> b != 0 && b < 0xff00_0000_0000_0000_0000_0000_0000_0000
    ensures Ipv4Of(Some(V4(a))) == if a != 0 && !(0xE000_0000 <= a < 0xF000_0000) then Some(a) else None
    ensures Ipv4Of(Some(V6(b))) == None && Ipv4Of(None) == None
    ensures octet * 0x100_0000_0000 + rest < 0x1_0000_0000_0000
    ensures IsGroup(octet * 0x100_0000_0000 + rest) <==> octet % 2 == 1
  {
    assert (octet * 0x100_0000_0000 + rest) / 0x100_0000_0000 == octet;
  }

  // ---------- text ----------

  predicate IsSpace(c: char) {
    || '\t' <= c <= '\r'
    || c in {' ', '\U{85}', '\U{A0}', '\U{1680}', '\U{2028}', '\U{2029}', '\U{202F}', '\U{205F}', '\U{3000}'}
    || '\U{2000}' <= c <= '\U{200A}'
  }

  function TrimStart(s: string): (t: string)
    ensures |t| <= |s|
  {
    if s != [] && IsSpace(s[0]) then TrimStart(s[1..]) else s
  }

  function TrimEnd(s: string): (t: string)
    ensures |t| <= |s|
  {
    if s != [] && IsSpace(s[|s| - 1]) then TrimEnd(s[..|s| - 1]) else s
  }

  function Trim(s: string): string {
    TrimEnd(TrimStart(s))
  }

  predicate IsBlank(s: string) {
    Trim(s) == ""
  }

  function Nibble(n: nat): char
    requires n < 16
  {
    "0123456789abcdef"[n]
  }

  function OctetText(m: Mac, scale: nat): string
    requires scale > 0
  {
    var octet := (m / scale) % 256;
    [Nibble(octet / 16), Nibble(octet % 16)]
  }

  // Lower-case, colon-separated hexadecimal.
  function MacText(m: Mac): string {
    OctetText(m, 0x100_0000_0000) + ":" + OctetText(m, 0x1_0000_0000) + ":" + OctetText(m, 0x100_0000)
    + ":" + OctetText(m, 0x1_0000) + ":" + OctetText(m, 0x100) + ":" + OctetText(m, 1)
  }

  // ---------- evidence ----------

  datatype SignalKind =
    | UserAssigned | MdnsName | DhcpHostname | ReverseDns | NetbiosName | SsdpFriendlyName
    | Vendor | MacKind
    | MdnsService | MdnsModel | DhcpFingerprint | DhcpVendorClass | SsdpDeviceType | SsdpServer
    | NetbiosWorkgroup | NdpRole

  // Scoring weight in tenths.
  function Weight(kind: SignalKind): nat {
    match kind
    case UserAssigned => 10
    case MdnsName => 9
    case DhcpHostname => 8
    case ReverseDns => 7
    case NetbiosName => 6
    case SsdpFriendlyName => 5
    case Vendor => 3
    case MacKind => 1
    case _ => 0
  }

  datatype Signal = Signal(kind: SignalKind, value: string)

  // Evidence, and every address the message tied it to.
  datatype NameClaim = NameClaim(signal: Signal, addresses: seq<IpAddr>) {
    predicate Matches(held: seq<IpAddr>) {
      exists a :: a in addresses && a in held
    }
  }

  // ---------- observations ----------

  datatype ObservationKind = RequestKind | ReplyKind | AnnouncementKind | QueryKind

  datatype ArpOp = Request | Reply

  datatype ArpDetail = ArpDetail(op: ArpOp, senderMac: Mac, senderIp: Option<Ipv4>, targetIp: Ipv4, gratuitous: bool)

  datatype ProtocolDetail = Arp(arp: ArpDetail) | Dhcp(router: Option<Ipv4>)

  datatype Observation = Observation(
    mac: Mac,
    ip: Option<IpAddr>,
    interface: string,
    kind: ObservationKind,
    signals: seq<Signal>,
    claims: seq<NameClaim>,
    detail: Option<ProtocolDetail>,
    observedAt: int)
}
