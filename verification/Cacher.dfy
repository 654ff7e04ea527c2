/** Choosing the MAC and the address to offer, in the cacher model (client/cacher/discovery.go). */
module Cacher {

  import opened Bytes
  import opened Jobs

  type Mac48 = m: MAC | |m| == 6 witness MIN_MAC

  const MAX_MAC: Mac48 := [255, 255, 255, 255, 255, 255]

  datatype Port = Port(typ: string, name: string, mac: Option<Mac48>)

  datatype IP = IP(address: Option<Addr>, family: int, public: bool, management: bool)

  datatype CacherInstance = CacherInstance(id: string, state: string, hostname: string, ips: seq<IP>)

  datatype Hardware = Hardware(name: string, state: string, ports: seq<Port>, ipmi: IP, ips: seq<IP>,
                               instance: Option<CacherInstance>)

  datatype Mode = InstanceMode | ManagementMode | HardwareMode | DiscoveredMode | UnknownMode

  const NO_IP := IP(None, 0, false, false)

  // ---- text order is numeric order ----------------------------------------

  /** Go's order on strings. */
  predicate TextLess(s: string, t: string) {
    t != "" && (s == "" || s[0] < t[0] || (s[0] == t[0] && TextLess(s[1..], t[1..])))
  }

  function Pow256(n: nat): nat { if n == 0 then 1 else 256 * Pow256(n - 1) }

  /** A MAC as a big-endian number. */
  function Value(m: MAC): nat {
    if m == [] then 0 else m[0] * Pow256(|m| - 1) + Value(m[1..])
  }

  lemma {:induction false} Scaled(a: nat, b: nat, p: nat)
    requires a <= b
    ensures a * p <= b * p && (a < b ==> a * p + p <= b * p)
    decreases b
  {
    if a < b {
      Scaled(a, b - 1, p);
      assert b * p == (b - 1) * p + p;
    }
  }

  lemma {:induction false} ValueBound(m: MAC)
    ensures Value(m) < Pow256(|m|)
  {
    if m != [] {
      ValueBound(m[1..]);
      Scaled(m[0], 255, Pow256(|m| - 1));
    }
  }

  lemma {:induction false} ValueOrder(m: MAC, n: MAC)
    requires |m| == |n| > 0
    ensures Value(m) < Value(n) <==> m[0] < n[0] || (m[0] == n[0] && Value(m[1..]) < Value(n[1..]))
  {
    var p := Pow256(|m| - 1);
    ValueBound(m[1..]);
    ValueBound(n[1..]);
    if m[0] < n[0] {
      Scaled(m[0], n[0], p);
    } else if n[0] < m[0] {
      Scaled(n[0], m[0], p);
    }
  }

  lemma PairOrder(a: byte, b: byte, s: string, t: string)
    ensures TextLess([HexDigit(a / 16), HexDigit(a % 16)] + s, [HexDigit(b / 16), HexDigit(b % 16)] + t)
       <==> a < b || (a == b && TextLess(s, t))
  {
    var x, y := [HexDigit(a / 16), HexDigit(a % 16)] + s, [HexDigit(b / 16), HexDigit(b % 16)] + t;
    HexDigitOrder(a / 16, b / 16);
    HexDigitOrder(a % 16, b % 16);
    assert x[1..] == [HexDigit(a % 16)] + s && y[1..] == [HexDigit(b % 16)] + t;
    assert x[1..][1..] == s && y[1..][1..] == t;
    assert TextLess(x, y) <==> x[0] < y[0] || (x[0] == y[0] && TextLess(x[1..], y[1..]));
    assert TextLess(x[1..], y[1..]) <==> x[1] < y[1] || (x[1] == y[1] && TextLess(s, t));
  }

  /** Comparing the texts of two addresses compares the addresses. */
  lemma {:induction false} TextOrder(m: MAC, n: MAC)
    requires |m| == |n|
    ensures TextLess(MacText(m), MacText(n)) <==> Value(m) < Value(n)
    decreases |m|
  {
    if m != [] {
      var s := if |m| == 1 then "" else ":" + MacText(m[1..]);
      var t := if |n| == 1 then "" else ":" + MacText(n[1..]);
      PairOrder(m[0], n[0], s, t);
      ValueOrder(m, n);
      TextOrder(m[1..], n[1..]);
      if |m| > 1 { assert s[1..] == MacText(m[1..]) && t[1..] == MacText(n[1..]); }
    }
  }

  lemma MinMaxValue(m: Mac48)
    ensures Value(MIN_MAC) == 0 && Value(m) <= Value(MAX_MAC)
  {
    ZeroValue(MIN_MAC);
    MaxValue(m, MAX_MAC);
  }

  lemma {:induction false} ZeroValue(m: MAC)
    requires forall i :: 0 <= i < |m| ==> m[i] == 0
    ensures Value(m) == 0
  {
    if m != [] { ZeroValue(m[1..]); }
  }

  lemma {:induction false} MaxValue(m: MAC, top: MAC)
    requires |m| == |top| && forall i :: 0 <= i < |top| ==> top[i] == 255
    ensures Value(m) <= Value(top)
  {
    if m != [] {
      MaxValue(m[1..], top[1..]);
      Scaled(m[0], top[0], Pow256(|m| - 1));
    }
  }

  lemma {:induction false} ValueInjective(m: MAC, n: MAC)
    requires |m| == |n| && Value(m) == Value(n)
    ensures m == n
  {
    if m != [] {
      ValueOrder(m, n);
      ValueOrder(n, m);
      assert m[0] == n[0];
      ValueInjective(m[1..], n[1..]);
      assert m == [m[0]] + m[1..] && n == [n[0]] + n[1..];
    }
  }

  // ---- the primary data MAC -----------------------------------------------

  predicate Candidate(p: Port) { p.typ == "data" && p.mac.Some? }

  predicate Eth0(p: Port) { Candidate(p) && p.name == "eth0" }

  /** The address a port reports: none for an absent or all-zero one. */
  function PortText(p: Port): string {
    if p.mac.Some? && p.mac.value != MIN_MAC then MacText(p.mac.value) else ""
  }

  function FirstEth0(ports: seq<Port>): Option<Mac48> {
    if ports == [] then None else if Eth0(ports[0]) then ports[0].mac else FirstEth0(ports[1..])
  }

  /** The numerically least address of the data ports; all ones when there is none. */
  function Least(ports: seq<Port>): Mac48 {
    if ports == [] then MAX_MAC
    else
      var l, p := Least(ports[..|ports| - 1]), ports[|ports| - 1];
      if Candidate(p) && Value(p.mac.value) < Value(l) then p.mac.value else l
  }

  function Norm(m: Mac48): Mac48 { if m == MAX_MAC then MIN_MAC else m }

  function Primary(ports: seq<Port>): Mac48 {
    match FirstEth0(ports)
    case Some(m) => Norm(m)
    case None => Norm(Least(ports))
  }

  lemma {:induction false} NoEth0(ports: seq<Port>)
    ensures FirstEth0(ports).None? <==> forall p :: p in ports ==> !Eth0(p)
  {
    if ports != [] {
      NoEth0(ports[1..]);
      assert forall p :: p in ports ==> p == ports[0] || p in ports[1..];
    }
  }

  lemma {:induction false} FirstEth0At(ports: seq<Port>, k: nat)
    requires k < |ports| && Eth0(ports[k]) && forall j :: 0 <= j < k ==> !Eth0(ports[j])
    ensures FirstEth0(ports) == ports[k].mac
    decreases k
  {
    if k > 0 { FirstEth0At(ports[1..], k - 1); }
  }

  /** A port text of "" is less than any MAC text, which only ever brings in the zero MAC. */
  lemma Compare(p: Port, mac: Mac48)
    requires Candidate(p)
    ensures p.mac.value != MIN_MAC ==> (TextLess(PortText(p), MacText(mac)) <==> Value(p.mac.value) < Value(mac))
    ensures p.mac.value == MIN_MAC ==> TextLess(PortText(p), MacText(mac))
    ensures p.mac.value == MIN_MAC && !(Value(p.mac.value) < Value(mac)) ==> mac == MIN_MAC
  {
    if p.mac.value != MIN_MAC {
      TextOrder(p.mac.value, mac);
    } else {
      MinMaxValue(mac);
      if Value(mac) == 0 { ValueInjective(mac, MIN_MAC); }
    }
  }

  /** The comparison of texts keeps the least address of one more port. */
  lemma LeastStep(ports: seq<Port>, k: nat)
    requires k < |ports| && Candidate(ports[k])
    ensures var l := Least(ports[..k]);
      Least(ports[..k + 1]) == if TextLess(PortText(ports[k]), MacText(l)) then ports[k].mac.value else l
  {
    assert ports[..k + 1][..k] == ports[..k];
    Compare(ports[k], Least(ports[..k]));
  }

  method PrimaryDataMAC(ports: seq<Port>) returns (mac: Mac48)
    ensures mac == Primary(ports)
  {
    mac := MAX_MAC;
    for k := 0 to |ports|
      invariant mac == Least(ports[..k])
      invariant forall j :: 0 <= j < k ==> !Eth0(ports[j])
    {
      var port := ports[k];
      assert ports[..k + 1][..k] == ports[..k];
      if port.typ != "data" { continue; }
      if port.mac.None? { continue; }
      if port.name == "eth0" {
        mac := port.mac.value;
        FirstEth0At(ports, k);
        break;
      }
      LeastStep(ports, k);
      if TextLess(PortText(port), MacText(mac)) {
        mac := port.mac.value;
      }
    }
    assert ports[..|ports|] == ports;
    NoEth0(ports);
    if mac == MAX_MAC { mac := MIN_MAC; }
  }

  lemma {:induction false} LeastIs(ports: seq<Port>)
    ensures forall p :: p in ports && Candidate(p) ==> Value(Least(ports)) <= Value(p.mac.value)
    ensures Least(ports) == MAX_MAC || exists p :: p in ports && Candidate(p) && p.mac.value == Least(ports)
    decreases |ports|
  {
    if ports != [] {
      var most, last := ports[..|ports| - 1], ports[|ports| - 1];
      LeastIs(most);
      assert forall p :: p in ports <==> p in most || p == last;
    }
  }

  lemma {:induction false} FirstEth0Index(ports: seq<Port>) returns (k: nat)
    requires FirstEth0(ports).Some?
    ensures k < |ports| && Eth0(ports[k]) && ports[k].mac == FirstEth0(ports)
    ensures forall j :: 0 <= j < k ==> !Eth0(ports[j])
    decreases |ports|
  {
    if Eth0(ports[0]) {
      k := 0;
    } else {
      k := FirstEth0Index(ports[1..]);
      k := k + 1;
    }
  }

  // ---- independence of the order of ports ---------------------------------

  ghost predicate SamePorts(a: seq<Port>, b: seq<Port>) { forall p :: p in a <==> p in b }

  /** All data ports named eth0 that have a MAC have, up to all ones and zero, the same one. */
  ghost predicate Agreed(ports: seq<Port>) {
    forall p, q :: p in ports && q in ports && Eth0(p) && Eth0(q) ==> Norm(p.mac.value) == Norm(q.mac.value)
  }

  lemma LeastBelow(a: seq<Port>, b: seq<Port>)
    requires SamePorts(a, b)
    ensures Value(Least(a)) <= Value(Least(b))
  {
    LeastIs(a);
    LeastIs(b);
    MinMaxValue(Least(a));
    if Least(b) != MAX_MAC {
      var p :| p in b && Candidate(p) && p.mac.value == Least(b);
      assert p in a;
    }
  }

  lemma SetDetermines(a: seq<Port>, b: seq<Port>)
    requires SamePorts(a, b) && Agreed(a)
    ensures Primary(a) == Primary(b)
  {
    NoEth0(a);
    NoEth0(b);
    if FirstEth0(a).None? {
      LeastBelow(a, b);
      LeastBelow(b, a);
      ValueInjective(Least(a), Least(b));
    } else {
      var j := FirstEth0Index(a);
      var k := FirstEth0Index(b);
      assert a[j] in a && b[k] in a;
    }
  }

  ghost predicate Permutation(a: seq<Port>, b: seq<Port>) { multiset(a) == multiset(b) }

  lemma PermutationSame(a: seq<Port>, b: seq<Port>)
    requires Permutation(a, b)
    ensures SamePorts(a, b)
  {
    forall p ensures p in a <==> p in b {
      assert p in a <==> p in multiset(a);
      assert p in b <==> p in multiset(b);
    }
  }

  /** With two rival eth0 ports, exchanging them changes the answer. */
  lemma RivalsMatter(ports: seq<Port>, k: nat, j: nat)
    requires k < j < |ports| && Eth0(ports[k]) && Eth0(ports[j])
    requires forall i :: 0 <= i < k ==> !Eth0(ports[i])
    requires Norm(ports[k].mac.value) != Norm(ports[j].mac.value)
    ensures var b := ports[k := ports[j]][j := ports[k]]; Permutation(ports, b) && Primary(b) != Primary(ports)
  {
    var b := ports[k := ports[j]][j := ports[k]];
    FirstEth0At(ports, k);
    FirstEth0At(b, k);
  }

  /** The primary data MAC does not depend on the order of the ports exactly when no two
      eth0 data ports disagree. */
  lemma OrderIndependentIff(ports: seq<Port>)
    ensures (forall b: seq<Port> :: Permutation(ports, b) ==> Primary(b) == Primary(ports)) <==> Agreed(ports)
  {
    if Agreed(ports) {
      forall b: seq<Port> | Permutation(ports, b) ensures Primary(b) == Primary(ports) {
        PermutationSame(ports, b);
        SetDetermines(ports, b);
      }
    } else {
      var b := RivalOrder(ports);
    }
  }

  lemma RivalOrder(ports: seq<Port>) returns (b: seq<Port>)
    requires !Agreed(ports)
    ensures Permutation(ports, b) && Primary(b) != Primary(ports)
  {
    var p, q :| p in ports && q in ports && Eth0(p) && Eth0(q) && Norm(p.mac.value) != Norm(q.mac.value);
    NoEth0(ports);
    var k := FirstEth0Index(ports);
    var rival := if Norm(p.mac.value) != Norm(ports[k].mac.value) then p else q;
    var j :| 0 <= j < |ports| && ports[j] == rival;
    RivalsMatter(ports, k, j);
    b := ports[k := ports[j]][j := ports[k]];
  }

  /** Without eth0, the numeric minimum, with all ones counted as no address at all. */
  lemma FallbackIsLeast(ports: seq<Port>)
    requires forall p :: p in ports ==> !Eth0(p)
    ensures var m := Primary(ports);
      if exists p :: p in ports && Candidate(p) && p.mac.value != MAX_MAC
      then (exists p :: p in ports && Candidate(p) && p.mac.value == m)
        && (forall p :: p in ports && Candidate(p) ==> Value(m) <= Value(p.mac.value))
      else m == MIN_MAC
  {
    NoEth0(ports);
    LeastIs(ports);
    if p :| p in ports && Candidate(p) && p.mac.value != MAX_MAC {
      if Least(ports) == MAX_MAC {
        MinMaxValue(p.mac.value);
        ValueInjective(p.mac.value, MAX_MAC);
      }
    }
  }

  // ---- the two cascades ---------------------------------------------------

  function MacIsType(ports: seq<Port>, mac: string, typ: string): bool {
    ports != [] && (if PortText(ports[0]) == mac then ports[0].typ == typ else MacIsType(ports[1..], mac, typ))
  }

  function FindIP(ips: seq<IP>, pred: IP -> bool): Option<IP> {
    if ips == [] then None else if pred(ips[0]) then Some(ips[0]) else FindIP(ips[1..], pred)
  }

  predicate ManagementPublicIPv4(ip: IP) { ip.public && ip.management && ip.family == 4 }

  predicate ManagementPrivateIPv4(ip: IP) { !ip.public && ip.management && ip.family == 4 }

  predicate PrivateIPv4(ip: IP) { ip.family == 4 && !ip.public }

  function HwIP(h: Hardware): Option<IP> { FindIP(h.ips, PrivateIPv4) }

  predicate IsPrimaryData(h: Hardware, mac: string) {
    MacIsType(h.ports, mac, "data") && MacText(Primary(h.ports)) == mac
  }

  function InstanceIP(h: Hardware, mac: string): Option<IP> {
    if h.instance.None? || h.instance.value.id == "" || !IsPrimaryData(h, mac) then None
    else
      var i := h.instance.value;
      var public, private := FindIP(i.ips, ManagementPublicIPv4), FindIP(i.ips, ManagementPrivateIPv4);
      if public.Some? then public
      else if private.Some? then private
      else if i.state == "provisioning" || i.state == "deprovisioning" then HwIP(h)
      else None
  }

  function HardwareIP(h: Hardware, mac: string): Option<IP> {
    if IsPrimaryData(h, mac) then HwIP(h) else None
  }

  function ManagementIP(h: Hardware, mac: string): Option<IP> {
    if MacIsType(h.ports, mac, "ipmi") && h.name != "" then Some(h.ipmi) else None
  }

  function DiscoveredIP(h: Hardware, mac: string): Option<IP> {
    if MacIsType(h.ports, mac, "ipmi") && h.name == "" then Some(h.ipmi) else None
  }

  function ModeOf(h: Hardware, mac: string): Mode {
    if InstanceIP(h, mac).Some? then InstanceMode
    else if ManagementIP(h, mac).Some? then ManagementMode
    else if HardwareIP(h, mac).Some? then HardwareMode
    else if DiscoveredIP(h, mac).Some? then DiscoveredMode
    else UnknownMode
  }

  function GetIP(h: Hardware, mac: string): IP {
    if InstanceIP(h, mac).Some? then InstanceIP(h, mac).value
    else if ManagementIP(h, mac).Some? then ManagementIP(h, mac).value
    else if HardwareIP(h, mac).Some? then HardwareIP(h, mac).value
    else if DiscoveredIP(h, mac).Some? then DiscoveredIP(h, mac).value
    else NO_IP
  }

  /** None is the error return. */
  function HostnameOf(h: Hardware, mac: string): Option<string> {
    match ModeOf(h, mac)
    case InstanceMode => if h.state == "deprovisioning" then Some(h.name) else Some(h.instance.value.hostname)
    case UnknownMode => None
    case _ => Some(h.name)
  }

  /** The first match, and none only when there is none. */
  lemma {:induction false} FindIPIsFirst(ips: seq<IP>, pred: IP -> bool)
    ensures FindIP(ips, pred).None? <==> forall k :: 0 <= k < |ips| ==> !pred(ips[k])
    ensures FindIP(ips, pred).Some? ==>
      exists k: nat :: FirstMatch(ips, pred, k) && FindIP(ips, pred).value == ips[k]
    decreases |ips|
  {
    if ips != [] {
      if pred(ips[0]) {
        assert FirstMatch(ips, pred, 0);
      } else {
        var rest := ips[1..];
        FindIPIsFirst(rest, pred);
        if FindIP(rest, pred).Some? {
          var k: nat :| FirstMatch(rest, pred, k) && FindIP(rest, pred).value == rest[k];
          assert FirstMatch(ips, pred, k + 1);
        } else {
          assert forall k :: 0 < k < |ips| ==> ips[k] == rest[k - 1];
        }
      }
    }
  }

  ghost predicate FirstMatch(ips: seq<IP>, pred: IP -> bool, k: nat) {
    k < |ips| && pred(ips[k]) && forall j :: 0 <= j < k ==> !pred(ips[j])
  }

  /** The address is the one the mode names: the cascades take the same branch. */
  lemma CascadesAgree(h: Hardware, mac: string)
    ensures Some(GetIP(h, mac)) == match ModeOf(h, mac)
      case InstanceMode => InstanceIP(h, mac)
      case ManagementMode => ManagementIP(h, mac)
      case HardwareMode => HardwareIP(h, mac)
      case DiscoveredMode => DiscoveredIP(h, mac)
      case UnknownMode => Some(NO_IP)
    ensures HostnameOf(h, mac).None? <==> ModeOf(h, mac).UnknownMode?
    ensures GetIP(h, mac).address.Some? ==> HostnameOf(h, mac).Some?
  {
  }

  ghost predicate Offered(h: Hardware, mac: MAC) { GetIP(h, MacText(mac)).address.Some? }

  lemma {:induction false} TypeOfPort(ports: seq<Port>, mac: MAC, typ: string)
    requires mac != [] && MacIsType(ports, MacText(mac), typ)
    ensures mac != MIN_MAC
    ensures exists p :: p in ports && p.typ == typ && p.mac == Some(mac)
  {
    var p := ports[0];
    if PortText(p) == MacText(mac) {
      assert MacText(mac) != "";
      MacTextInjective(p.mac.value, mac);
      assert p in ports;
    } else {
      TypeOfPort(ports[1..], mac, typ);
      var q :| q in ports[1..] && q.typ == typ && q.mac == Some(mac);
      assert q in ports;
    }
  }

  /** A port that is not a BMC's is offered an address only if it is the primary data
      port, and never when that has no real address: at most one data MAC per record. */
  lemma OneDataMac(h: Hardware, mac: MAC)
    requires Offered(h, mac) && !MacIsType(h.ports, MacText(mac), "ipmi")
    ensures mac == Primary(h.ports) && mac != MIN_MAC
    ensures exists p :: p in h.ports && p.typ == "data" && p.mac == Some(mac)
  {
    assert IsPrimaryData(h, MacText(mac));
    MacTextInjective(Primary(h.ports), mac);
    TypeOfPort(h.ports, mac, "data");
  }

  /** Which address the primary data port is offered. */
  lemma AddressChoice(h: Hardware, mac: string)
    requires IsPrimaryData(h, mac) && h.instance.Some? && h.instance.value.id != ""
    ensures
      var ips, ip := h.instance.value.ips, GetIP(h, mac);
      if exists k :: 0 <= k < |ips| && ManagementPublicIPv4(ips[k]) then Some(ip) == FindIP(ips, ManagementPublicIPv4)
      else if exists k :: 0 <= k < |ips| && ManagementPrivateIPv4(ips[k]) then Some(ip) == FindIP(ips, ManagementPrivateIPv4)
      else if HwIP(h).Some? then Some(ip) == HwIP(h)
      else ip == NO_IP
  {
    var ips := h.instance.value.ips;
    FindIPIsFirst(ips, ManagementPublicIPv4);
    FindIPIsFirst(ips, ManagementPrivateIPv4);
    NotBothTypes(h.ports, mac, "data", "ipmi");
  }

  lemma {:induction false} NotBothTypes(ports: seq<Port>, mac: string, t: string, u: string)
    requires MacIsType(ports, mac, t) && t != u
    ensures !MacIsType(ports, mac, u)
  {
    if PortText(ports[0]) != mac { NotBothTypes(ports[1..], mac, t, u); }
  }

  /** The state of an instance changes the name a machine is given, never its address. */
  lemma StateOnlyNames(h: Hardware, mac: string, state: string)
    requires h.instance.Some?
    ensures GetIP(h.(instance := Some(h.instance.value.(state := state))), mac) == GetIP(h, mac)
  {
    if IsPrimaryData(h, mac) { NotBothTypes(h.ports, mac, "data", "ipmi"); }
  }

  // ---- every address, read off the record ---------------------------------

  /** The first port with this MAC. */
  ghost predicate FirstPort(ports: seq<Port>, mac: Mac48, k: nat) {
    k < |ports| && ports[k].mac == Some(mac) && forall j :: 0 <= j < k ==> ports[j].mac != Some(mac)
  }

  lemma PortTextIff(p: Port, mac: Mac48)
    requires mac != [0, 0, 0, 0, 0, 0]
    ensures PortText(p) == MacText(mac) <==> p.mac == Some(mac)
  {
    assert MacText(mac) != "";
    if p.mac.Some? && MacText(p.mac.value) == MacText(mac) { MacTextInjective(p.mac.value, mac); }
  }

  lemma {:induction false} TypeAt(ports: seq<Port>, mac: Mac48, k: nat, typ: string)
    requires mac != [0, 0, 0, 0, 0, 0] && FirstPort(ports, mac, k)
    ensures MacIsType(ports, MacText(mac), typ) <==> ports[k].typ == typ
    decreases k
  {
    PortTextIff(ports[0], mac);
    if k > 0 {
      assert FirstPort(ports[1..], mac, k - 1);
      TypeAt(ports[1..], mac, k - 1, typ);
    }
  }

  lemma {:induction false} NoType(ports: seq<Port>, mac: Mac48, typ: string)
    requires mac == [0, 0, 0, 0, 0, 0] || forall p :: p in ports ==> p.mac != Some(mac)
    ensures !MacIsType(ports, MacText(mac), typ)
  {
    if MacIsType(ports, MacText(mac), typ) { TypeOfPort(ports, mac, typ); }
  }

  /** An IPv4 address, public or private, and of the management network if asked. */
  predicate Matches(ip: IP, public: bool, management: bool) {
    ip.family == 4 && ip.public == public && (management ==> ip.management)
  }

  ghost predicate FirstMatching(ips: seq<IP>, k: nat, public: bool, management: bool) {
    k < |ips| && Matches(ips[k], public, management) && forall j :: 0 <= j < k ==> !Matches(ips[j], public, management)
  }

  ghost predicate NoneMatches(ips: seq<IP>, public: bool, management: bool) {
    forall j :: 0 <= j < |ips| ==> !Matches(ips[j], public, management)
  }

  lemma FindIPMatches(ips: seq<IP>, pred: IP -> bool, public: bool, management: bool)
    requires forall ip :: pred(ip) <==> Matches(ip, public, management)
    ensures FindIP(ips, pred).None? <==> NoneMatches(ips, public, management)
    ensures forall k: nat :: FirstMatching(ips, k, public, management) ==> FindIP(ips, pred) == Some(ips[k])
  {
    FindIPIsFirst(ips, pred);
    if FindIP(ips, pred).Some? {
      var m: nat :| FirstMatch(ips, pred, m) && FindIP(ips, pred).value == ips[m];
      assert forall k: nat :: FirstMatching(ips, k, public, management) ==> k == m;
    }
  }

  lemma ThreeSearches(h: Hardware, i: CacherInstance)
    ensures FindIP(i.ips, ManagementPublicIPv4).None? <==> NoneMatches(i.ips, true, true)
    ensures FindIP(i.ips, ManagementPrivateIPv4).None? <==> NoneMatches(i.ips, false, true)
    ensures HwIP(h).None? <==> NoneMatches(h.ips, false, false)
    ensures forall k: nat :: FirstMatching(i.ips, k, true, true) ==> FindIP(i.ips, ManagementPublicIPv4) == Some(i.ips[k])
    ensures forall k: nat :: FirstMatching(i.ips, k, false, true) ==> FindIP(i.ips, ManagementPrivateIPv4) == Some(i.ips[k])
    ensures forall k: nat :: FirstMatching(h.ips, k, false, false) ==> HwIP(h) == Some(h.ips[k])
  {
    FindIPMatches(i.ips, ManagementPublicIPv4, true, true);
    FindIPMatches(i.ips, ManagementPrivateIPv4, false, true);
    FindIPMatches(h.ips, PrivateIPv4, false, false);
  }

  predicate HasInstance(h: Hardware) { h.instance.Some? && h.instance.value.id != "" }

  /** The instance's own addresses come first: public, then private. */
  ghost predicate InstanceAddress(h: Hardware, ip: IP)
    requires HasInstance(h)
  {
    var ips := h.instance.value.ips;
    || (exists k: nat :: FirstMatching(ips, k, true, true) && ip == ips[k])
    || (NoneMatches(ips, true, true) && exists k: nat :: FirstMatching(ips, k, false, true) && ip == ips[k])
  }

  ghost predicate NoInstanceAddress(h: Hardware) {
    !HasInstance(h) || (NoneMatches(h.instance.value.ips, true, true) && NoneMatches(h.instance.value.ips, false, true))
  }

  /** A data port: only the primary one has an address, the instance's or else the first
      private one of the hardware. */
  lemma DataAddress(h: Hardware, mac: Mac48, p: nat)
    requires mac != [0, 0, 0, 0, 0, 0] && FirstPort(h.ports, mac, p) && h.ports[p].typ == "data"
    ensures var ip, mode := GetIP(h, MacText(mac)), ModeOf(h, MacText(mac));
      && (mac != Primary(h.ports) ==> ip == NO_IP && mode == UnknownMode)
      && (mac == Primary(h.ports) && !NoInstanceAddress(h) ==> InstanceAddress(h, ip) && mode == InstanceMode)
      && (mac == Primary(h.ports) && NoInstanceAddress(h) ==> HardwareAddress(h, ip, mode))
  {
    TypeAt(h.ports, mac, p, "data");
    TypeAt(h.ports, mac, p, "ipmi");
    if MacText(Primary(h.ports)) == MacText(mac) { MacTextInjective(Primary(h.ports), mac); }
    ThreeSearches(h, if h.instance.Some? then h.instance.value else CacherInstance("", "", "", []));
    FirstExists(h.ips, false, false);
    if HasInstance(h) {
      FirstExists(h.instance.value.ips, true, true);
      FirstExists(h.instance.value.ips, false, true);
    }
  }

  /** While an instance is set up or removed the hardware's address counts as its own. */
  ghost predicate HardwareAddress(h: Hardware, ip: IP, mode: Mode) {
    if NoneMatches(h.ips, false, false) then ip == NO_IP && mode == UnknownMode
    else
      && (exists k: nat :: FirstMatching(h.ips, k, false, false) && ip == h.ips[k])
      && mode == (if HasInstance(h) && (h.instance.value.state == "provisioning" || h.instance.value.state == "deprovisioning")
                  then InstanceMode else HardwareMode)
  }

  lemma {:induction false} FirstExists(ips: seq<IP>, public: bool, management: bool)
    ensures NoneMatches(ips, public, management) || exists k: nat :: FirstMatching(ips, k, public, management)
    decreases |ips|
  {
    if ips != [] {
      var most := ips[..|ips| - 1];
      FirstExists(most, public, management);
      if k: nat :| FirstMatching(most, k, public, management) {
        assert FirstMatching(ips, k, public, management);
      } else if Matches(ips[|ips| - 1], public, management) {
        assert forall j :: 0 <= j < |most| ==> most[j] == ips[j];
        assert FirstMatching(ips, |ips| - 1, public, management);
      }
    }
  }

  /** A BMC has the management address, under a name of its own once it has one. */
  lemma BmcAddress(h: Hardware, mac: Mac48, p: nat)
    requires mac != [0, 0, 0, 0, 0, 0] && FirstPort(h.ports, mac, p) && h.ports[p].typ == "ipmi"
    ensures GetIP(h, MacText(mac)) == h.ipmi && HostnameOf(h, MacText(mac)) == Some(h.name)
    ensures ModeOf(h, MacText(mac)) == if h.name != "" then ManagementMode else DiscoveredMode
  {
    TypeAt(h.ports, mac, p, "data");
    TypeAt(h.ports, mac, p, "ipmi");
  }

  /** Nothing for any other MAC. */
  lemma OtherAddress(h: Hardware, mac: Mac48)
    requires mac == [0, 0, 0, 0, 0, 0] || (forall p :: p in h.ports ==> p.mac != Some(mac))
      || exists k: nat :: FirstPort(h.ports, mac, k) && h.ports[k].typ != "data" && h.ports[k].typ != "ipmi"
    ensures GetIP(h, MacText(mac)) == NO_IP && HostnameOf(h, MacText(mac)) == None
  {
    if mac == [0, 0, 0, 0, 0, 0] || forall p :: p in h.ports ==> p.mac != Some(mac) {
      NoType(h.ports, mac, "data");
      NoType(h.ports, mac, "ipmi");
    } else {
      var k: nat :| FirstPort(h.ports, mac, k) && h.ports[k].typ != "data" && h.ports[k].typ != "ipmi";
      TypeAt(h.ports, mac, k, "data");
      TypeAt(h.ports, mac, k, "ipmi");
    }
  }

  /** The first data port named eth0 that has a MAC wins over every other. */
  lemma Eth0Wins(ports: seq<Port>, k: nat)
    requires k < |ports| && ports[k].typ == "data" && ports[k].name == "eth0" && ports[k].mac.Some?
    requires forall j :: 0 <= j < k ==> ports[j].typ != "data" || ports[j].name != "eth0" || ports[j].mac.None?
    ensures Primary(ports) == if ports[k].mac.value == [255, 255, 255, 255, 255, 255] then [0, 0, 0, 0, 0, 0] else ports[k].mac.value
  {
    FirstEth0At(ports, k);
  }

  // ---- a job made from the record -----------------------------------------

  datatype SetupResult = NoIP | NoHostname | Ready(ip: IP, hostname: string)

  class Discovery {
    const hw: Hardware
    var mac: MAC

    constructor (hw: Hardware)
      ensures this.hw == hw && mac == []
    {
      this.hw := hw;
      mac := [];
    }

    method SetMAC(mac: MAC)
      modifies this
      ensures this.mac == mac
    {
      this.mac := mac;
    }

    /** The name of the instance unless it is being removed, of the hardware in every other
        known mode. Uses the MAC that was set, not a parameter. */
    method Hostname() returns (name: Option<string>)
      ensures name.None? <==> ModeOf(hw, MacText(mac)).UnknownMode?
      ensures ModeOf(hw, MacText(mac)).InstanceMode? && hw.state != "deprovisioning" ==>
        hw.instance.Some? && name == Some(hw.instance.value.hostname)
      ensures name.Some? && (!ModeOf(hw, MacText(mac)).InstanceMode? || hw.state == "deprovisioning") ==>
        name == Some(hw.name)
    {
      match ModeOf(hw, MacText(mac)) {
        case DiscoveredMode | ManagementMode => name := Some(hw.name);
        case InstanceMode =>
          name := Some(hw.instance.value.hostname);
          if hw.state == "deprovisioning" { name := Some(hw.name); }
        case HardwareMode => name := Some(hw.name);
        case UnknownMode => name := None;
      }
    }
  }

  /** A job that gets an address always gets a host name. */
  method SetupJob(d: Discovery, mac: MAC) returns (r: SetupResult)
    modifies d
    ensures d.mac == mac && r != NoHostname
    ensures r == NoIP <==> !Offered(d.hw, mac)
    ensures r.Ready? ==> r.ip == GetIP(d.hw, MacText(mac)) && Some(r.hostname) == HostnameOf(d.hw, MacText(mac))
  {
    d.SetMAC(mac);
    var ip := GetIP(d.hw, MacText(mac));
    if ip.address.None? { return NoIP; }
    var name := d.Hostname();
    r := if name.None? then NoHostname else Ready(ip, name.value);
    CascadesAgree(d.hw, MacText(mac));
  }
}
