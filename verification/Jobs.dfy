/**
 Hardware records in the Tinkerbell model and the jobs made from them
 (client/instance.go, client/tinkerbell/discovery.go, job/job.go, job/helpers.go).
 */
module Jobs {
  import opened Bytes

  type MAC = seq<byte>
  type Addr = string

  datatype Instance = Instance(id: string, state: string, allowPXE: bool, osSlug: string)

  /** A network interface; the zero value has no address and allows nothing. */
  datatype Interface = Interface(mac: MAC, addr: Option<Addr>, allowPXE: bool)

  datatype Record = Record(id: string, state: string, provisioner: string,
                           interfaces: seq<Interface>, instance: Option<Instance>)

  const MIN_MAC: MAC := [0, 0, 0, 0, 0, 0]

  function NoInterface(): Interface { Interface([], None, false) }

  // ---- the textual form of a MAC ------------------------------------------

  /** net.HardwareAddr.String: two lower-case digits a byte, joined by colons. */
  function MacText(m: MAC): string {
    if m == [] then ""
    else [HexDigit(m[0] / 16), HexDigit(m[0] % 16)] + (if |m| == 1 then "" else ":" + MacText(m[1..]))
  }

  lemma HexDigitOrder(a: nat, b: nat)
    requires a < 16 && b < 16
    ensures HexDigit(a) == HexDigit(b) <==> a == b
    ensures HexDigit(a) < HexDigit(b) <==> a < b
    ensures HexDigit(a) != ':'
  {
  }

  lemma {:induction false} MacTextInjective(m: MAC, n: MAC)
    requires MacText(m) == MacText(n)
    ensures m == n
    decreases |m|
  {
    if m == [] || n == [] {
    } else {
      var s, t := MacText(m), MacText(n);
      assert s[0] == t[0] && s[1] == t[1];
      HexDigitOrder(m[0] / 16, n[0] / 16);
      HexDigitOrder(m[0] % 16, n[0] % 16);
      assert m[0] == 16 * (m[0] / 16) + m[0] % 16 && n[0] == 16 * (n[0] / 16) + n[0] % 16;
      assert |m| > 1 <==> |s| > 2;
      if |m| > 1 {
        assert s[3..] == MacText(m[1..]) && t[3..] == MacText(n[1..]);
        MacTextInjective(m[1..], n[1..]);
        assert m == [m[0]] + m[1..] && n == [n[0]] + n[1..];
      } else {
        assert |n| == 1;
      }
    }
  }

  /** The character of a digit: 0 to 9 and then a to f. */
  predicate IsHex(c: char, n: int) {
    (0 <= n < 10 && c == '0' + n as char) || (n == 10 && c == 'a') || (n == 11 && c == 'b') || (n == 12 && c == 'c')
    || (n == 13 && c == 'd') || (n == 14 && c == 'e') || (n == 15 && c == 'f')
  }

  /** The text of an address, character by character: two digits a byte, a colon between bytes. */
  lemma {:induction false} MacTextIs(m: MAC, i: nat)
    requires i < |m|
    ensures |MacText(m)| == 3 * |m| - 1
    ensures IsHex(MacText(m)[3 * i], m[i] / 16) && IsHex(MacText(m)[3 * i + 1], m[i] % 16)
    ensures i + 1 < |m| ==> MacText(m)[3 * i + 2] == ':'
    decreases |m|
  {
    if |m| > 1 {
      var rest := m[1..];
      MacTextIs(rest, if i == 0 then 0 else i - 1);
      if i > 0 {
        assert MacText(m)[3 * i] == MacText(rest)[3 * (i - 1)];
        assert MacText(m)[3 * i + 1] == MacText(rest)[3 * (i - 1) + 1];
        if i + 1 < |m| { assert MacText(m)[3 * i + 2] == MacText(rest)[3 * (i - 1) + 2]; }
      }
    }
  }

  // ---- lookups ------------------------------------------------------------

  function InterfaceByMac(ifs: seq<Interface>, mac: MAC): Interface {
    if ifs == [] then NoInterface()
    else if MacText(ifs[0].mac) == MacText(mac) then ifs[0] else InterfaceByMac(ifs[1..], mac)
  }

  /** A nil address has a text of its own, "<nil>". */
  function AddrText(a: Option<Addr>): string {
    if a.None? then "<nil>" else a.value
  }

  function InterfaceByIP(ifs: seq<Interface>, ip: Option<Addr>): Interface {
    if ifs == [] then NoInterface()
    else if AddrText(ifs[0].addr) == AddrText(ip) then ifs[0] else InterfaceByIP(ifs[1..], ip)
  }

  /** No earlier interface has the same MAC. */
  ghost predicate FirstWithMac(ifs: seq<Interface>, k: nat) {
    k < |ifs| && forall j :: 0 <= j < k ==> ifs[j].mac != ifs[k].mac
  }

  ghost predicate FirstWithAddr(ifs: seq<Interface>, k: nat) {
    k < |ifs| && forall j :: 0 <= j < k ==> AddrText(ifs[j].addr) != AddrText(ifs[k].addr)
  }

  lemma {:induction false} ByMacFinds(ifs: seq<Interface>, mac: MAC)
    ensures
      var i := InterfaceByMac(ifs, mac);
      || (i == NoInterface() && forall j :: 0 <= j < |ifs| ==> ifs[j].mac != mac)
      || exists k: nat :: FirstWithMac(ifs, k) && ifs[k].mac == mac && i == ifs[k]
  {
    if ifs != [] {
      if MacText(ifs[0].mac) == MacText(mac) {
        MacTextInjective(ifs[0].mac, mac);
        assert FirstWithMac(ifs, 0);
      } else {
        ByMacFinds(ifs[1..], mac);
        var rest := ifs[1..];
        if k: nat :| FirstWithMac(rest, k) && rest[k].mac == mac && InterfaceByMac(rest, mac) == rest[k] {
          assert ifs[k + 1] == rest[k];
          forall j | 0 <= j < k + 1 ensures ifs[j].mac != ifs[k + 1].mac {
            if j > 0 { assert ifs[j] == rest[j - 1]; }
          }
          assert FirstWithMac(ifs, k + 1);
        }
      }
    }
  }

  lemma {:induction false} ByMacAt(ifs: seq<Interface>, k: nat)
    requires FirstWithMac(ifs, k)
    ensures InterfaceByMac(ifs, ifs[k].mac) == ifs[k]
    decreases k
  {
    if k > 0 {
      if MacText(ifs[0].mac) == MacText(ifs[k].mac) { MacTextInjective(ifs[0].mac, ifs[k].mac); }
      assert FirstWithMac(ifs[1..], k - 1);
      ByMacAt(ifs[1..], k - 1);
    }
  }

  lemma {:induction false} ByIPAt(ifs: seq<Interface>, k: nat)
    requires FirstWithAddr(ifs, k)
    ensures InterfaceByIP(ifs, ifs[k].addr) == ifs[k]
    decreases k
  {
    if k > 0 {
      assert FirstWithAddr(ifs[1..], k - 1);
      ByIPAt(ifs[1..], k - 1);
    }
  }

  /** Looking up by MAC and by address are inverse to each other at every interface
      that is the first with its MAC and the first with its address. */
  lemma LookupsInverse(ifs: seq<Interface>, k: nat)
    requires FirstWithMac(ifs, k) && FirstWithAddr(ifs, k)
    ensures InterfaceByIP(ifs, InterfaceByMac(ifs, ifs[k].mac).addr) == ifs[k]
    ensures InterfaceByMac(ifs, InterfaceByIP(ifs, ifs[k].addr).mac) == ifs[k]
  {
    ByMacAt(ifs, k);
    ByIPAt(ifs, k);
  }

  lemma {:induction false} ByIPFinds(ifs: seq<Interface>, ip: Option<Addr>)
    ensures
      var i := InterfaceByIP(ifs, ip);
      || (i == NoInterface() && forall j :: 0 <= j < |ifs| ==> AddrText(ifs[j].addr) != AddrText(ip))
      || exists k: nat :: FirstWithAddr(ifs, k) && AddrText(ifs[k].addr) == AddrText(ip) && i == ifs[k]
  {
    if ifs != [] {
      if AddrText(ifs[0].addr) == AddrText(ip) {
        assert FirstWithAddr(ifs, 0);
      } else {
        ByIPFinds(ifs[1..], ip);
        var rest := ifs[1..];
        if k: nat :| FirstWithAddr(rest, k) && AddrText(rest[k].addr) == AddrText(ip) && InterfaceByIP(rest, ip) == rest[k] {
          assert ifs[k + 1] == rest[k];
          forall j | 0 <= j < k + 1 ensures AddrText(ifs[j].addr) != AddrText(ifs[k + 1].addr) {
            if j > 0 { assert ifs[j] == rest[j - 1]; }
          }
          assert FirstWithAddr(ifs, k + 1);
        }
      }
    }
  }

  // ---- jobs ---------------------------------------------------------------

  datatype Job = Job(mac: MAC, record: Record, engine: string) {
    function InstanceID(): string {
      if record.instance.None? then "" else record.instance.value.id
    }

    /** Only records with an id have a state. */
    function HardwareState(): string {
      if record.id == "" then "" else record.state
    }

    function OsSlug(): string {
      if record.instance.None? then "" else record.instance.value.osSlug
    }

    /** The hardware flag of the job's interface, or else the instance's flag. */
    predicate AllowPXE() {
      || InterfaceByMac(record.interfaces, mac).allowPXE
      || (InstanceID() != "" && record.instance.value.allowPXE)
    }

    predicate AreWeProvisioner() {
      record.provisioner == "" || record.provisioner == engine
    }
  }

  /** CreateFromDHCP: no job without an address for the MAC. */
  function FromDHCP(r: Record, mac: MAC, engine: string): Option<Job> {
    if InterfaceByMac(r.interfaces, mac).addr.None? then None else Some(Job(mac, r, engine))
  }

  datatype FromIPResult = Created(job: Job) | NoAddress | ZeroMac | NilMac

  /** CreateFromIP, for a record the backend found for `ip`: a zero MAC is fatal, and an
      interface without any is a nil dereference. */
  function FromIP(r: Record, ip: Option<Addr>, engine: string): FromIPResult {
    var i := InterfaceByIP(r.interfaces, ip);
    if i == NoInterface() then NilMac
    else if MacText(i.mac) == MacText(MIN_MAC) then ZeroMac
    else if InterfaceByMac(r.interfaces, i.mac).addr.None? then NoAddress
    else Created(Job(i.mac, r, engine))
  }

  // ---- what to boot -------------------------------------------------------

  /** What the request says about the client. */
  datatype Client = Client(tinkerbellIPXE: bool, arm: bool, uefi: bool, httpClient: bool)

  datatype Choice = NoFile | File(name: string, http: bool, fromBoots: bool)

  /** The file name setPXEFilename settles on. */
  function PxeFile(j: Job, c: Client): Choice {
    if j.HardwareState() == "in_use"
       && (|| j.InstanceID() == ""
           || j.record.instance.value.state != "active"
           || (!j.AllowPXE() && j.OsSlug() != "custom_ipxe"))
    then NoFile
    else if !c.tinkerbellIPXE then
      File(if c.arm then "snp.efi" else if c.uefi then "ipxe.efi" else "undionly.kpxe", c.httpClient, false)
    else if !j.AllowPXE() then File("nonexistent", c.httpClient, true)
    else File("auto.ipxe", true, true)
  }

  /** The names serveBootScript knows. */
  predicate IsScript(name: string) { name == "auto" || name == "shell" }

  /** The job handler serves a script only when PXE is allowed. */
  predicate ServesScript(j: Job, name: string) {
    j.AllowPXE() && IsScript(name)
  }

  // ---- the same, read off the record --------------------------------------

  /** The record's instance is one with an id. */
  predicate HasInstance(r: Record) { r.instance.Some? && r.instance.value.id != "" }

  /** The first interface with the MAC allows PXE, or else the instance does. */
  ghost predicate PxeAllowed(r: Record, mac: MAC) {
    || (exists k: nat :: FirstWithMac(r.interfaces, k) && r.interfaces[k].mac == mac && r.interfaces[k].allowPXE)
    || (HasInstance(r) && r.instance.value.allowPXE)
  }

  /** The record has an id and says its hardware is in use. */
  predicate InUse(r: Record) { r.id != "" && r.state == "in_use" }

  predicate ActiveInstance(r: Record) { HasInstance(r) && r.instance.value.state == "active" }

  lemma AllowPXEIff(j: Job)
    ensures j.AllowPXE() <==> PxeAllowed(j.record, j.mac)
  {
    var ifs := j.record.interfaces;
    ByMacFinds(ifs, j.mac);
    if k: nat :| FirstWithMac(ifs, k) && ifs[k].mac == j.mac && ifs[k].allowPXE { ByMacAt(ifs, k); }
  }

  /** Which boot file is named, if any, for every job and client. */
  lemma PxeFileIs(j: Job, c: Client)
    ensures
      var r, allowed := j.record, PxeAllowed(j.record, j.mac);
      var custom := r.instance.Some? && r.instance.value.osSlug == "custom_ipxe";
      PxeFile(j, c) ==
        if InUse(r) && (!ActiveInstance(r) || (!allowed && !custom)) then NoFile
        else if c.tinkerbellIPXE && allowed then File("auto.ipxe", true, true)
        else if c.tinkerbellIPXE then File("nonexistent", c.httpClient, true)
        else if c.arm then File("snp.efi", c.httpClient, false)
        else if c.uefi then File("ipxe.efi", c.httpClient, false)
        else File("undionly.kpxe", c.httpClient, false)
  {
    AllowPXEIff(j);
  }

  /** The exact condition under which auto.ipxe is offered. */
  lemma OffersAutoIff(j: Job, c: Client)
    ensures PxeFile(j, c).File? && PxeFile(j, c).name == "auto.ipxe" <==>
      PxeAllowed(j.record, j.mac) && c.tinkerbellIPXE && (InUse(j.record) ==> ActiveInstance(j.record))
  {
    PxeFileIs(j, c);
    assert "snp.efi"[0] == 's' && "ipxe.efi"[0] == 'i' && "undionly.kpxe"[0] == 'u' && "nonexistent"[0] == 'n';
    assert "auto.ipxe"[0] == 'a';
  }

  /** Which MACs get a job from DHCP: those whose first interface has an address. */
  lemma FromDHCPIff(r: Record, mac: MAC, engine: string)
    ensures FromDHCP(r, mac, engine).Some? <==>
      exists k: nat :: FirstWithMac(r.interfaces, k) && r.interfaces[k].mac == mac && r.interfaces[k].addr.Some?
    ensures FromDHCP(r, mac, engine).Some? ==> FromDHCP(r, mac, engine).value == Job(mac, r, engine)
  {
    var ifs := r.interfaces;
    ByMacFinds(ifs, mac);
    if k: nat :| FirstWithMac(ifs, k) && ifs[k].mac == mac && ifs[k].addr.Some? { ByMacAt(ifs, k); }
  }

  /** Which addresses get a job from HTTP: those of a first interface with a MAC other than
      zero whose own lookup has an address. */
  lemma FromIPIff(r: Record, ip: Option<Addr>, engine: string, j: Job)
    ensures FromIP(r, ip, engine) == Created(j) <==>
      exists k: nat :: FirstWithAddr(r.interfaces, k) && AddrText(r.interfaces[k].addr) == AddrText(ip) && JobOf(r, k, engine, j)
  {
    var ifs := r.interfaces;
    ByIPFinds(ifs, ip);
    if k: nat :| FirstWithAddr(ifs, k) && AddrText(ifs[k].addr) == AddrText(ip) {
      FoundByIP(ifs, ip, k);
      JobOfIff(r, k, ip, engine, j);
      assert forall m: nat :: FirstWithAddr(ifs, m) && AddrText(ifs[m].addr) == AddrText(ip) ==> m == k;
    } else {
      assert InterfaceByIP(ifs, ip) == NoInterface();
    }
  }

  ghost predicate JobOf(r: Record, k: nat, engine: string, j: Job) {
    && k < |r.interfaces| && r.interfaces[k] != NoInterface() && r.interfaces[k].mac != [0, 0, 0, 0, 0, 0]
    && FromDHCP(r, r.interfaces[k].mac, engine) == Some(j)
  }

  lemma FoundByIP(ifs: seq<Interface>, ip: Option<Addr>, k: nat)
    requires FirstWithAddr(ifs, k) && AddrText(ifs[k].addr) == AddrText(ip)
    ensures InterfaceByIP(ifs, ip) == ifs[k]
  {
    ByIPAt(ifs, k);
    SameText(ifs, ip, ifs[k].addr);
  }

  lemma {:induction false} SameText(ifs: seq<Interface>, a: Option<Addr>, b: Option<Addr>)
    requires AddrText(a) == AddrText(b)
    ensures InterfaceByIP(ifs, a) == InterfaceByIP(ifs, b)
  {
    if ifs != [] { SameText(ifs[1..], a, b); }
  }

  lemma JobOfIff(r: Record, k: nat, ip: Option<Addr>, engine: string, j: Job)
    requires k < |r.interfaces| && InterfaceByIP(r.interfaces, ip) == r.interfaces[k]
    ensures FromIP(r, ip, engine) == Created(j) <==> JobOf(r, k, engine, j)
  {
    var i := r.interfaces[k];
    if MacText(i.mac) == MacText(MIN_MAC) { MacTextInjective(i.mac, MIN_MAC); }
  }

  /** DHCP and HTTP agree: the job made from the offered address is the job the offer was
      made by, so what DHCP offers HTTP does not refuse. */
  lemma OfferIsServed(r: Record, k: nat, engine: string, c: Client)
    requires FirstWithMac(r.interfaces, k) && FirstWithAddr(r.interfaces, k) && r.interfaces[k].mac != MIN_MAC
    requires r.interfaces[k] != NoInterface()
    requires FromDHCP(r, r.interfaces[k].mac, engine).Some?
    ensures
      var j := FromDHCP(r, r.interfaces[k].mac, engine).value;
      && FromIP(r, InterfaceByMac(r.interfaces, j.mac).addr, engine) == Created(j)
      && (PxeFile(j, c) == File("auto.ipxe", true, true) ==> ServesScript(j, "auto"))
  {
    LookupsInverse(r.interfaces, k);
    if MacText(r.interfaces[k].mac) == MacText(MIN_MAC) { MacTextInjective(r.interfaces[k].mac, MIN_MAC); }
    OffersAutoIff(FromDHCP(r, r.interfaces[k].mac, engine).value, c);
  }
}
