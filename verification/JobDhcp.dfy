/** Answering a DHCP request for a job (job/dhcp.go) with the settings made by job/job.go. */
module JobDhcp {
  import opened Bytes
  import opened Option43
  import opened HexScanner
  import opened DhcpReply
  import opened Jobs

  /** The server's own addresses and URLs. */
  datatype Server = Server(nextServer: seq<byte>, ipxeBase: seq<byte>, bootsBase: seq<byte>, syslog: seq<byte>,
                           join: (seq<byte>, seq<byte>) -> seq<byte>)

  const VLAN_SUBOPT: byte := 116

  /** What the record and the configuration say about a job's address. */
  datatype Lease = Lease(address: IPv4, netmask: Option<seq<byte>>, gateway: Option<seq<byte>>,
                         leaseTime: seq<byte>, server: IPv4, dns: seq<IPv4>, hostname: seq<byte>, vlan: seq<byte>)

  /** The options of a lease, apart from option 43, by their numbers in RFC 2132. */
  ghost predicate Leased(m: Options, l: Lease) {
    && Get(m, 1) == l.netmask && Get(m, 3) == l.gateway
    && Get(m, 51) == Some(l.leaseTime) && Get(m, 54) == l.server
    && Get(m, 6) == (if JoinV4(l.dns) == [] then None else Some(JoinV4(l.dns)))
    && Get(m, 12) == (if l.hostname == [] then None else Some(l.hostname))
  }

  /** The setters between Setup and the vendor options. */
  method SetLease(c: Config, l: Lease)
    requires c.Valid() && c.addr.Some? && VENDOR_SPECIFIC !in c.opts
    requires Get(c.opts, SUBNET_MASK) == l.netmask && Get(c.opts, ROUTER) == l.gateway
    requires c.opts.Keys <= {SUBNET_MASK, ROUTER}
    modifies c`opts
    ensures c.Valid() && Leased(c.opts, l) && VENDOR_SPECIFIC !in c.opts
  {
    c.SetLeaseTime(l.leaseTime);
    c.SetDHCPServer(l.server);
    c.SetDNSServers(l.dns);
    c.SetHostname(l.hostname);
  }

  /** The DHCP part of Job.setup. An address that is not IPv4 leaves no option map, and
      the first setter then panics. */
  method SetupConfig(l: Lease) returns (c: Config, panics: bool)
    ensures fresh(c) && c.Valid() && c.addr == l.address && (panics <==> l.address.None?)
    ensures !panics ==> Leased(c.opts, l)
    ensures !panics && |l.vlan| <= 255 ==>
      Vendor(c.opts) == Decoded(if l.vlan == [] then map[] else map[116 := l.vlan], true)
  {
    c := new Config();
    c.Setup(l.address, l.netmask, l.gateway);
    if c.addr.None? { return c, true; }
    panics := false;
    SetLease(c, l);
    ghost var before := c.opts;
    assert Vendor(before) == Decoded(map[], true);
    c.SetOpt43SubOpt(VLAN_SUBOPT, l.vlan);
    SameElsewhere(before, c.opts, VENDOR_SPECIFIC);
  }

  predicate TooLong(ch: Choice, s: Server) {
    match ch
    case NoFile => false
    case File(name, http, boots) =>
      |BootFile(Ascii(name), http, if boots then s.bootsBase else s.ipxeBase, s.join)| > FILE_SIZE
  }

  /** The reply's boot file, and whether setting it was fatal. */
  ghost predicate Names(file: seq<byte>, ch: Choice, s: Server, fatal: bool) {
    && |file| == FILE_SIZE && (fatal <==> TooLong(ch, s))
    && (ch.File? && !fatal ==>
          BootFile(Ascii(ch.name), ch.http, if ch.fromBoots then s.bootsBase else s.ipxeBase, s.join) <= file)
  }

  method SetPXEFilename(j: Job, rep: Packet, cl: Client, s: Server) returns (fatal: bool)
    requires |rep.file| == FILE_SIZE
    modifies rep
    ensures Names(rep.file, PxeFile(j, cl), s, fatal)
    ensures PxeFile(j, cl).NoFile? ==> rep.file == old(rep.file) && rep.siaddr == old(rep.siaddr) && rep.opts == old(rep.opts)
    ensures PxeFile(j, cl).File? ==> rep.siaddr == s.nextServer
    ensures rep.yiaddr == old(rep.yiaddr) && rep.opts - {CLASS_ID} == old(rep.opts) - {CLASS_ID}
  {
    if j.HardwareState() == "in_use" {
      if j.InstanceID() == "" { return false; }
      if j.record.instance.value.state != "active" { return false; }
      if !j.AllowPXE() && j.OsSlug() != "custom_ipxe" { return false; }
    }
    var filename: string;
    var http, base := cl.httpClient, s.bootsBase;
    if !cl.tinkerbellIPXE {
      base := s.ipxeBase;
      if cl.arm {
        filename := "snp.efi";
      } else if cl.uefi {
        filename := "ipxe.efi";
      } else {
        filename := "undionly.kpxe";
      }
    } else if !j.AllowPXE() {
      filename := "nonexistent";
    } else {
      http := true;
      filename := "auto.ipxe";
    }
    fatal := SetFilename(rep, Ascii(filename), s.nextServer, http, base, s.join);
  }

  /** The maps agree on every option outside `keys`. */
  ghost predicate SameOutside(m: Options, n: Options, keys: set<byte>) {
    forall o: byte :: o !in keys ==> Get(m, o) == Get(n, o)
  }

  lemma SameElsewhere(m: Options, n: Options, c: byte)
    requires m - {c} == n - {c}
    ensures SameOutside(m, n, {c})
  {
    forall o: byte | o !in {c} ensures Get(m, o) == Get(n, o) {
      assert Get(m, o) == Get(m - {c}, o) && Get(n, o) == Get(n - {c}, o);
    }
  }

  lemma SameVendor(m: Options, n: Options)
    requires Get(m, VENDOR_SPECIFIC) == Get(n, VENDOR_SPECIFIC)
    ensures Vendor(m) == Vendor(n)
  {
  }

  /** iPXE options and the boot file: nothing but these three options changes. */
  method SetupBoot(j: Job, rep: Packet, cl: Client, s: Server) returns (fatal: bool)
    requires |rep.file| == FILE_SIZE
    modifies rep
    ensures Names(rep.file, PxeFile(j, cl), s, fatal) && rep.yiaddr == old(rep.yiaddr)
    ensures SameOutside(old(rep.opts), rep.opts, {ENCAPSULATED, LOG_SERVER, CLASS_ID})
  {
    if cl.tinkerbellIPXE { SetupIPXE(rep, s.syslog); }
    ghost var o := rep.opts;
    fatal := SetPXEFilename(j, rep, cl, s);
    SameElsewhere(o, rep.opts, CLASS_ID);
  }

  const PXE_KEYS: set<byte> := {VENDOR_SPECIFIC, UUID_GUID, ENCAPSULATED, LOG_SERVER, CLASS_ID}

  /** The PXE part of a reply. */
  method ConfigurePXE(j: Job, rep: Packet, req: Request, cl: Client, s: Server, span: Span)
      returns (fatal: bool)
    requires |rep.file| == FILE_SIZE && ValidSpan(span)
    modifies rep
    ensures rep.yiaddr == old(rep.yiaddr) && SameOutside(old(rep.opts), rep.opts, PXE_KEYS)
    ensures IsPXE(req) ==>
      && VENDOR_SPECIFIC in rep.opts && PxeVendor(old(rep.opts), rep.opts, span)
      && Encodes(rep.opts[VENDOR_SPECIFIC], Vendor(rep.opts).options)
      && Names(rep.file, PxeFile(j, cl), s, fatal)
    ensures !IsPXE(req) ==> !fatal && rep.opts == old(rep.opts) && rep.file == old(rep.file)
  {
    ghost var o1 := rep.opts;
    var pxe := SetupPXE(rep, req, span);
    if !pxe { return false; }
    ghost var o2 := rep.opts;
    SameElsewhere(WithGUID(o1, req), o2, VENDOR_SPECIFIC);
    fatal := SetupBoot(j, rep, cl, s);
    assert Get(rep.opts, VENDOR_SPECIFIC) == Get(o2, VENDOR_SPECIFIC) == Some(o2[VENDOR_SPECIFIC]);
    SameVendor(rep.opts, o2);
  }

  /** What a configured reply carries. Option 82 is whatever it was before. */
  method ConfigureDHCP(j: Job, c: Config, rep: Packet, req: Request, cl: Client, s: Server, span: Span)
      returns (ok: bool, fatal: bool)
    requires c.Valid() && |rep.file| == FILE_SIZE && ValidSpan(span)
    requires cl.tinkerbellIPXE == IsTinkerbellIPXE(req)
    modifies rep
    ensures ok == c.addr.Some?
    ensures ok ==> rep.yiaddr == c.addr.value
    ensures Get(rep.opts, RELAY_AGENT) == old(Get(rep.opts, RELAY_AGENT))
    ensures ok && IsPXE(req) ==>
      && VENDOR_SPECIFIC in rep.opts && PxeVendor(old(rep.opts) + c.opts, rep.opts, span)
      && Encodes(rep.opts[VENDOR_SPECIFIC], Vendor(rep.opts).options)
      && Names(rep.file, PxeFile(j, cl), s, fatal)
    ensures !ok || !IsPXE(req) ==> !fatal && rep.file == old(rep.file)
    ensures ok ==> forall o: byte :: o in c.opts && o != VENDOR_SPECIFIC ==> Get(rep.opts, o) == Some(c.opts[o])
  {
    fatal := false;
    ghost var before := rep.opts;
    ok := c.ApplyTo(rep);
    if !ok { return; }
    fatal := ConfigurePXE(j, rep, req, cl, s, span);
    ConfigSurvives(before, c.opts, rep.opts);
  }

  /** PXE setup and the job's settings touch different options, and neither touches option 82. */
  lemma ConfigSurvives(before: Options, cfg: Options, after: Options)
    requires cfg.Keys <= CONFIG_KEYS && SameOutside(before + cfg, after, PXE_KEYS)
    ensures Get(after, RELAY_AGENT) == Get(before, RELAY_AGENT)
    ensures forall o: byte :: o in cfg && o != VENDOR_SPECIFIC ==> Get(after, o) == Some(cfg[o])
  {
    assert Get(before + cfg, RELAY_AGENT) == Get(after, RELAY_AGENT);
    forall o: byte | o in cfg && o != VENDOR_SPECIFIC ensures Get(after, o) == Some(cfg[o]) {
      assert o in CONFIG_KEYS && Get(before + cfg, o) == Get(after, o);
    }
  }

  /** Whether a request gets as far as a configured reply: it is a DISCOVER or a REQUEST, the
      record names no other provisioner, and there is an address. */
  predicate Replies(j: Job, addr: IPv4, req: Request) {
    && (j.record.provisioner == "" || j.record.provisioner == j.engine)
    && (req.messageType == 1 || req.messageType == 3) && addr.Some?
  }

  /** The text of the boot file, if one is named. */
  ghost function SentFile(j: Job, cl: Client, s: Server): Option<seq<byte>> {
    var r, allowed := j.record, PxeAllowed(j.record, j.mac);
    var custom := r.instance.Some? && r.instance.value.osSlug == "custom_ipxe";
    if InUse(r) && (!ActiveInstance(r) || (!allowed && !custom)) then None
    else
      var name := if cl.tinkerbellIPXE then (if allowed then "auto.ipxe" else "nonexistent")
                  else if cl.arm then "snp.efi" else if cl.uefi then "ipxe.efi" else "undionly.kpxe";
      var base := if cl.tinkerbellIPXE then s.bootsBase else s.ipxeBase;
      Some(if cl.httpClient || (cl.tinkerbellIPXE && allowed) then Ascii("http://") + s.join(base, Ascii(name)) else Ascii(name))
  }

  lemma SentFileIs(j: Job, cl: Client, s: Server)
    ensures TooLong(PxeFile(j, cl), s) <==> SentFile(j, cl, s).Some? && |SentFile(j, cl, s).value| > 128
    ensures forall file: seq<byte> :: Names(file, PxeFile(j, cl), s, false) && SentFile(j, cl, s).Some? ==> SentFile(j, cl, s).value <= file
  {
    PxeFileIs(j, cl);
  }

  /** Everything after the lookup: a reply is sent only by the chosen provisioner, only to
      DISCOVER and REQUEST, and carries the request's option 82 unchanged. A boot file name
      that does not fit stops the program before anything is sent. `made` are the options
      of a new reply of the DHCP library. */
  method ServeDHCP(j: Job, c: Config, req: Request, made: Options, cl: Client, s: Server, span: Span)
      returns (rep: Packet?, fatal: bool)
    requires c.Valid() && ValidSpan(span)
    requires cl.tinkerbellIPXE <==> 77 in req.opts && req.opts[77] == Ascii("Tinkerbell")
    ensures fatal <==> Replies(j, c.addr, req) && AsksForBoot(req) && SentFile(j, cl, s).Some? && |SentFile(j, cl, s).value| > 128
    ensures rep != null <==> Replies(j, c.addr, req) && !fatal
    ensures rep != null ==> rep.yiaddr == c.addr.value
    ensures rep != null ==> Get(rep.opts, 82) == Relayed(req, made)
    ensures rep != null ==> forall o: byte :: o in c.opts && o != 43 ==> Get(rep.opts, o) == Some(c.opts[o])
    ensures rep != null && AsksForBoot(req) ==>
      && 43 in rep.opts && PxeVendor(made + c.opts, rep.opts, span)
      && Encodes(rep.opts[43], Vendor(rep.opts).options)
      && (SentFile(j, cl, s).Some? ==> SentFile(j, cl, s).value <= rep.file)
  {
    SentFileIs(j, cl, s);
    fatal := false;
    if !j.AreWeProvisioner() { return null, false; }
    rep := NewReply(req, made);
    if rep == null { return; }
    ghost var created := rep.opts;
    assert Get(created, VENDOR_SPECIFIC) == Get(made, VENDOR_SPECIFIC);
    assert Get(created + c.opts, VENDOR_SPECIFIC) == Get(made + c.opts, VENDOR_SPECIFIC);
    SameVendor(created + c.opts, made + c.opts);
    var ok;
    ok, fatal := ConfigureDHCP(j, c, rep, req, cl, s, span);
    if !ok || fatal { rep := null; }
  }
}
