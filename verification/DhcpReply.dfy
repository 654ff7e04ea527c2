/**
 DHCP replies: the job's DHCP settings (dhcp/config.go), the reply packet and the
 steps that fill it (dhcp/dhcp.go, dhcp/pxe.go, ipxe/dhcp_options.go).
 */
module DhcpReply {
  import opened Bytes
  import opened Option43
  import opened HexScanner

  const SUBNET_MASK: byte := 1
  const ROUTER: byte := 3
  const DOMAIN_SERVER: byte := 6
  const LOG_SERVER: byte := 7
  const HOSTNAME: byte := 12
  const VENDOR_SPECIFIC: byte := 43
  const ADDRESS_TIME: byte := 51
  const MESSAGE_TYPE: byte := 53
  const SERVER_ID: byte := 54
  const CLASS_ID: byte := 60
  const USER_CLASS: byte := 77
  const RELAY_AGENT: byte := 82
  const UUID_GUID: byte := 97
  const ENCAPSULATED: byte := 175

  const DISCOVERY_CONTROL: byte := 6
  const FILE_SIZE: nat := 128

  function Get(m: Options, o: byte): Option<seq<byte>> {
    if o in m then Some(m[o]) else None
  }

  /** The vendor sub-options an option map carries. */
  function Vendor(m: Options): Decoded {
    if VENDOR_SPECIFIC in m then Decode(m[VENDOR_SPECIFIC]) else Decoded(map[], true)
  }

  /** net.IP.To4: four bytes, or not an IPv4 address. */
  type IPv4 = Option<seq<byte>>

  /** Whatever was decoded can be encoded again. */
  lemma {:induction false} DecodeEncodable(b: seq<byte>, m: Options)
    requires Encodable(m)
    ensures Encodable(DecodeInto(b, m).options)
    decreases |b|
  {
    if b == [] || b[0] == END {
    } else if b[0] == PAD {
      DecodeEncodable(b[1..], m);
    } else if |b| >= 2 {
      var len: int := b[1];
      if |b| >= 2 + len { DecodeEncodable(b[2 + len..], m[b[0] := b[2..2 + len]]); }
    }
  }

  lemma VendorEncodable(m: Options)
    ensures Encodable(Vendor(m).options)
  {
    if VENDOR_SPECIFIC in m { DecodeEncodable(m[VENDOR_SPECIFIC], map[]); }
  }

  function JoinV4(ips: seq<IPv4>): seq<byte> {
    if ips == [] then []
    else JoinV4(ips[..|ips| - 1]) + (if ips[|ips| - 1].Some? then ips[|ips| - 1].value else [])
  }

  /** The servers in their order, one after the other. */
  lemma {:induction false} JoinInOrder(a: seq<IPv4>, b: seq<IPv4>)
    ensures JoinV4(a + b) == JoinV4(a) + JoinV4(b)
    decreases |b|
  {
    if b == [] {
      assert a + b == a && JoinV4(a) + [] == JoinV4(a);
    } else {
      var most, last := b[..|b| - 1], b[|b| - 1];
      JoinInOrder(a, most);
      assert (a + b)[..|a + b| - 1] == a + most && (a + b)[|a + b| - 1] == last;
    }
  }

  /** One server is its four bytes, or nothing if it is not IPv4. */
  lemma JoinOne(ip: IPv4)
    ensures JoinV4([ip]) == if ip.Some? then ip.value else []
  {
    assert [ip][..0] == [];
    assert JoinV4([ip][..0]) == [];
  }

  /** A packet under construction. */
  class Packet {
    var yiaddr: seq<byte>
    var siaddr: seq<byte>
    var file: seq<byte>
    var opts: Options

    constructor (messageType: byte, made: Options)
      ensures yiaddr == [] && siaddr == [] && |file| == FILE_SIZE && opts == made[MESSAGE_TYPE := [messageType]]
    {
      yiaddr, siaddr := [], [];
      file := seq(FILE_SIZE, _ => 0);
      opts := made[MESSAGE_TYPE := [messageType]];
    }
  }

  /** The keys a Config can ever hold. */
  const CONFIG_KEYS: set<byte> := {SUBNET_MASK, ROUTER, DOMAIN_SERVER, HOSTNAME, VENDOR_SPECIFIC, ADDRESS_TIME, SERVER_ID}

  class Config {
    var addr: IPv4
    var opts: Options

    ghost predicate Valid()
      reads this
    {
      opts.Keys <= CONFIG_KEYS
    }

    constructor ()
      ensures Valid() && addr == None && opts == map[]
    {
      addr, opts := None, map[];
    }

    method Setup(address: IPv4, netmask: Option<seq<byte>>, gateway: Option<seq<byte>>)
      modifies this
      ensures Valid() && addr == address && VENDOR_SPECIFIC !in opts
      ensures address.Some? ==> Get(opts, SUBNET_MASK) == netmask && Get(opts, ROUTER) == gateway
      ensures opts.Keys <= if address.Some? then {SUBNET_MASK, ROUTER} else {}
    {
      addr, opts := address, map[];
      if address.Some? {
        if netmask.Some? { opts := opts[SUBNET_MASK := netmask.value]; }
        if gateway.Some? { opts := opts[ROUTER := gateway.value]; }
      }
    }

    // The setters write into the option map, which exists once Setup got an IPv4 address.

    method SetLeaseTime(encoded: seq<byte>)
      requires Valid() && addr.Some?
      modifies this`opts
      ensures Valid() && opts == old(opts)[ADDRESS_TIME := encoded]
    {
      opts := opts[ADDRESS_TIME := encoded];
    }

    method SetHostname(s: seq<byte>)
      requires Valid() && addr.Some?
      modifies this`opts
      ensures Valid() && opts == if s == [] then old(opts) else old(opts)[HOSTNAME := s]
    {
      if s == [] { return; }
      opts := opts[HOSTNAME := s];
    }

    method SetDHCPServer(ip: IPv4)
      requires Valid() && addr.Some?
      modifies this`opts
      ensures Valid() && opts == if ip.None? then old(opts) else old(opts)[SERVER_ID := ip.value]
    {
      if ip.None? { return; }
      opts := opts[SERVER_ID := ip.value];
    }

    method SetDNSServers(ips: seq<IPv4>)
      requires Valid() && addr.Some?
      modifies this`opts
      ensures Valid()
      ensures opts == if JoinV4(ips) == [] then old(opts) else old(opts)[DOMAIN_SERVER := JoinV4(ips)]
    {
      if |ips| == 0 { return; }
      var b: seq<byte> := [];
      for i := 0 to |ips|
        invariant b == JoinV4(ips[..i]) && opts == old(opts)
      {
        assert ips[..i + 1][..i] == ips[..i];
        if ips[i].None? { continue; }
        b := b + ips[i].value;
      }
      assert ips[..|ips|] == ips;
      if |b| == 0 { return; }
      opts := opts[DOMAIN_SERVER := b];
    }

    /** Decode, update and encode again; an option 43 that cannot be decoded stays as it is. */
    method SetOpt43SubOpt(code: byte, s: seq<byte>)
      requires Valid() && addr.Some?
      modifies this`opts
      ensures Valid() && opts - {VENDOR_SPECIFIC} == old(opts) - {VENDOR_SPECIFIC}
      ensures s == [] || !Vendor(old(opts)).ok ==> opts == old(opts)
      ensures VENDOR_SPECIFIC in opts <==> VENDOR_SPECIFIC in old(opts) || s != []
      ensures s != [] && Vendor(old(opts)).ok && Settable(SubOption(code, s)) ==>
        Vendor(opts) == Decoded(Vendor(old(opts)).options[code := s], true)
    {
      if s == [] { return; }
      var n: Options := map[];
      VendorEncodable(opts);
      if VENDOR_SPECIFIC in opts {
        var d := Decode(opts[VENDOR_SPECIFIC]);
        if !d.ok { return; }
        n := d.options;
      }
      n := n[code := s];
      var b := Serialize(n);
      if Encodable(n) { DecodeInverts(b, n); }
      opts := opts[VENDOR_SPECIFIC := b];
    }

    /** Any sequence of sub-option settings leaves the last non-empty value of each. */
    method SetAllSubOpts(sets: seq<SubOption>)
      requires Valid() && addr.Some?
      modifies this`opts
      ensures Valid() && opts - {VENDOR_SPECIFIC} == old(opts) - {VENDOR_SPECIFIC}
      ensures VENDOR_SPECIFIC in old(opts) ==> VENDOR_SPECIFIC in opts
      ensures Vendor(old(opts)).ok && AllSettable(sets) ==>
        Vendor(opts) == Decoded(Overlay(Vendor(old(opts)).options, sets), true)
    {
      ghost var start := Vendor(opts);
      for i := 0 to |sets|
        invariant Valid() && addr.Some? && opts - {VENDOR_SPECIFIC} == old(opts) - {VENDOR_SPECIFIC}
        invariant VENDOR_SPECIFIC in old(opts) ==> VENDOR_SPECIFIC in opts
        invariant start.ok && AllSettable(sets) ==> Vendor(opts) == Decoded(Overlay(start.options, sets[..i]), true)
      {
        assert sets[..i + 1][..i] == sets[..i];
        assert sets[i] == SubOption(sets[i].code, sets[i].value);
        SetOpt43SubOpt(sets[i].code, sets[i].value);
      }
      assert sets[..|sets|] == sets;
    }

    method ApplyTo(rep: Packet) returns (ok: bool)
      modifies rep
      ensures ok == addr.Some?
      ensures rep.siaddr == old(rep.siaddr) && rep.file == old(rep.file)
      ensures ok ==> rep.yiaddr == addr.value && rep.opts == old(rep.opts) + opts
      ensures !ok ==> rep.yiaddr == old(rep.yiaddr) && rep.opts == old(rep.opts)
    {
      if addr.None? { return false; }
      rep.yiaddr := addr.value;
      var left := opts.Keys;
      while left != {}
        invariant left <= opts.Keys
        invariant rep.opts == old(rep.opts) + (opts - left)
        invariant rep.siaddr == old(rep.siaddr) && rep.file == old(rep.file) && rep.yiaddr == addr.value
        decreases left
      {
        var o: byte :| o in left;
        rep.opts := rep.opts[o := opts[o]];
        left := left - {o};
      }
      assert opts - {} == opts;
      return true;
    }
  }

  // ---- requests -----------------------------------------------------------

  datatype Request = Request(messageType: byte, opts: Options)

  predicate HasPrefix(b: seq<byte>, p: seq<byte>) { p <= b }

  predicate IsPXE(req: Request) {
    || UUID_GUID in req.opts
    || (CLASS_ID in req.opts
        && (HasPrefix(req.opts[CLASS_ID], Ascii("PXEClient")) || HasPrefix(req.opts[CLASS_ID], Ascii("HTTPClient"))))
  }

  predicate IsTinkerbellIPXE(req: Request) {
    USER_CLASS in req.opts && req.opts[USER_CLASS] == Ascii("Tinkerbell")
  }

  /** Only 17-byte identifiers of type 0 are copied. */
  predicate HasGUID(req: Request) {
    UUID_GUID in req.opts && |req.opts[UUID_GUID]| == 17 && req.opts[UUID_GUID][0] == 0
  }

  function WithGUID(m: Options, req: Request): Options {
    if HasGUID(req) then m[UUID_GUID := req.opts[UUID_GUID]] else m
  }

  const DISCOVER: byte := 1
  const OFFER: byte := 2
  const REQUEST: byte := 3
  const ACK: byte := 5

  /** Option 82 of a reply: the request's, or else what the library put there. */
  function Relayed(req: Request, made: Options): Option<seq<byte>> {
    if 82 in req.opts then Some(req.opts[82]) else Get(made, 82)
  }

  /** Only DISCOVER and REQUEST are answered; option 82 is copied (section 2.2 of RFC 3046).
      `made` are the options the DHCP library puts into a new reply, whatever they are. */
  method NewReply(req: Request, made: Options) returns (rep: Packet?)
    ensures rep == null <==> req.messageType != 1 && req.messageType != 3
    ensures rep != null ==> fresh(rep) && |rep.file| == FILE_SIZE
    ensures rep != null ==> Get(rep.opts, 82) == Relayed(req, made)
    ensures rep != null ==> forall o: byte :: o != 53 && o != 82 ==> Get(rep.opts, o) == Get(made, o)
    ensures rep != null ==> Get(rep.opts, 53) == Some([if req.messageType == 1 then 2 else 5])
  {
    if req.messageType == DISCOVER {
      rep := new Packet(OFFER, made);
    } else if req.messageType == REQUEST {
      rep := new Packet(ACK, made);
    } else {
      return null;
    }
    if RELAY_AGENT in req.opts {
      rep.opts := rep.opts[RELAY_AGENT := req.opts[RELAY_AGENT]];
    }
  }

  /** The vendor options of a PXE reply: those already there, with 6 and 69 set. */
  ghost predicate PxeVendor(before: Options, after: Options, span: Span) {
    exists tp :: CarriesSpan(tp, span) &&
      Vendor(after) == Decoded(Vendor(before).options[6 := [8]][69 := tp], true)
  }

  /** A client identifier, or a class that names PXE or HTTP boot. */
  predicate AsksForBoot(req: Request) {
    97 in req.opts || (60 in req.opts && (Ascii("PXEClient") <= req.opts[60] || Ascii("HTTPClient") <= req.opts[60]))
  }

  /** The identifier a PXE reply carries: the request's if it has 16 bytes after a type of 0. */
  function ReplyGUID(before: Options, req: Request): Option<seq<byte>> {
    if 97 in req.opts && |req.opts[97]| == 17 && req.opts[97][0] == 0 then Some(req.opts[97]) else Get(before, 97)
  }

  method SetupPXE(rep: Packet, req: Request, span: Span) returns (pxe: bool)
    requires ValidSpan(span)
    modifies rep`opts
    ensures pxe <==> AsksForBoot(req)
    ensures !pxe ==> rep.opts == old(rep.opts)
    ensures pxe ==> Get(rep.opts, 97) == ReplyGUID(old(rep.opts), req)
    ensures pxe ==> PxeVendor(old(rep.opts), rep.opts, span) && VENDOR_SPECIFIC in rep.opts
    ensures pxe ==> Encodes(rep.opts[VENDOR_SPECIFIC], Vendor(rep.opts).options)
    ensures pxe ==> rep.opts - {VENDOR_SPECIFIC} == WithGUID(old(rep.opts), req) - {VENDOR_SPECIFIC}
  {
    if !IsPXE(req) { return false; }
    if HasGUID(req) { rep.opts := rep.opts[UUID_GUID := req.opts[UUID_GUID]]; }
    var n: Options := map[];
    VendorEncodable(rep.opts);
    if VENDOR_SPECIFIC in rep.opts { n := Decode(rep.opts[VENDOR_SPECIFIC]).options; }
    n := n[DISCOVERY_CONTROL := [8]];
    var tp := BinaryTraceparent(span);
    n := n[TRACEPARENT_CODE := tp];
    var b := Serialize(n);
    DecodeInverts(b, n);
    rep.opts := rep.opts[VENDOR_SPECIFIC := b];
    return true;
  }

  method SetupIPXE(rep: Packet, syslog: seq<byte>)
    modifies rep`opts
    ensures rep.opts == old(rep.opts)[175 := [176, 1, 1, 255]][7 := syslog]
  {
    rep.opts := rep.opts[ENCAPSULATED := [176, 1, 1, END]];
    rep.opts := rep.opts[LOG_SERVER := syslog];
  }

  /** The boot file text: a URL for HTTP clients. `join` is path.Join. */
  function BootFile(name: seq<byte>, http: bool, base: seq<byte>, join: (seq<byte>, seq<byte>) -> seq<byte>): seq<byte> {
    if http then Ascii("http://") + join(base, name) else name
  }

  /** A name that does not fit the 128-byte field is fatal. */
  method SetFilename(rep: Packet, name: seq<byte>, nextServer: seq<byte>, http: bool, base: seq<byte>,
                     join: (seq<byte>, seq<byte>) -> seq<byte>) returns (fatal: bool)
    requires |rep.file| == FILE_SIZE
    modifies rep
    ensures rep.yiaddr == old(rep.yiaddr) && rep.siaddr == nextServer
    ensures rep.opts == if http then old(rep.opts)[60 := Ascii("HTTPClient")] else old(rep.opts)
    ensures fatal <==> |BootFile(name, http, base, join)| > 128
    ensures |rep.file| == 128
    ensures fatal ==> rep.file == old(rep.file)
    ensures
      var f := BootFile(name, http, base, join);
      !fatal ==> rep.file[..|f|] == f && rep.file[|f|..] == old(rep.file)[|f|..]
  {
    rep.siaddr := nextServer;
    var text := name;
    if http {
      text := Ascii("http://") + join(base, name);
      rep.opts := rep.opts[CLASS_ID := Ascii("HTTPClient")];
    }
    if |text| > |rep.file| { return true; }
    rep.file := text + rep.file[|text|..];
    return false;
  }

  /** From the span to the client's environment: whatever order the reply's option 43
      came out in, scanning the client's hex report of it gives the W3C text of the span
      that SetupPXE was given. */
  method ReadBackTraceparent(hexdata: string, inherited: string, ghost before: Options, ghost after: Options,
                             ghost span: Span, ghost sp: Spelling) returns (f: Found)
    requires PxeVendor(before, after, span) && VENDOR_SPECIFIC in after
    requires Encodes(after[VENDOR_SPECIFIC], Vendor(after).options)
    requires Reports(hexdata, after[VENDOR_SPECIFIC], sp) && Readable(sp)
    ensures f.traceparent == W3C(span, sp)
  {
    ghost var b, m := after[VENDOR_SPECIFIC], Vendor(after).options;
    ghost var tp :| CarriesSpan(tp, span) && m == Vendor(before).options[DISCOVERY_CONTROL := [8]][TRACEPARENT_CODE := tp];
    ghost var order :| EncodedBy(order, m, b);
    f := ExtractTraceparent(hexdata, inherited, b, order, m, sp);
    AmongAll(TRACEPARENT_CODE, order, |order|);
    assert order[..|order|] == order;
    TraceparentRecovered(f.opt43x69, tp, span, sp);
  }

  // ---- from settings to reply ---------------------------------------------

  /** What a reply's option 43 says after any settings and PXE setup: 6 and 69 are set,
      every other code has its last non-empty setting, or else what it had at the start. */
  ghost predicate Assembled(start: Options, sets: seq<SubOption>, tp: seq<byte>, vendor: Options) {
    && vendor == Overlay(start, sets)[6 := [8]][69 := tp]
    && forall c: byte | c != 6 && c != 69 ::
         && (forall k: nat | LastSet(sets, c, k) :: Get(vendor, c) == Some(sets[k].value))
         && (NeverSet(sets, c) ==> Get(vendor, c) == Get(start, c))
  }

  lemma AssembledIntro(start: Options, sets: seq<SubOption>, tp: seq<byte>)
    ensures Assembled(start, sets, tp, Overlay(start, sets)[DISCOVERY_CONTROL := [8]][TRACEPARENT_CODE := tp])
  {
    forall c: byte | c != DISCOVERY_CONTROL && c != TRACEPARENT_CODE
      ensures forall k: nat | LastSet(sets, c, k) :: Get(Overlay(start, sets), c) == Some(sets[k].value)
      ensures NeverSet(sets, c) ==> Get(Overlay(start, sets), c) == Get(start, c)
    {
      OverlayIsLast(start, sets, c);
    }
  }

  /** Option 43 loses nothing on its way: any settings, ApplyTo and SetupPXE. */
  method Assemble(c: Config, sets: seq<SubOption>, rep: Packet, req: Request, span: Span) returns (ghost tp: seq<byte>)
    requires c.Valid() && c.addr.Some? && ValidSpan(span) && IsPXE(req)
    modifies c`opts, rep
    ensures CarriesSpan(tp, span) && VENDOR_SPECIFIC in rep.opts
    ensures var d := Vendor(rep.opts); d.ok && Encodes(rep.opts[VENDOR_SPECIFIC], d.options)
    ensures VENDOR_SPECIFIC in c.opts || VENDOR_SPECIFIC !in old(rep.opts) ==>
      Vendor(old(c.opts)).ok && AllSettable(sets) ==>
      Assembled(Vendor(old(c.opts)).options, sets, tp, Vendor(rep.opts).options)
  {
    ghost var start := Vendor(c.opts);
    c.SetAllSubOpts(sets);
    var _ := c.ApplyTo(rep);
    ghost var ours := VENDOR_SPECIFIC in c.opts || VENDOR_SPECIFIC !in old(rep.opts);
    assert ours ==> Get(rep.opts, VENDOR_SPECIFIC) == Get(c.opts, VENDOR_SPECIFIC);
    ghost var before := rep.opts;
    var _ := SetupPXE(rep, req, span);
    tp :| CarriesSpan(tp, span) &&
      Vendor(rep.opts) == Decoded(Vendor(before).options[DISCOVERY_CONTROL := [8]][TRACEPARENT_CODE := tp], true);
    if ours && start.ok && AllSettable(sets) { AssembledIntro(start.options, sets, tp); }
  }
}
