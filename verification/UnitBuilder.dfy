/**
 systemd unit files (installers/flatcar/files/unit/builder.go) and the network unit built
 with them (installers/flatcar/networkd.go). A builder hands out its sections as live
 objects, which may be written to after later sections have been added.
 */
module UnitBuilder {

  function Line(l: string): string { l + "\n" }

  function KeyValue(key: string, value: string): string { key + "=" + value + "\n" }

  function Header(name: string): string { "[" + name + "]\n" }

  function Lines(ls: seq<string>): string {
    if ls == [] then "" else Lines(ls[..|ls| - 1]) + Line(ls[|ls| - 1])
  }

  /** Sections separated by blank lines. */
  function Render(texts: seq<string>): string {
    if texts == [] then ""
    else if |texts| == 1 then texts[0]
    else Render(texts[..|texts| - 1]) + "\n" + texts[|texts| - 1]
  }

  class Section {
    var buf: string

    constructor ()
      ensures buf == ""
    {
      buf := "";
    }

    method Reset(name: string)
      modifies this
      ensures buf == Header(name)
    {
      buf := "";
      buf := buf + "[" + name + "]\n";
    }

    method Add(key: string, value: string)
      modifies this
      ensures buf == old(buf) + KeyValue(key, value)
    {
      buf := buf + key + "=" + value + "\n";
      assert buf == old(buf) + KeyValue(key, value);
    }

    method AddLines(lines: seq<string>)
      modifies this
      ensures buf == old(buf) + Lines(lines)
    {
      for i := 0 to |lines|
        invariant buf == old(buf) + Lines(lines[..i])
      {
        assert lines[..i + 1][..i] == lines[..i];
        buf := buf + lines[i] + "\n";
        assert buf == old(buf) + (Lines(lines[..i]) + Line(lines[i]));
      }
      assert lines[..|lines|] == lines;
    }

    method AddComment(comment: string)
      modifies this
      ensures buf == old(buf) + Line("# " + comment)
    {
      buf := buf + "# " + comment + "\n";
      assert buf == old(buf) + Line("# " + comment);
    }
  }

  class Builder {
    var sections: seq<Section>

    /** No two places hold the same section object. */
    ghost predicate Valid()
      reads this
    {
      forall i, j :: 0 <= i < j < |sections| ==> sections[i] != sections[j]
    }

    /** The builder holds these texts, one per section. */
    ghost predicate Holds(texts: seq<string>)
      reads this, sections
    {
      |texts| == |sections| && forall i :: 0 <= i < |texts| ==> sections[i].buf == texts[i]
    }

    constructor ()
      ensures Valid() && Holds([])
    {
      sections := [];
    }

    method AddSection(name: string, lines: seq<string>, ghost texts: seq<string>) returns (s: Section)
      requires Valid() && Holds(texts)
      modifies this
      ensures Valid() && fresh(s) && sections == old(sections) + [s]
      ensures Holds(texts + [Header(name) + Lines(lines)])
    {
      s := new Section();
      s.Reset(name);
      s.AddLines(lines);
      sections := sections + [s];
    }

    /** Len is the length of what MarshalText gives, whatever was written where. */
    method Len(ghost texts: seq<string>) returns (sum: nat)
      requires Holds(texts)
      ensures sum == |Render(texts)|
    {
      sum := 0;
      for i := 0 to |sections|
        invariant sum == |Render(texts[..i])|
      {
        assert texts[..i + 1][..i] == texts[..i];
        if i > 0 { sum := sum + 1; }
        sum := sum + |sections[i].buf|;
      }
      assert texts[..|texts|] == texts;
    }

    method MarshalText(ghost texts: seq<string>) returns (buf: string)
      requires Holds(texts)
      ensures buf == Render(texts)
    {
      buf := "";
      for i := 0 to |sections|
        invariant buf == Render(texts[..i])
      {
        assert texts[..i + 1][..i] == texts[..i];
        if i > 0 { buf := buf + "\n"; }
        buf := buf + sections[i].buf;
      }
      assert texts[..|texts|] == texts;
    }
  }

  /** The sections are still there, in their places. */
  ghost predicate Extends(before: seq<Section>, after: seq<Section>) {
    |before| <= |after| && forall j :: 0 <= j < |before| ==> after[j] == before[j]
  }

  /** Writing to a live section changes that section's text and no other. */
  method WriteTo(b: Builder, s: Section, k: nat, key: string, value: string, ghost texts: seq<string>)
    requires b.Valid() && b.Holds(texts) && k < |b.sections| && b.sections[k] == s
    modifies s
    ensures b.Valid() && b.Holds(texts[k := texts[k] + KeyValue(key, value)])
    ensures s.buf == old(s.buf) + KeyValue(key, value)
  {
    s.Add(key, value);
  }

  // ---- the network unit ---------------------------------------------------

  /** An instance address, with the text of its CIDR and gateway. */
  datatype IP = IP(cidr: string, gateway: string, family: int, isPublic: bool, management: bool)

  const BOND_NAME := "bond0"

  /** The route destination of a management address; "" for none. */
  function Destination(ip: IP): string {
    if !ip.management then ""
    else if ip.family == 4 then (if ip.isPublic then "0.0.0.0/0" else "10.0.0.0/8")
    else if ip.family == 6 then "::/0" else ""
  }

  function DnsText(dns: seq<string>): string {
    if dns == [] then "" else DnsText(dns[..|dns| - 1]) + KeyValue("DNS", dns[|dns| - 1])
  }

  function AddressText(ips: seq<IP>): string {
    if ips == [] then "" else AddressText(ips[..|ips| - 1]) + KeyValue("Address", ips[|ips| - 1].cidr)
  }

  function RouteText(ip: IP): string {
    Header("Route") + KeyValue("Destination", Destination(ip)) + KeyValue("Gateway", ip.gateway)
  }

  function RouteTexts(ips: seq<IP>): seq<string> {
    if ips == [] then []
    else
      RouteTexts(ips[..|ips| - 1])
      + (if Destination(ips[|ips| - 1]) == "" then [] else [RouteText(ips[|ips| - 1])])
  }

  /** The network unit: all DNS lines, then all addresses, then the routes in order. */
  function NetworkUnit(dns: seq<string>, ips: seq<IP>): seq<string> {
    [Header("Match") + Line("Name=" + BOND_NAME), Header("Network") + DnsText(dns) + AddressText(ips)] + RouteTexts(ips)
  }

  method AddRoute(b: Builder, ip: IP, ghost texts: seq<string>)
    requires b.Valid() && b.Holds(texts) && Destination(ip) != ""
    modifies b
    ensures b.Valid() && b.Holds(texts + [RouteText(ip)])
    ensures |b.sections| == |old(b.sections)| + 1 && Extends(old(b.sections), b.sections)
    ensures fresh(b.sections[|old(b.sections)|])
  {
    var s := b.AddSection("Route", [], texts);
    assert s == b.sections[|texts|] && s.buf == Header("Route") + Lines([]);
    s.Add("Destination", Destination(ip));
    s.Add("Gateway", ip.gateway);
    assert Header("Route") + "" == Header("Route");
    assert s.buf == RouteText(ip);
  }

  /** The texts after the addresses `ips` were written to section `k`. */
  ghost function Written(texts: seq<string>, k: nat, ips: seq<IP>): seq<string>
    requires k < |texts|
  {
    texts[k := texts[k] + AddressText(ips)] + RouteTexts(ips)
  }

  /** The texts after one address was written to section `k`. */
  ghost function OneWritten(texts: seq<string>, k: nat, ip: IP): seq<string>
    requires k < |texts|
  {
    var after := texts[k := texts[k] + KeyValue("Address", ip.cidr)];
    if Destination(ip) == "" then after else after + [RouteText(ip)]
  }

  lemma WrittenStep(texts: seq<string>, k: nat, ips: seq<IP>, i: nat)
    requires k < |texts| && i < |ips|
    ensures
      Written(texts, k, ips[..i + 1]) == OneWritten(Written(texts, k, ips[..i]), k, ips[i])
  {
    assert ips[..i + 1][..i] == ips[..i];
    assert texts[k] + AddressText(ips[..i]) + KeyValue("Address", ips[i].cidr) == texts[k] + AddressText(ips[..i + 1]);
  }

  /** The addresses, each written to the Network section, with the routes added in between. */
  method AddAddresses(b: Builder, s: Section, k: nat, ips: seq<IP>, ghost texts: seq<string>)
    requires b.Valid() && b.Holds(texts) && k < |b.sections| && b.sections[k] == s
    modifies b, s
    ensures b.Valid() && b.Holds(Written(texts, k, ips)) && Extends(old(b.sections), b.sections)
  {
    ghost var now := texts;
    WrittenNone(texts, k);
    for i := 0 to |ips|
      invariant b.Valid() && b.Holds(now) && now == Written(texts, k, ips[..i])
      invariant Extends(old(b.sections), b.sections)
      invariant forall j :: |old(b.sections)| <= j < |b.sections| ==> fresh(b.sections[j])
    {
      assert b.sections[k] == s;
      AddAddress(b, s, k, ips[i], now);
      WrittenStep(texts, k, ips, i);
      now := OneWritten(now, k, ips[i]);
    }
    assert ips[..|ips|] == ips;
  }

  lemma WrittenNone(texts: seq<string>, k: nat)
    requires k < |texts|
    ensures forall ips: seq<IP> :: Written(texts, k, ips[..0]) == texts
  {
    forall ips: seq<IP> ensures Written(texts, k, ips[..0]) == texts {
      assert ips[..0] == [] && texts[k] + "" == texts[k];
    }
  }

  /** One turn of the loop over the addresses. */
  method AddAddress(b: Builder, s: Section, k: nat, ip: IP, ghost texts: seq<string>)
    requires b.Valid() && b.Holds(texts) && k < |b.sections| && b.sections[k] == s
    modifies b, s
    ensures b.Valid() && b.Holds(OneWritten(texts, k, ip)) && Extends(old(b.sections), b.sections)
    ensures forall j :: |old(b.sections)| <= j < |b.sections| ==> fresh(b.sections[j])
  {
    WriteTo(b, s, k, "Address", ip.cidr, texts);
    if !ip.management { return; }
    if Destination(ip) != "" {
      AddRoute(b, ip, texts[k := texts[k] + KeyValue("Address", ip.cidr)]);
    }
  }

  method AddDns(b: Builder, s: Section, k: nat, dns: seq<string>, ghost texts: seq<string>)
    requires b.Valid() && b.Holds(texts) && k < |b.sections| && b.sections[k] == s
    modifies s
    ensures b.Valid() && b.Holds(texts[k := texts[k] + DnsText(dns)])
  {
    ghost var now := texts;
    assert texts[k] + "" == texts[k];
    for i := 0 to |dns|
      invariant b.Valid() && b.Holds(now) && now == texts[k := texts[k] + DnsText(dns[..i])]
    {
      assert dns[..i + 1][..i] == dns[..i];
      WriteTo(b, s, k, "DNS", dns[i], now);
      now := now[k := now[k] + KeyValue("DNS", dns[i])];
      assert texts[k] + DnsText(dns[..i]) + KeyValue("DNS", dns[i]) == texts[k] + DnsText(dns[..i + 1]);
    }
    assert dns[..|dns|] == dns;
  }

  /** For every list of servers and addresses, the unit comes out as the pure form, although
      the Network section is written to after Route sections have been added. */
  method ConfigureNetworkUnit(b: Builder, dns: seq<string>, ips: seq<IP>, ghost texts: seq<string>)
    requires b.Valid() && b.Holds(texts)
    modifies b
    ensures b.Valid() && b.Holds(texts + NetworkUnit(dns, ips))
  {
    var m := b.AddSection("Match", ["Name=" + BOND_NAME], texts);
    ghost var head := Header("Match") + Line("Name=" + BOND_NAME);
    assert Lines(["Name=" + BOND_NAME]) == Line("Name=" + BOND_NAME);
    ghost var t1 := texts + [head];
    var s := b.AddSection("Network", [], t1);
    assert Header("Network") + "" == Header("Network");
    FillNetwork(b, s, |b.sections| - 1, dns, ips, t1 + [Header("Network")]);
    UnitIs(texts, head, Header("Network") + DnsText(dns), ips);
  }

  /** The servers and the addresses, into the open Network section. */
  method FillNetwork(b: Builder, s: Section, k: nat, dns: seq<string>, ips: seq<IP>, ghost texts: seq<string>)
    requires b.Valid() && b.Holds(texts) && k < |b.sections| && b.sections[k] == s
    modifies b, s
    ensures b.Valid() && b.Holds(Written(texts[k := texts[k] + DnsText(dns)], k, ips))
  {
    AddDns(b, s, k, dns, texts);
    AddAddresses(b, s, k, ips, texts[k := texts[k] + DnsText(dns)]);
  }

  lemma UnitIs(texts: seq<string>, m: string, n: string, ips: seq<IP>)
    ensures Written(texts + [m] + [n], |texts| + 1, ips) == texts + ([m, n + AddressText(ips)] + RouteTexts(ips))
  {
  }

  method Bytes(b: Builder, ghost texts: seq<string>) returns (text: string, len: nat)
    requires b.Holds(texts)
    ensures text == Render(texts) && len == |text|
  {
    len := b.Len(texts);
    text := b.MarshalText(texts);
  }

  // ---- the file as text ---------------------------------------------------

  function DnsLines(dns: seq<string>): string {
    if dns == [] then "" else DnsLines(dns[..|dns| - 1]) + "DNS=" + dns[|dns| - 1] + "\n"
  }

  function AddressLines(ips: seq<IP>): string {
    if ips == [] then "" else AddressLines(ips[..|ips| - 1]) + "Address=" + ips[|ips| - 1].cidr + "\n"
  }

  /** The route of a management address: everything for a public one and for IPv6, the
      private network for a private one. */
  function RouteLines(ip: IP): string {
    if !ip.management || (ip.family != 4 && ip.family != 6) then ""
    else
      "\n[Route]\nDestination="
      + (if ip.family == 6 then "::/0" else if ip.isPublic then "0.0.0.0/0" else "10.0.0.0/8")
      + "\nGateway=" + ip.gateway + "\n"
  }

  function RoutesLines(ips: seq<IP>): string {
    if ips == [] then "" else RoutesLines(ips[..|ips| - 1]) + RouteLines(ips[|ips| - 1])
  }

  /** The network file: the bond, its servers and addresses, and a blank line and a section
      for each route. */
  function UnitText(dns: seq<string>, ips: seq<IP>): string {
    "[Match]\nName=bond0\n\n[Network]\n" + DnsLines(dns) + AddressLines(ips) + RoutesLines(ips)
  }

  lemma {:induction false} DnsIs(dns: seq<string>)
    ensures DnsText(dns) == DnsLines(dns)
    decreases |dns|
  {
    if dns != [] {
      var most, last := dns[..|dns| - 1], dns[|dns| - 1];
      DnsIs(most);
      KeyIs("DNS", "DNS=", last);
      assert DnsLines(most) + ("DNS=" + last + "\n") == DnsLines(most) + "DNS=" + last + "\n";
    }
  }

  lemma KeyIs(key: string, start: string, value: string)
    requires start == key + "="
    ensures KeyValue(key, value) == start + value + "\n"
  {
  }

  lemma {:induction false} AddressIs(ips: seq<IP>)
    ensures AddressText(ips) == AddressLines(ips)
    decreases |ips|
  {
    if ips != [] {
      var most, last := ips[..|ips| - 1], ips[|ips| - 1].cidr;
      AddressIs(most);
      KeyIs("Address", "Address=", last);
      assert AddressLines(most) + ("Address=" + last + "\n") == AddressLines(most) + "Address=" + last + "\n";
    }
  }

  lemma RouteIs(ip: IP)
    ensures (Destination(ip) == "" <==> RouteLines(ip) == "") && (Destination(ip) != "" ==> "\n" + RouteText(ip) == RouteLines(ip))
  {
    KeyIs("Destination", "Destination=", Destination(ip));
    KeyIs("Gateway", "Gateway=", ip.gateway);
    RouteJoins(Destination(ip), ip.gateway);
  }

  lemma RouteJoins(d: string, g: string)
    ensures "\n" + (Header("Route") + ("Destination=" + d + "\n") + ("Gateway=" + g + "\n"))
         == "\n[Route]\nDestination=" + d + "\nGateway=" + g + "\n"
  {
    assert Header("Route") == "[Route]\n";
    var x, y := "Destination=", "Gateway=";
    Flatten("\n", Header("Route"), x, d, y, g);
    assert "\n" + "[Route]\n" + x == "\n[Route]\nDestination=" && "\n" + y == "\nGateway=";
  }

  lemma Flatten(nl: string, h: string, x: string, d: string, y: string, g: string)
    ensures nl + (h + (x + d + nl) + (y + g + nl)) == (nl + h + x) + d + (nl + y) + g + nl
  {
  }

  lemma RenderMore(texts: seq<string>, t: string)
    requires texts != []
    ensures Render(texts + [t]) == Render(texts) + "\n" + t
  {
    assert (texts + [t])[..|texts|] == texts;
  }

  /** Each route adds its blank line and its section. */
  lemma {:induction false} RoutesAre(texts: seq<string>, ips: seq<IP>)
    requires texts != []
    ensures Render(texts + RouteTexts(ips)) == Render(texts) + RoutesLines(ips)
    decreases |ips|
  {
    if ips == [] {
      assert texts + [] == texts;
    } else {
      var most, last := ips[..|ips| - 1], ips[|ips| - 1];
      RoutesAre(texts, most);
      RouteIs(last);
      if Destination(last) == "" {
        NoRoute(texts, RouteTexts(most), RoutesLines(most));
      } else {
        OneRoute(texts, RouteTexts(most), RoutesLines(most), RouteText(last), RouteLines(last));
      }
    }
  }

  lemma NoRoute(texts: seq<string>, rs: seq<string>, lines: string)
    requires Render(texts + rs) == Render(texts) + lines
    ensures Render(texts + (rs + [])) == Render(texts) + (lines + "")
  {
    assert rs + [] == rs && lines + "" == lines;
  }

  lemma OneRoute(texts: seq<string>, rs: seq<string>, lines: string, t: string, r: string)
    requires texts != [] && Render(texts + rs) == Render(texts) + lines && "\n" + t == r
    ensures Render(texts + (rs + [t])) == Render(texts) + (lines + r)
  {
    assert texts + (rs + [t]) == texts + rs + [t];
    RenderMore(texts + rs, t);
    assert Render(texts) + lines + "\n" + t == Render(texts) + (lines + ("\n" + t));
  }

  lemma UnitTextIs(dns: seq<string>, ips: seq<IP>)
    ensures Render(NetworkUnit(dns, ips)) == UnitText(dns, ips)
  {
    var m, n := Header("Match") + Line("Name=" + BOND_NAME), Header("Network") + DnsText(dns) + AddressText(ips);
    DnsIs(dns);
    AddressIs(ips);
    RoutesAre([m, n], ips);
    TopIs(m, n, DnsLines(dns), AddressLines(ips));
  }

  lemma TopIs(m: string, n: string, d: string, a: string)
    requires m == Header("Match") + Line("Name=" + BOND_NAME) && n == Header("Network") + d + a
    ensures Render([m, n]) == "[Match]\nName=bond0\n\n[Network]\n" + d + a
  {
    MatchIs();
    assert Header("Network") == "[Network]\n";
    assert [m, n][..1] == [m];
    assert m + "\n" + n == (m + "\n" + "[Network]\n") + d + a;
    assert "[Match]\nName=bond0\n" + "\n" + "[Network]\n" == "[Match]\nName=bond0\n\n[Network]\n";
  }

  lemma MatchIs()
    ensures Header("Match") + Line("Name=" + BOND_NAME) == "[Match]\nName=bond0\n"
  {
    assert Header("Match") == "[Match]\n" && Line("Name=" + BOND_NAME) == "Name=bond0\n";
  }

  /** From nothing to the bytes of the file, of the length Len announces. */
  method NetworkFile(dns: seq<string>, ips: seq<IP>) returns (text: string, len: nat)
    ensures text == UnitText(dns, ips) && len == |text|
  {
    var b := new Builder();
    ConfigureNetworkUnit(b, dns, ips, []);
    ghost var unit := [] + NetworkUnit(dns, ips);
    text, len := Bytes(b, unit);
    assert unit == NetworkUnit(dns, ips);
    UnitTextIs(dns, ips);
  }
}
