/** Boot scripts as job/ipxe.go serves them: the preamble, the choice of an installer, and the text sent. */
module Served {

  import opened Bytes
  import opened IpxeScript
  import opened Osie
  import opened ScriptText

  // ---- the preamble -------------------------------------------------------

  datatype Site = Site(iface: string, publicFqdn: string, syslogFqdn: string, traceId: Option<string>)

  predicate CleanSite(site: Site) {
    && OneLine(site.iface) && OneLine(site.publicFqdn) && OneLine(site.syslogFqdn)
    && (site.traceId.Some? ==> OneLine(site.traceId.value))
  }

  function DebugLine(traceId: string): string { "echo " + ("Debug Trace ID: " + traceId) }

  function DebugCalls(site: Site): seq<Call> {
    if site.traceId.Some? then [Append(DebugLine(site.traceId.value))] else []
  }

  function SiteCalls(site: Site): seq<Call> {
    [Append(SetLine("iface", site.iface))] + [Continue(" || " + "shell")]
    + [Append(SetLine("tinkerbell", "http://" + site.publicFqdn))]
    + [Append(SetLine("syslog_host", site.syslogFqdn))]
    + [Append(SetLine("ipxe_cloud_config", "packet"))]
  }

  function PreambleCalls(site: Site): seq<Call> { SiteCalls(site) + DebugCalls(site) }

  function ComposedLines(site: Site): seq<string> {
    FRESH
    + [SetLine("iface", site.iface) + (" || " + "shell")]
    + [SetLine("tinkerbell", "http://" + site.publicFqdn)]
    + [SetLine("syslog_host", site.syslogFqdn)]
    + [SetLine("ipxe_cloud_config", "packet")]
    + (if site.traceId.Some? then [DebugLine(site.traceId.value)] else [])
  }

  /** The first lines of every script. */
  function PreambleLines(site: Site): seq<string> {
    ["#!ipxe", "", "echo Tinkerbell Boots iPXE", "set iface " + site.iface + " || shell",
     "set tinkerbell http://" + site.publicFqdn, "set syslog_host " + site.syslogFqdn, "set ipxe_cloud_config packet"]
    + (if site.traceId.Some? then ["echo Debug Trace ID: " + site.traceId.value] else [])
  }

  lemma PreambleIs(site: Site)
    ensures ComposedLines(site) == PreambleLines(site)
  {
    Greeting();
    IfaceLine(site.iface);
    SiteLine(site);
    CloudLine();
    SevenLines(SHEBANG, "", "echo " + GREETING, SetLine("iface", site.iface) + (" || " + "shell"),
               SetLine("tinkerbell", "http://" + site.publicFqdn), SetLine("syslog_host", site.syslogFqdn),
               SetLine("ipxe_cloud_config", "packet"));
    if site.traceId.Some? { Joins("echo ", "Debug Trace ID: ", "echo Debug Trace ID: ", site.traceId.value); }
  }

  lemma Greeting()
    ensures "echo " + GREETING == "echo Tinkerbell Boots iPXE"
  {
  }

  lemma IfaceLine(iface: string)
    ensures SetLine("iface", iface) + (" || " + "shell") == "set iface " + iface + " || shell"
  {
    SetIs("iface", "set iface ", iface);
    assert " || " + "shell" == " || shell";
  }

  lemma SiteLine(site: Site)
    ensures SetLine("tinkerbell", "http://" + site.publicFqdn) == "set tinkerbell http://" + site.publicFqdn
    ensures SetLine("syslog_host", site.syslogFqdn) == "set syslog_host " + site.syslogFqdn
  {
    SetIs("tinkerbell", "set tinkerbell ", "http://" + site.publicFqdn);
    Joins("set tinkerbell ", "http://", "set tinkerbell http://", site.publicFqdn);
    SetIs("syslog_host", "set syslog_host ", site.syslogFqdn);
  }

  lemma CloudLine()
    ensures SetLine("ipxe_cloud_config", "packet") == "set ipxe_cloud_config packet"
  {
    SetIs("ipxe_cloud_config", "set ipxe_cloud_config ", "packet");
    assert "set ipxe_cloud_config " + "packet" == "set ipxe_cloud_config packet";
  }

  lemma Joins(a: string, b: string, ab: string, x: string)
    requires ab == a + b
    ensures a + (b + x) == ab + x
  {
  }

  lemma SevenLines(a: string, b: string, c: string, d: string, e: string, f: string, g: string)
    ensures [a, b, c] + [d] + [e] + [f] + [g] == [a, b, c, d, e, f, g]
  {
  }

  lemma SiteOneLine(site: Site)
    requires CleanSite(site)
    ensures forall c :: c in SiteCalls(site) ==> OneLineCall(c)
  {
    assert OneLine("http://") && OneLine("iface") && OneLine("tinkerbell") && OneLine("syslog_host");
    assert OneLine("ipxe_cloud_config") && OneLine("packet") && OneLine(" || ") && OneLine("shell");
    SetOneLine("iface", site.iface);
    SetOneLine("tinkerbell", "http://" + site.publicFqdn);
    SetOneLine("syslog_host", site.syslogFqdn);
    SetOneLine("ipxe_cloud_config", "packet");
  }

  lemma DebugOneLine(traceId: string)
    requires OneLine(traceId)
    ensures OneLine(DebugLine(traceId))
  {
    assert OneLine("echo ") && OneLine("Debug Trace ID: ");
  }

  lemma SiteLines(site: Site)
    ensures EditAll(FRESH, SiteCalls(site)) + (if site.traceId.Some? then [DebugLine(site.traceId.value)] else [])
         == ComposedLines(site)
  {
    var c1, c2 := Append(SetLine("iface", site.iface)), Continue(" || " + "shell");
    var c3 := Append(SetLine("tinkerbell", "http://" + site.publicFqdn));
    var c4 := Append(SetLine("syslog_host", site.syslogFqdn));
    var c5 := Append(SetLine("ipxe_cloud_config", "packet"));
    FiveEdits(FRESH, c1, c2, c3, c4, c5);
  }

  lemma FiveEdits(ls: seq<string>, c1: Call, c2: Call, c3: Call, c4: Call, c5: Call)
    requires c1.Append? && c2.Continue? && c3.Append? && c4.Append? && c5.Append?
    ensures EditAll(ls, [c1] + [c2] + [c3] + [c4] + [c5])
         == ls + [c1.line + c2.text] + [c3.line] + [c4.line] + [c5.line]
  {
    assert [] + [c1] == [c1];
    EditMore(ls, [], c1);
    EditMore(ls, [c1], c2);
    assert Extend(ls + [c1.line], c2.text) == ls + [c1.line + c2.text];
    EditMore(ls, [c1] + [c2], c3);
    EditMore(ls, [c1] + [c2] + [c3], c4);
    EditMore(ls, [c1] + [c2] + [c3] + [c4], c5);
  }

  lemma PreambleEdits(site: Site)
    ensures EditAll(FRESH, PreambleCalls(site)) == ComposedLines(site)
  {
    SiteLines(site);
    if site.traceId.Some? {
      EditMore(FRESH, SiteCalls(site), Append(DebugLine(site.traceId.value)));
    } else {
      assert PreambleCalls(site) == SiteCalls(site);
      assert ComposedLines(site) == EditAll(FRESH, SiteCalls(site)) + [];
    }
  }

  lemma PreambleQuiet(site: Site)
    ensures AllQuiet(PreambleLines(site))
  {
    PreambleIs(site);
    assert Quiet(FRESH[0]) && Quiet(FRESH[1]) && Quiet(FRESH[2]) by {
      assert FRESH[0][0] == '#' && FRESH[2][0] == 'e';
    }
    assert Quiet(SetLine("iface", site.iface) + (" || " + "shell")) by {
      assert (SetLine("iface", site.iface) + (" || " + "shell"))[0] == 's';
    }
    SetQuiet("tinkerbell", "http://" + site.publicFqdn);
    SetQuiet("syslog_host", site.syslogFqdn);
    SetQuiet("ipxe_cloud_config", "packet");
    if site.traceId.Some? { assert DebugLine(site.traceId.value)[0] == 'e'; }
  }

  function PreambleText(site: Site): (t: string)
    ensures WellFormed(t)
  {
    FreshLines();
    AfterAll(FreshText(), PreambleCalls(site))
  }

  lemma PreambleIsLines(site: Site)
    requires CleanSite(site)
    ensures LinesOf(PreambleText(site)) == PreambleLines(site)
  {
    PreambleIs(site);
    FreshLines();
    SiteOneLine(site);
    if site.traceId.Some? { DebugOneLine(site.traceId.value); }
    RunKeeps(FreshText(), PreambleCalls(site));
    PreambleEdits(site);
  }

  method Preamble(site: Site) returns (s: Script)
    ensures fresh(s) && s.Valid() && s.buf == PreambleText(site)
    ensures CleanSite(site) ==> LinesOf(s.buf) == PreambleLines(site)
  {
    s := new Script();
    ghost var base := FreshText();
    FreshLines();
    ghost var calls := SetVar(s, "iface", site.iface, base, []);
    assert calls == [Append(SetLine("iface", site.iface))];
    s.Or("shell");
    OneMoreCall(base, calls, Continue(" || " + "shell"));
    calls := calls + [Continue(" || " + "shell")];
    calls := SetVar(s, "tinkerbell", "http://" + site.publicFqdn, base, calls);
    calls := SetVar(s, "syslog_host", site.syslogFqdn, base, calls);
    calls := SetVar(s, "ipxe_cloud_config", "packet", base, calls);
    assert calls == SiteCalls(site);
    AddDebug(s, site, base, calls);
    if CleanSite(site) { PreambleIsLines(site); }
  }

  method AddDebug(s: Script, site: Site, ghost base: string, ghost calls: seq<Call>)
    requires Ran(s, base, calls)
    modifies s
    ensures Ran(s, base, calls + DebugCalls(site))
  {
    assert calls + [] == calls;
    if site.traceId.Some? {
      s.Echo("Debug Trace ID: " + site.traceId.value);
      OneMoreCall(base, calls, Append(DebugLine(site.traceId.value)));
    }
  }

  // ---- the choice of an installer -----------------------------------------

  /** What a script function may do to the script. */
  datatype Statement = Line(text: string) | ArgsTo(args: seq<string>) | OrElse(line: string) | Phone(typ: string) | Again

  function CallOf(e: Statement): Call {
    match e
    case Line(text) => Append(text)
    case ArgsTo(args) => Continue(Spaced(args))
    case OrElse(line) => Continue(" || " + line)
    case Phone(typ) => Call.PhoneHome(typ)
    case Again => Restart
  }

  function CallsOf(es: seq<Statement>): seq<Call> {
    if es == [] then [] else CallsOf(es[..|es| - 1]) + [CallOf(es[|es| - 1])]
  }

  /** A registered script function: one of OSIE's two, or any other. */
  datatype Scripter = OsieScript(discover: bool) | Other(statements: seq<Statement>)

  datatype Installers = Installers(byInstaller: map<string, Scripter>, bySlug: map<string, Scripter>,
                                   byDistro: map<string, Scripter>, default: Option<Scripter>)

  datatype Os = Os(installer: string, slug: string, distro: string)

  /** The script function `auto` settles on; none is the iPXE shell. */
  function Chosen(ins: Installers, instance: bool, os: Os): Option<Scripter> {
    if !instance then None
    else if os.installer in ins.byInstaller then Some(ins.byInstaller[os.installer])
    else if os.slug in ins.bySlug then Some(ins.bySlug[os.slug])
    else if os.distro in ins.byDistro then Some(ins.byDistro[os.distro])
    else ins.default
  }

  /** The tables are asked in turn: installer, slug, distribution, and then the default. */
  lemma TablesInOrder(ins: Installers, instance: bool, os: Os, c: Option<Scripter>)
    ensures Chosen(ins, instance, os) == c <==>
      || (!instance && c == None)
      || (instance && os.installer in ins.byInstaller && c == Some(ins.byInstaller[os.installer]))
      || (instance && os.installer !in ins.byInstaller && os.slug in ins.bySlug && c == Some(ins.bySlug[os.slug]))
      || (instance && os.installer !in ins.byInstaller && os.slug !in ins.bySlug && os.distro in ins.byDistro
          && c == Some(ins.byDistro[os.distro]))
      || (instance && os.installer !in ins.byInstaller && os.slug !in ins.bySlug && os.distro !in ins.byDistro
          && c == ins.default)
  {
  }

  function ActionOf(discover: bool, m: Machine): Action { if discover then Action.Discover else InstallAction(m) }

  function AutoCalls(c: Option<Scripter>, i: Installer, trace: Option<string>, m: Machine): seq<Call> {
    match c
    case None => [Append("shell")]
    case Some(OsieScript(discover)) => ScriptCalls(i, trace, ActionOf(discover, m), m)
    case Some(Other(statements)) => CallsOf(statements)
  }

  /** Any other script function, through the script's own methods. */
  method Perform(s: Script, es: seq<Statement>)
    requires s.Valid()
    modifies s
    ensures Ran(s, old(s.buf), CallsOf(es))
  {
    ghost var base := s.buf;
    for k := 0 to |es|
      invariant Ran(s, base, CallsOf(es[..k]))
    {
      assert es[..k + 1][..k] == es[..k];
      OneMoreCall(base, CallsOf(es[..k]), CallOf(es[k]));
      match es[k] {
        case Line(text) => s.AppendString(text);
        case ArgsTo(args) => s.Args(args);
        case OrElse(line) => s.Or(line);
        case Phone(typ) => s.PhoneHome(typ);
        case Again => s.Reset();
      }
    }
    assert es[..|es|] == es;
  }

  method Shell(s: Script)
    requires s.Valid()
    modifies s
    ensures Ran(s, old(s.buf), [Append("shell")])
  {
    ghost var base := s.buf;
    s.Shell();
    assert [] + [Append("shell")] == [Append("shell")];
    OneMoreCall(base, [], Append("shell"));
  }

  method RunScripter(c: Scripter, i: Installer, trace: Option<string>, m: Machine, s: Script)
    requires s.Valid()
    modifies s
    ensures Ran(s, old(s.buf), AutoCalls(Some(c), i, trace, m))
  {
    match c {
      case OsieScript(discover) =>
        var _ := BootScript(if discover then "discover" else "default", i, trace, m, s);
      case Other(statements) => Perform(s, statements);
    }
  }

  /** The first table that knows the machine's operating system, or else the default, or
      else the shell. */
  method Auto(ins: Installers, instance: bool, os: Os, i: Installer, trace: Option<string>, m: Machine, s: Script)
    requires s.Valid()
    modifies s
    ensures Ran(s, old(s.buf), AutoCalls(Chosen(ins, instance, os), i, trace, m))
  {
    if !instance {
      Shell(s);
    } else if os.installer in ins.byInstaller {
      RunScripter(ins.byInstaller[os.installer], i, trace, m, s);
    } else if os.slug in ins.bySlug {
      RunScripter(ins.bySlug[os.slug], i, trace, m, s);
    } else if os.distro in ins.byDistro {
      RunScripter(ins.byDistro[os.distro], i, trace, m, s);
    } else if ins.default.Some? {
      RunScripter(ins.default.value, i, trace, m, s);
    } else {
      Shell(s);
    }
  }

  // ---- the response -------------------------------------------------------

  function ServedText(site: Site, calls: seq<Call>): string { AfterAll(PreambleText(site), calls) }

  /** Newline-free settings of an OSIE script: every line of the response, with one kernel
      and all its arguments, one initrd, and boot last. */
  lemma OsieServed(site: Site, i: Installer, trace: Option<string>, action: Action, m: Machine, slug: string)
    requires CleanSite(site) && Clean(i, trace, m) && IsSlug(m.osSlug, slug)
    ensures var ls := LinesOf(ServedText(site, ScriptCalls(i, trace, action, m)));
      && ls == PreambleLines(site) + ScriptLines(i, trace, action, m, slug)
      && BootsOnce(ls, KernelText(i, trace, action, m, slug), InitrdText(m))
  {
    PreambleIsLines(site);
    PreambleQuiet(site);
    ScriptOneLine(i, trace, action, m);
    RunKeeps(PreambleText(site), ScriptCalls(i, trace, action, m));
    ScriptBootsOnce(PreambleLines(site), i, trace, action, m);
    ScriptIs(PreambleLines(site), i, trace, action, m, slug);
    KernelLineIs(i, trace, action, m, slug);
    InitrdLineIs(m);
  }

  lemma ShellServed(site: Site)
    requires CleanSite(site)
    ensures LinesOf(ServedText(site, [Append("shell")])) == PreambleLines(site) + ["shell"]
  {
    PreambleIsLines(site);
    assert OneLine("shell");
    RunKeeps(PreambleText(site), [Append("shell")]);
    assert [] + [Append("shell")] == [Append("shell")];
    EditMore(PreambleLines(site), [], Append("shell"));
  }

  ghost predicate ServesOsie(ls: seq<string>, site: Site, i: Installer, trace: Option<string>, action: Action, m: Machine) {
    exists slug :: IsSlug(m.osSlug, slug)
      && ls == PreambleLines(site) + ScriptLines(i, trace, action, m, slug)
      && BootsOnce(ls, KernelText(i, trace, action, m, slug), InitrdText(m))
  }

  /** From the name in the request to the text of the response; an unknown name is not found. */
  method Serve(name: string, site: Site, ins: Installers, instance: bool, os: Os,
               i: Installer, trace: Option<string>, m: Machine) returns (script: Option<string>)
    ensures script.None? <==> name != "auto" && name != "shell"
    ensures script.Some? ==> WellFormed(script.value)
    ensures name == "auto" ==> script.value == ServedText(site, AutoCalls(Chosen(ins, instance, os), i, trace, m))
    ensures name == "shell" ==> script.value == ServedText(site, [Append("shell")])
    ensures var c := Chosen(ins, instance, os);
      name == "auto" && c.Some? && c.value.OsieScript? && CleanSite(site) && Clean(i, trace, m) ==>
      ServesOsie(LinesOf(script.value), site, i, trace, ActionOf(c.value.discover, m), m)
  {
    if name != "auto" && name != "shell" { return None; }
    var s := Preamble(site);
    if name == "auto" {
      Auto(ins, instance, os, i, trace, m, s);
      ghost var c := Chosen(ins, instance, os);
      if c.Some? && c.value.OsieScript? && CleanSite(site) && Clean(i, trace, m) {
        ghost var slug := TrimImage(m.osSlug);
        SlugIs(m.osSlug, slug);
        OsieServed(site, i, trace, ActionOf(c.value.discover, m), m, slug);
      }
    } else {
      Shell(s);
    }
    script := Some(s.buf);
  }

  // ---- which settings reach the text --------------------------------------

  /** The text of an OSIE script around the kernel's arguments. */
  lemma AroundArgs(base: string, i: Installer, trace: Option<string>, action: Action, m: Machine)
    requires WellFormed(base)
    ensures AfterAll(base, ScriptCalls(i, trace, action, m))
         == (AfterAll(base, QuietCalls(i, action, m)) + KernelStart(m)) + Spaced(KernelArgs(i, trace, action, m)) + EndText(m)
  {
    var b, k, a, n := AfterAll(base, QuietCalls(i, action, m)), KernelStart(m), Spaced(KernelArgs(i, trace, action, m)), InitrdLine(m);
    LoadingRuns(base, QuietCalls(i, action, m), k, a, n);
    LoadingText(b, k, a, n);
  }

  function EndText(m: Machine): string { [NL] + InitrdLine(m) + [NL] + "boot" + [NL] }

  lemma LoadingText(b: string, k: string, a: string, n: string)
    requires EndsLine(b)
    ensures var b2 := After(After(b, Append(k)), Continue(a));
      After(After(b2, Append(n)), Append("boot")) == (b + k) + a + ([NL] + n + [NL] + "boot" + [NL])
  {
    var b1 := After(b, Append(k));
    assert b1[..|b1| - 1] == b + k;
  }

  function Piece(tag: string, x: string): seq<string> { When(x != "", [tag + x]) }

  lemma PieceInjective(tag: string, x: string, y: string)
    requires Spaced(Piece(tag, x)) == Spaced(Piece(tag, y))
    ensures x == y
  {
    SpacedOne(tag + x);
    SpacedOne(tag + y);
    if x != "" && y != "" {
      assert (" " + (tag + x))[1 + |tag|..] == x && (" " + (tag + y))[1 + |tag|..] == y;
    }
  }

  lemma Cancel(l: string, x: string, y: string, r: string)
    requires l + x + r == l + y + r
    ensures x == y
  {
    var s := l + x + r;
    assert |x| == |y|;
    assert s[|l|..|l| + |x|] == x && (l + y + r)[|l|..|l| + |y|] == y;
  }

  /** Between fixed text, a setting and its tag show whether the setting changed. */
  lemma PieceShows(l: string, a: seq<string>, tag: string, x: string, y: string, b: seq<string>, r: string)
    ensures l + Spaced(a + Piece(tag, x) + b) + r == l + Spaced(a + Piece(tag, y) + b) + r <==> x == y
  {
    PieceText(l, a, Piece(tag, x), b, r);
    PieceText(l, a, Piece(tag, y), b, r);
    if l + Spaced(a + Piece(tag, x) + b) + r == l + Spaced(a + Piece(tag, y) + b) + r {
      Cancel(l + Spaced(a), Spaced(Piece(tag, x)), Spaced(Piece(tag, y)), Spaced(b) + r);
      PieceInjective(tag, x, y);
    }
  }

  lemma PieceText(l: string, a: seq<string>, p: seq<string>, b: seq<string>, r: string)
    ensures l + Spaced(a + p + b) + r == (l + Spaced(a)) + Spaced(p) + (Spaced(b) + r)
  {
    SpacedConcat(a + p, b);
    SpacedConcat(a, p);
  }

  lemma Regroup(a: seq<string>, p: seq<string>, w1: seq<string>, w2: seq<string>, w3: seq<string>,
                x: seq<string>, y: seq<string>, z: seq<string>, u: seq<string>, v: seq<string>)
    ensures (a + p) + w1 + w2 + w3 + x + y + z + u + v == a + p + (w1 + w2 + w3 + x + y + z + u + v)
  {
  }

  /** The arguments after the hardware-report secrets. */
  function LaterArgs(i: Installer, action: Action, m: Machine): seq<string> {
    When(m.osieVersion != "", ["packet_base_url=${base-url}"])
    + When(m.vlan != "", ["vlan_id=" + m.vlan])
    + When(m.canWorkflow, WorkflowArgs(i, m))
    + ["packet_bootdev_mac=${bootdevmac}"] + ["facility=" + m.facility] + [IommuArg(m)]
    + When(action.Install?, InstallArgs(m)) + ConsoleArgs(m)
  }

  lemma HollowIsPiece(i: Installer, trace: Option<string>, action: Action, m: Machine)
    requires m.state == "deprovisioning"
    ensures KernelArgs(i, trace, action, m)
         == ([i.defaultParams] + When(trace.Some?, [TraceArg(trace)])) + Piece("", i.hollowParams) + LaterArgs(i, action, m)
  {
    assert "" + i.hollowParams == i.hollowParams;
    Regroup([i.defaultParams] + When(trace.Some?, [TraceArg(trace)]), Piece("", i.hollowParams),
            When(m.osieVersion != "", ["packet_base_url=${base-url}"]), When(m.vlan != "", ["vlan_id=" + m.vlan]),
            When(m.canWorkflow, WorkflowArgs(i, m)),
            ["packet_bootdev_mac=${bootdevmac}"], ["facility=" + m.facility], [IommuArg(m)],
            When(action.Install?, InstallArgs(m)), ConsoleArgs(m));
  }

  lemma SameQuiet(i: Installer, action: Action, m: Machine, x: string)
    ensures QuietCalls(i.(hollowParams := x), action, m) == QuietCalls(i, action, m)
    ensures LaterArgs(i.(hollowParams := x), action, m) == LaterArgs(i, action, m)
  {
    assert WorkflowArgs(i.(hollowParams := x), m) == WorkflowArgs(i, m);
    assert BaseUrl(i.(hollowParams := x), m) == BaseUrl(i, m);
  }

  lemma HollowUnused(i: Installer, trace: Option<string>, action: Action, m: Machine, x: string)
    requires m.state != "deprovisioning"
    ensures KernelArgs(i.(hollowParams := x), trace, action, m) == KernelArgs(i, trace, action, m)
  {
    assert SecretArgs(i.(hollowParams := x), trace, m) == SecretArgs(i, trace, m);
    assert WorkflowArgs(i.(hollowParams := x), m) == WorkflowArgs(i, m);
  }

  /** The text around the arguments does not depend on the secrets. */
  lemma HollowText(base: string, i: Installer, trace: Option<string>, action: Action, m: Machine, x: string)
    requires WellFormed(base)
    ensures AfterAll(base, ScriptCalls(i.(hollowParams := x), trace, action, m))
         == (AfterAll(base, QuietCalls(i, action, m)) + KernelStart(m))
            + Spaced(KernelArgs(i.(hollowParams := x), trace, action, m)) + EndText(m)
  {
    AroundArgs(base, i.(hollowParams := x), trace, action, m);
    SameQuiet(i, action, m, x);
  }

  /** The hardware-report secrets reach the served text of a machine that is deprovisioned
      and of no other: exactly then another value makes another text. */
  lemma HollowReachesIff(site: Site, i: Installer, trace: Option<string>, action: Action, m: Machine, x: string, y: string)
    ensures ServedText(site, ScriptCalls(i.(hollowParams := x), trace, action, m))
         == ServedText(site, ScriptCalls(i.(hollowParams := y), trace, action, m))
       <==> x == y || m.state != "deprovisioning"
  {
    var base := PreambleText(site);
    HollowText(base, i, trace, action, m, x);
    HollowText(base, i, trace, action, m, y);
    if m.state == "deprovisioning" {
      var l, a := AfterAll(base, QuietCalls(i, action, m)) + KernelStart(m), [i.defaultParams] + When(trace.Some?, [TraceArg(trace)]);
      HollowIsPiece(i.(hollowParams := x), trace, action, m);
      HollowIsPiece(i.(hollowParams := y), trace, action, m);
      SameQuiet(i, action, m, x);
      SameQuiet(i, action, m, y);
      PieceShows(l, a, "", x, y, LaterArgs(i, action, m), EndText(m));
    } else {
      HollowUnused(i, trace, action, m, x);
      HollowUnused(i, trace, action, m, y);
    }
  }

  /** The arguments before the password hash of an install. */
  function EarlierArgs(i: Installer, trace: Option<string>, m: Machine): seq<string> {
    MachineArgs(i, trace, m) + ["plan=" + m.plan, "manufacturer=" + m.manufacturer, SlugArg(m)]
  }

  lemma PasswordIsPiece(i: Installer, trace: Option<string>, m: Machine)
    ensures KernelArgs(i, trace, Action.Install, m)
         == EarlierArgs(i, trace, m) + Piece("pwhash=", m.passwordHash) + ConsoleArgs(m)
  {
    var a, b, p, c := MachineArgs(i, trace, m), ["plan=" + m.plan, "manufacturer=" + m.manufacturer, SlugArg(m)],
      Piece("pwhash=", m.passwordHash), ConsoleArgs(m);
    assert a + (b + p) + c == a + b + p + c;
  }

  lemma SameAround(i: Installer, trace: Option<string>, m: Machine, x: string)
    ensures EarlierArgs(i, trace, m.(passwordHash := x)) == EarlierArgs(i, trace, m)
    ensures ConsoleArgs(m.(passwordHash := x)) == ConsoleArgs(m)
  {
    var m' := m.(passwordHash := x);
    assert SecretArgs(i, trace, m') == SecretArgs(i, trace, m);
    assert WorkflowArgs(i, m') == WorkflowArgs(i, m) && IommuArg(m') == IommuArg(m) && SlugArg(m') == SlugArg(m);
  }

  lemma PasswordUnused(i: Installer, trace: Option<string>, action: Action, m: Machine, x: string)
    requires !action.Install?
    ensures KernelArgs(i, trace, action, m.(passwordHash := x)) == KernelArgs(i, trace, action, m)
  {
    var m' := m.(passwordHash := x);
    assert SecretArgs(i, trace, m') == SecretArgs(i, trace, m);
    assert WorkflowArgs(i, m') == WorkflowArgs(i, m);
    assert ConsoleArgs(m') == ConsoleArgs(m);
  }

  lemma PasswordElsewhere(i: Installer, action: Action, m: Machine, x: string)
    ensures QuietCalls(i, action, m.(passwordHash := x)) == QuietCalls(i, action, m)
    ensures KernelStart(m.(passwordHash := x)) == KernelStart(m) && EndText(m.(passwordHash := x)) == EndText(m)
  {
    var m' := m.(passwordHash := x);
    assert BaseUrl(i, m') == BaseUrl(i, m) && ActionName(action, m') == ActionName(action, m);
    assert PhoneHomeType(m') == PhoneHomeType(m);
    assert KernelPath(m') == KernelPath(m) && InitrdPath(m') == InitrdPath(m);
  }

  lemma PasswordText(base: string, i: Installer, trace: Option<string>, action: Action, m: Machine, x: string)
    requires WellFormed(base)
    ensures AfterAll(base, ScriptCalls(i, trace, action, m.(passwordHash := x)))
         == (AfterAll(base, QuietCalls(i, action, m)) + KernelStart(m))
            + Spaced(KernelArgs(i, trace, action, m.(passwordHash := x))) + EndText(m)
  {
    AroundArgs(base, i, trace, action, m.(passwordHash := x));
    PasswordElsewhere(i, action, m, x);
  }

  /** The password hash reaches the served text of an install and of no other script. */
  lemma PasswordReachesIff(site: Site, i: Installer, trace: Option<string>, action: Action, m: Machine, x: string, y: string)
    ensures ServedText(site, ScriptCalls(i, trace, action, m.(passwordHash := x)))
         == ServedText(site, ScriptCalls(i, trace, action, m.(passwordHash := y)))
       <==> x == y || !action.Install?
  {
    var base := PreambleText(site);
    PasswordText(base, i, trace, action, m, x);
    PasswordText(base, i, trace, action, m, y);
    if action.Install? {
      PasswordIsPiece(i, trace, m.(passwordHash := x));
      PasswordIsPiece(i, trace, m.(passwordHash := y));
      SameAround(i, trace, m, x);
      SameAround(i, trace, m, y);
      PieceShows(AfterAll(base, QuietCalls(i, action, m)) + KernelStart(m), EarlierArgs(i, trace, m), "pwhash=", x, y,
                 ConsoleArgs(m), EndText(m));
    } else {
      PasswordUnused(i, trace, action, m, x);
      PasswordUnused(i, trace, action, m, y);
    }
  }
}
