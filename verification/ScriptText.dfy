/**
 The OSIE script as plain text: every line written out with the characters a machine reads,
 and the proof that the calls of the installer make exactly these lines.
 */
module ScriptText {

  import opened Bytes
  import opened IpxeScript
  import opened Osie

  function Opt(c: bool, t: string): string { if c then t else "" }

  /** `slug` is the name of the operating system without a final "_image". */
  ghost predicate IsSlug(name: string, slug: string) {
    name == slug + "_image" || (slug == name && forall u: string :: name != u + "_image")
  }

  lemma SlugIs(name: string, slug: string)
    ensures IsSlug(name, slug) <==> TrimImage(name) == slug
  {
    forall u: string ensures name == u + "_image" <==> Trimmed(name, u) { SuffixIff(name, u); }
    if |name| >= 6 && name[|name| - 6..] == "_image" { assert Trimmed(name, name[..|name| - 6]); }
  }

  predicate Trimmed(name: string, u: string) {
    |name| >= 6 && name[|name| - 6..] == "_image" && u == name[..|name| - 6]
  }

  lemma SuffixIff(name: string, u: string)
    ensures name == u + "_image" <==> Trimmed(name, u)
  {
    var suffix := "_image";
    assert (u + suffix)[|u|..] == suffix && (u + suffix)[..|u|] == u;
    if Trimmed(name, u) { assert name == name[..|name| - 6] + name[|name| - 6..]; }
  }

  // ---- the kernel's arguments ---------------------------------------------

  function SecretText(i: Installer, trace: Option<string>, m: Machine): string {
    " " + i.defaultParams
    + (match trace case Some(parent) => " " + ("traceparent=00-" + parent) case None => "")
    + Opt(m.state == "deprovisioning" && i.hollowParams != "", " " + i.hollowParams)
  }

  function WorkflowText(i: Installer, m: Machine): string {
    " " + i.workflowParams + (" " + ("instance_id=" + m.instanceId)) + (" " + ("worker_id=" + m.hardwareId))
  }

  function MachineText(i: Installer, m: Machine): string {
    Opt(m.osieVersion != "", " " + "packet_base_url=${base-url}")
    + Opt(m.vlan != "", " " + ("vlan_id=" + m.vlan))
    + Opt(m.canWorkflow, WorkflowText(i, m))
    + (" " + "packet_bootdev_mac=${bootdevmac}")
    + (" " + ("facility=" + m.facility))
    + (" " + (if m.plan in ["c2.large.arm", "c2.large.anbox", "c3.large.arm"] then "iommu.passthrough=1"
              else "intel_iommu=on iommu=pt"))
  }

  function InstallText(m: Machine, slug: string): string {
    " " + ("plan=" + m.plan) + (" " + ("manufacturer=" + m.manufacturer))
    + (" " + ("slug=" + slug + Opt(m.imageTag != "", ":" + m.imageTag)))
    + Opt(m.passwordHash != "", " " + ("pwhash=" + m.passwordHash))
  }

  function ConsoleText(m: Machine): string {
    " " + ("initrd=" + (if m.initrdPath != "" then m.initrdPath else "initramfs-${arch}"))
    + (if m.isArm then " " + "console=ttyAMA0,115200" else " " + "console=tty0" + (" " + "console=ttyS1,115200"))
  }

  /** The kernel line: its path, and for each setting its text, exactly when it is there. */
  function KernelText(i: Installer, trace: Option<string>, action: Action, m: Machine, slug: string): string {
    "kernel ${base-url}/" + (if m.kernelPath != "" then m.kernelPath else "vmlinuz-${arch}")
    + (SecretText(i, trace, m) + MachineText(i, m) + Opt(action.Install?, InstallText(m, slug)) + ConsoleText(m))
  }

  function InitrdText(m: Machine): string {
    "initrd ${base-url}/" + (if m.initrdPath != "" then m.initrdPath else "initramfs-${arch}")
  }

  lemma SpacedOne(x: string)
    ensures Spaced([x]) == " " + x
  {
    assert [x][..0] == [];
    assert Spaced([]) + " " + x == " " + x;
  }

  lemma SpacedWhen(c: bool, x: string)
    ensures Spaced(When(c, [x])) == Opt(c, " " + x)
  {
    SpacedOne(x);
  }

  /** The text of one more optional argument. */
  lemma OneMore(a: seq<string>, c: bool, x: string)
    ensures Spaced(a + When(c, [x])) == Spaced(a) + Opt(c, " " + x)
  {
    SpacedConcat(a, When(c, [x]));
    SpacedWhen(c, x);
  }

  lemma OneAlways(a: seq<string>, x: string)
    ensures Spaced(a + [x]) == Spaced(a) + (" " + x)
  {
    SpacedConcat(a, [x]);
    SpacedOne(x);
  }

  lemma SecretIs(i: Installer, trace: Option<string>, m: Machine)
    ensures Spaced(SecretArgs(i, trace, m)) == SecretText(i, trace, m)
  {
    var a := [i.defaultParams];
    SpacedOne(i.defaultParams);
    OneMore(a, trace.Some?, TraceArg(trace));
    OneMore(a + When(trace.Some?, [TraceArg(trace)]), m.state == "deprovisioning" && i.hollowParams != "", i.hollowParams);
  }

  lemma WorkflowIs(i: Installer, m: Machine)
    ensures Spaced(WorkflowArgs(i, m)) == WorkflowText(i, m)
  {
    var x, y, z := i.workflowParams, "instance_id=" + m.instanceId, "worker_id=" + m.hardwareId;
    assert [x, y, z] == [x] + [y] + [z];
    SpacedOne(x);
    OneAlways([x], y);
    OneAlways([x] + [y], z);
  }

  function PlainArgs(i: Installer, m: Machine): seq<string> {
    When(m.osieVersion != "", ["packet_base_url=${base-url}"])
    + When(m.vlan != "", ["vlan_id=" + m.vlan])
    + When(m.canWorkflow, WorkflowArgs(i, m))
    + ["packet_bootdev_mac=${bootdevmac}"] + ["facility=" + m.facility] + [IommuArg(m)]
  }

  lemma IommuIs(m: Machine)
    ensures IommuArg(m) == if m.plan in ["c2.large.arm", "c2.large.anbox", "c3.large.arm"] then "iommu.passthrough=1" else "intel_iommu=on iommu=pt"
  {
    var plans := ["c2.large.arm", "c2.large.anbox", "c3.large.arm"];
    assert plans[0] in plans && plans[1] in plans && plans[2] in plans;
  }

  lemma PlainIs(i: Installer, m: Machine)
    ensures Spaced(PlainArgs(i, m)) == MachineText(i, m)
  {
    WorkflowIs(i, m);
    IommuIs(m);
    SixMore(m.osieVersion != "", "packet_base_url=${base-url}", m.vlan != "", "vlan_id=" + m.vlan,
            m.canWorkflow, WorkflowArgs(i, m), "packet_bootdev_mac=${bootdevmac}", "facility=" + m.facility, IommuArg(m));
  }

  lemma SixMore(c: bool, x: string, d: bool, y: string, e: bool, ws: seq<string>, p: string, q: string, r: string)
    ensures Spaced(When(c, [x]) + When(d, [y]) + When(e, ws) + [p] + [q] + [r])
         == Opt(c, " " + x) + Opt(d, " " + y) + Opt(e, Spaced(ws)) + (" " + p) + (" " + q) + (" " + r)
  {
    var a := When(c, [x]);
    SpacedWhen(c, x);
    OneMore(a, d, y);
    var b := a + When(d, [y]);
    SpacedConcat(b, When(e, ws));
    OneAlways(b + When(e, ws), p);
    OneAlways(b + When(e, ws) + [p], q);
    OneAlways(b + When(e, ws) + [p] + [q], r);
  }

  lemma InstallIs(m: Machine, slug: string)
    requires IsSlug(m.osSlug, slug)
    ensures Spaced(InstallArgs(m)) == InstallText(m, slug)
  {
    SlugIs(m.osSlug, slug);
    assert SlugArg(m) == "slug=" + slug + Opt(m.imageTag != "", ":" + m.imageTag) by {
      assert "slug=" + slug + "" == "slug=" + slug;
      assert "slug=" + slug + ":" + m.imageTag == "slug=" + slug + (":" + m.imageTag);
    }
    var x, y, z := "plan=" + m.plan, "manufacturer=" + m.manufacturer, SlugArg(m);
    assert [x, y, z] == [x] + [y] + [z];
    SpacedOne(x);
    OneAlways([x], y);
    OneAlways([x] + [y], z);
    OneMore([x, y, z], m.passwordHash != "", "pwhash=" + m.passwordHash);
  }

  lemma ConsoleIs(m: Machine)
    ensures Spaced(ConsoleArgs(m)) == ConsoleText(m)
  {
    var x := "initrd=" + InitrdPath(m);
    SpacedOne(x);
    if m.isArm {
      OneAlways([x], "console=ttyAMA0,115200");
    } else {
      var y, z := "console=tty0", "console=ttyS1,115200";
      assert [x] + [y, z] == [x] + [y] + [z];
      OneAlways([x], y);
      OneAlways([x] + [y], z);
      assert " " + x + (" " + y) + (" " + z) == " " + x + (" " + y + (" " + z));
    }
  }

  lemma ArgsAre(i: Installer, trace: Option<string>, action: Action, m: Machine, slug: string)
    requires IsSlug(m.osSlug, slug)
    ensures Spaced(KernelArgs(i, trace, action, m))
         == SecretText(i, trace, m) + MachineText(i, m) + Opt(action.Install?, InstallText(m, slug)) + ConsoleText(m)
  {
    SecretIs(i, trace, m);
    PlainIs(i, m);
    InstallIs(m, slug);
    ConsoleIs(m);
    var s, p, n, c := SecretArgs(i, trace, m), PlainArgs(i, m), When(action.Install?, InstallArgs(m)), ConsoleArgs(m);
    MachineSplit(i, trace, m);
    SpacedConcat(s, p);
    SpacedConcat(s + p, n);
    SpacedConcat(s + p + n, c);
  }

  lemma MachineSplit(i: Installer, trace: Option<string>, m: Machine)
    ensures MachineArgs(i, trace, m) == SecretArgs(i, trace, m) + PlainArgs(i, m)
  {
    Regroup(SecretArgs(i, trace, m), When(m.osieVersion != "", ["packet_base_url=${base-url}"]), When(m.vlan != "", ["vlan_id=" + m.vlan]),
            When(m.canWorkflow, WorkflowArgs(i, m)), ["packet_bootdev_mac=${bootdevmac}"], ["facility=" + m.facility], [IommuArg(m)]);
  }

  lemma Regroup(s: seq<string>, a: seq<string>, b: seq<string>, c: seq<string>, d: seq<string>, e: seq<string>, f: seq<string>)
    ensures s + a + b + c + d + e + f == s + (a + b + c + d + e + f)
  {
  }

  /** The kernel line an iPXE client reads, for every installer, job and action. */
  lemma KernelLineIs(i: Installer, trace: Option<string>, action: Action, m: Machine, slug: string)
    requires IsSlug(m.osSlug, slug)
    ensures KernelLine(i, trace, action, m) == KernelText(i, trace, action, m, slug)
  {
    ArgsAre(i, trace, action, m, slug);
    KernelStartIs(m);
  }

  lemma KernelStartIs(m: Machine)
    ensures KernelStart(m) == "kernel ${base-url}/" + (if m.kernelPath != "" then m.kernelPath else "vmlinuz-${arch}")
  {
    StartIs("kernel ", "${base-url}/", "kernel ${base-url}/", KernelPath(m));
  }

  lemma InitrdLineIs(m: Machine)
    ensures InitrdLine(m) == InitrdText(m)
  {
    StartIs("initrd ", "${base-url}/", "initrd ${base-url}/", InitrdPath(m));
  }

  lemma StartIs(command: string, base: string, start: string, path: string)
    requires start == command + base
    ensures command + (base + path) + Spaced([]) == start + path
  {
    assert command + (base + path) == command + base + path;
  }

  // ---- the whole script ---------------------------------------------------

  function ExtraLines(vars: seq<(string, string)>): seq<string> {
    if vars == [] then [] else ExtraLines(vars[..|vars| - 1]) + ["set " + vars[|vars| - 1].0 + " " + vars[|vars| - 1].1]
  }

  function AnnounceLines(action: Action, m: Machine): seq<string> {
    if !action.Install? then []
    else
      ["", "params", "param body Device connected to DHCP system",
       "param type " + (if m.state == "deprovisioning" then "deprovisioning.304.1" else "provisioning.104.01"),
       "imgfetch ${tinkerbell}/phone-home##params", "imgfree", ""]
  }

  function ActionText(action: Action, m: Machine): string {
    if action.Rescue? then "rescue" else if action.Discover? then "discover"
    else if m.canWorkflow then "workflow" else "install"
  }

  function UrlText(i: Installer, m: Machine): string {
    if i.urlOverride != "" then i.urlOverride else if m.osieBaseUrl != "" then m.osieBaseUrl
    else i.osieUrl + "/" + (if m.osieVersion != "" then m.osieVersion else "current")
  }

  function HeadLines(i: Installer, action: Action, m: Machine): seq<string> {
    ExtraLines(i.extraVars) + AnnounceLines(action, m)
    + ["set action " + ActionText(action, m)] + ["set state " + m.state]
    + ["set arch " + m.arch] + ["set bootdevmac " + m.primaryNic] + ["set base-url " + UrlText(i, m)]
  }

  /** Every line of the script after the preamble. */
  function ScriptLines(i: Installer, trace: Option<string>, action: Action, m: Machine, slug: string): seq<string> {
    HeadLines(i, action, m) + [KernelText(i, trace, action, m, slug), InitrdText(m), "boot"]
  }

  lemma {:induction false} ExtraAre(ls: seq<string>, vars: seq<(string, string)>)
    ensures EditAll(ls, ExtraCalls(vars)) == ls + ExtraLines(vars)
    decreases |vars|
  {
    if vars == [] {
      assert ls + [] == ls;
    } else {
      var most, kv := vars[..|vars| - 1], vars[|vars| - 1];
      ExtraAre(ls, most);
      EditMore(ls, ExtraCalls(most), Append(SetLine(kv.0, kv.1)));
      assert ls + ExtraLines(most) + [SetLine(kv.0, kv.1)] == ls + ExtraLines(vars);
    }
  }

  lemma UrlIs(i: Installer, m: Machine)
    ensures BaseUrl(i, m) == UrlText(i, m)
  {
    assert i.osieUrl + "/current" == i.osieUrl + "/" + "current";
  }

  lemma ActionIs(action: Action, m: Machine)
    ensures ActionName(action, m) == ActionText(action, m)
  {
  }

  lemma AnnounceAre(ls: seq<string>, calls: seq<Call>, action: Action, m: Machine)
    ensures EditAll(ls, calls + AnnounceCalls(action, m)) == EditAll(ls, calls) + AnnounceLines(action, m)
  {
    if action.Install? {
      EditMore(ls, calls, Call.PhoneHome(PhoneHomeType(m)));
    } else {
      assert calls + [] == calls && EditAll(ls, calls) + [] == EditAll(ls, calls);
    }
  }

  lemma FiveSets(ls: seq<string>, calls: seq<Call>, a: string, b: string, c: string, d: string, e: string)
    ensures EditAll(ls, calls + [Append(a)] + [Append(b)] + [Append(c)] + [Append(d)] + [Append(e)])
         == EditAll(ls, calls) + [a] + [b] + [c] + [d] + [e]
  {
    EditMore(ls, calls, Append(a));
    EditMore(ls, calls + [Append(a)], Append(b));
    EditMore(ls, calls + [Append(a)] + [Append(b)], Append(c));
    EditMore(ls, calls + [Append(a)] + [Append(b)] + [Append(c)], Append(d));
    EditMore(ls, calls + [Append(a)] + [Append(b)] + [Append(c)] + [Append(d)], Append(e));
  }

  lemma SetIs(name: string, start: string, value: string)
    requires start == "set " + name + " "
    ensures SetLine(name, value) == start + value
  {
  }

  lemma HeadAre(ls: seq<string>, i: Installer, action: Action, m: Machine)
    ensures EditAll(ls, QuietCalls(i, action, m)) == ls + HeadLines(i, action, m)
  {
    var a, b := SetLine("action", ActionName(action, m)), SetLine("state", m.state);
    var c, d, e := SetLine("arch", m.arch), SetLine("bootdevmac", m.primaryNic), SetLine("base-url", BaseUrl(i, m));
    ExtraAre(ls, i.extraVars);
    AnnounceAre(ls, ExtraCalls(i.extraVars), action, m);
    FiveSets(ls, ExtraCalls(i.extraVars) + AnnounceCalls(action, m), a, b, c, d, e);
    Nest(ls, ExtraLines(i.extraVars), AnnounceLines(action, m), a, b, c, d, e);
    SetsAre(i, action, m);
  }

  lemma SetsAre(i: Installer, action: Action, m: Machine)
    ensures SetLine("action", ActionName(action, m)) == "set action " + ActionText(action, m)
    ensures SetLine("state", m.state) == "set state " + m.state && SetLine("arch", m.arch) == "set arch " + m.arch
    ensures SetLine("bootdevmac", m.primaryNic) == "set bootdevmac " + m.primaryNic
    ensures SetLine("base-url", BaseUrl(i, m)) == "set base-url " + UrlText(i, m)
  {
    UrlIs(i, m);
    ActionIs(action, m);
    SetIs("action", "set action ", ActionText(action, m));
    SetIs("state", "set state ", m.state);
    SetIs("arch", "set arch ", m.arch);
    SetIs("bootdevmac", "set bootdevmac ", m.primaryNic);
    SetIs("base-url", "set base-url ", UrlText(i, m));
  }

  lemma Nest(ls: seq<string>, x: seq<string>, y: seq<string>, a: string, b: string, c: string, d: string, e: string)
    ensures ls + x + y + [a] + [b] + [c] + [d] + [e] == ls + (x + y + [a] + [b] + [c] + [d] + [e])
  {
  }

  /** The calls of the installer make exactly the script's lines. */
  lemma ScriptIs(ls: seq<string>, i: Installer, trace: Option<string>, action: Action, m: Machine, slug: string)
    requires IsSlug(m.osSlug, slug)
    ensures EditAll(ls, ScriptCalls(i, trace, action, m)) == ls + ScriptLines(i, trace, action, m, slug)
  {
    var kernel, args, initrd := KernelStart(m), Spaced(KernelArgs(i, trace, action, m)), InitrdLine(m);
    HeadAre(ls, i, action, m);
    LoadingLines(ls, QuietCalls(i, action, m), kernel, args, initrd);
    assert kernel + args == KernelText(i, trace, action, m, slug) by { KernelLineIs(i, trace, action, m, slug); }
    InitrdLineIs(m);
    ThreeMore(ls, HeadLines(i, action, m), kernel + args, initrd, "boot");
  }

  lemma ThreeMore(ls: seq<string>, head: seq<string>, a: string, b: string, c: string)
    ensures ls + head + [a, b, c] == ls + (head + [a, b, c])
  {
  }
}
