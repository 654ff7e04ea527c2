/** The OSIE boot scripts (installers/osie/main.go). */
module Osie {

  import opened Bytes
  import opened IpxeScript

  datatype Installer = Installer(
    osieUrl: string, defaultParams: string, workflowParams: string, hollowParams: string,
    urlOverride: string, extraVars: seq<(string, string)>)

  /** What the scripts ask of a job. */
  datatype Machine = Machine(
    arch: string, primaryNic: string, state: string, rescue: bool, canWorkflow: bool,
    instanceId: string, hardwareId: string, vlan: string, facility: string, plan: string,
    manufacturer: string, osSlug: string, imageTag: string, passwordHash: string, isArm: bool,
    kernelPath: string, initrdPath: string, osieVersion: string, osieBaseUrl: string)

  datatype Action = Install | Rescue | Discover

  function KernelPath(m: Machine): string {
    if m.kernelPath != "" then m.kernelPath else "vmlinuz-${arch}"
  }

  function InitrdPath(m: Machine): string {
    if m.initrdPath != "" then m.initrdPath else "initramfs-${arch}"
  }

  function BaseUrl(i: Installer, m: Machine): string {
    if i.urlOverride != "" then i.urlOverride
    else if m.osieBaseUrl != "" then m.osieBaseUrl
    else if m.osieVersion != "" then i.osieUrl + "/" + m.osieVersion
    else i.osieUrl + "/current"
  }

  function TrimImage(slug: string): string {
    var suffix := "_image";
    if |slug| >= 6 && slug[|slug| - 6..] == suffix then slug[..|slug| - 6] else slug
  }

  // ---- the kernel's arguments ---------------------------------------------

  function When(c: bool, args: seq<string>): seq<string> { if c then args else [] }

  function WorkflowArgs(i: Installer, m: Machine): seq<string> {
    [i.workflowParams, "instance_id=" + m.instanceId, "worker_id=" + m.hardwareId]
  }

  function IommuArg(m: Machine): string {
    if m.plan == "c2.large.arm" || m.plan == "c2.large.anbox" || m.plan == "c3.large.arm"
    then "iommu.passthrough=1" else "intel_iommu=on iommu=pt"
  }

  function SlugArg(m: Machine): string {
    if |m.imageTag| > 0 then "slug=" + TrimImage(m.osSlug) + ":" + m.imageTag
    else "slug=" + TrimImage(m.osSlug)
  }

  function MachineArgs(i: Installer, trace: Option<string>, m: Machine): seq<string> {
    SecretArgs(i, trace, m)
    + When(m.osieVersion != "", ["packet_base_url=${base-url}"])
    + When(m.vlan != "", ["vlan_id=" + m.vlan])
    + When(m.canWorkflow, WorkflowArgs(i, m))
    + ["packet_bootdev_mac=${bootdevmac}"] + ["facility=" + m.facility] + [IommuArg(m)]
  }

  function TraceArg(trace: Option<string>): string {
    match trace
    case Some(parent) => "traceparent=00-" + parent
    case None => ""
  }

  function SecretArgs(i: Installer, trace: Option<string>, m: Machine): seq<string> {
    [i.defaultParams]
    + When(trace.Some?, [TraceArg(trace)])
    + When(m.state == "deprovisioning" && i.hollowParams != "", [i.hollowParams])
  }

  function InstallArgs(m: Machine): seq<string> {
    ["plan=" + m.plan, "manufacturer=" + m.manufacturer, SlugArg(m)]
    + When(m.passwordHash != "", ["pwhash=" + m.passwordHash])
  }

  function ConsoleArgs(m: Machine): seq<string> {
    ["initrd=" + InitrdPath(m)]
    + (if m.isArm then ["console=ttyAMA0,115200"] else ["console=tty0", "console=ttyS1,115200"])
  }

  function KernelArgs(i: Installer, trace: Option<string>, action: Action, m: Machine): seq<string> {
    MachineArgs(i, trace, m) + When(action.Install?, InstallArgs(m)) + ConsoleArgs(m)
  }

  /** The line open in `base` now also carries `args`. */
  ghost predicate Carries(s: Script, base: string, args: seq<string>)
    reads s
  {
    WellFormed(base) && s.Valid() && s.buf == After(base, Continue(Spaced(args)))
  }

  lemma ContinueTwice(base: string, args: seq<string>, arg: string)
    requires WellFormed(base)
    ensures After(After(base, Continue(Spaced(args))), Continue(Spaced([arg])))
         == After(base, Continue(Spaced(args + [arg])))
  {
    SpacedConcat(args, [arg]);
    var open := base[..|base| - 1];
    var once := open + Spaced(args) + [NL];
    assert once[..|once| - 1] == open + Spaced(args);
    assert open + Spaced(args) + Spaced([arg]) == open + (Spaced(args) + Spaced([arg]));
  }

  lemma CarriesNothing(s: Script)
    requires s.Valid()
    ensures Carries(s, s.buf, [])
  {
    var b := s.buf;
    assert b[..|b| - 1] + "" + [NL] == b;
  }

  method Arg(s: Script, arg: string, ghost base: string, ghost args: seq<string>) returns (ghost more: seq<string>)
    requires Carries(s, base, args)
    modifies s
    ensures more == args + [arg] && Carries(s, base, more)
  {
    ContinueTwice(base, args, arg);
    s.Args([arg]);
    more := args + [arg];
  }

  method ArgWhen(s: Script, c: bool, arg: string, ghost base: string, ghost args: seq<string>)
    returns (ghost more: seq<string>)
    requires Carries(s, base, args)
    modifies s
    ensures more == args + When(c, [arg]) && Carries(s, base, more)
  {
    more := args + [];
    assert more == args;
    if c { more := Arg(s, arg, base, args); }
  }

  method WorkflowParams(i: Installer, m: Machine, s: Script, ghost base: string, ghost before: seq<string>)
    returns (ghost args: seq<string>)
    requires Carries(s, base, before)
    modifies s
    ensures args == before + When(m.canWorkflow, WorkflowArgs(i, m)) && Carries(s, base, args)
  {
    args := before;
    if m.canWorkflow {
      args := Arg(s, i.workflowParams, base, args);
      args := Arg(s, "instance_id=" + m.instanceId, base, args);
      args := Arg(s, "worker_id=" + m.hardwareId, base, args);
    }
  }

  method SecretParams(i: Installer, trace: Option<string>, m: Machine, s: Script)
    returns (ghost args: seq<string>)
    requires s.Valid()
    modifies s
    ensures args == SecretArgs(i, trace, m) && Carries(s, old(s.buf), args)
  {
    ghost var base := s.buf;
    CarriesNothing(s);
    args := Arg(s, i.defaultParams, base, []);
    assert args == [i.defaultParams];
    args := ArgWhen(s, trace.Some?, TraceArg(trace), base, args);
    // hardware-report secrets are for deprovisioning alone
    args := ArgWhen(s, m.state == "deprovisioning" && i.hollowParams != "", i.hollowParams, base, args);
  }

  method MachineParams(i: Installer, trace: Option<string>, m: Machine, s: Script) returns (ghost args: seq<string>)
    requires s.Valid()
    modifies s
    ensures args == MachineArgs(i, trace, m) && Carries(s, old(s.buf), args)
  {
    ghost var base := s.buf;
    args := SecretParams(i, trace, m, s);
    args := ArgWhen(s, m.osieVersion != "", "packet_base_url=${base-url}", base, args);
    args := ArgWhen(s, m.vlan != "", "vlan_id=" + m.vlan, base, args);
    args := WorkflowParams(i, m, s, base, args);
    args := Arg(s, "packet_bootdev_mac=${bootdevmac}", base, args);
    args := Arg(s, "facility=" + m.facility, base, args);
    args := Arg(s, IommuArg(m), base, args);
  }

  method InstallParams(m: Machine, s: Script, ghost base: string, ghost before: seq<string>)
    returns (ghost args: seq<string>)
    requires Carries(s, base, before)
    modifies s
    ensures args == before + InstallArgs(m) && Carries(s, base, args)
  {
    args := Arg(s, "plan=" + m.plan, base, before);
    args := Arg(s, "manufacturer=" + m.manufacturer, base, args);
    args := Arg(s, SlugArg(m), base, args);
    FourMore(before, "plan=" + m.plan, "manufacturer=" + m.manufacturer, SlugArg(m), When(m.passwordHash != "", ["pwhash=" + m.passwordHash]));
    args := ArgWhen(s, m.passwordHash != "", "pwhash=" + m.passwordHash, base, args);
  }

  lemma FourMore(before: seq<string>, x: string, y: string, z: string, w: seq<string>)
    ensures before + [x] + [y] + [z] + w == before + ([x, y, z] + w)
  {
  }

  method ConsoleParams(m: Machine, s: Script, ghost base: string, ghost before: seq<string>)
    returns (ghost args: seq<string>)
    requires Carries(s, base, before)
    modifies s
    ensures args == before + ConsoleArgs(m) && Carries(s, base, args)
  {
    args := Arg(s, "initrd=" + InitrdPath(m), base, before);
    if m.isArm {
      args := Arg(s, "console=ttyAMA0,115200", base, args);
    } else {
      args := Arg(s, "console=tty0", base, args);
      args := Arg(s, "console=ttyS1,115200", base, args);
    }
  }

  method KernelParams(i: Installer, trace: Option<string>, action: Action, m: Machine, s: Script)
    requires s.Valid()
    modifies s
    ensures Carries(s, old(s.buf), KernelArgs(i, trace, action, m))
  {
    ghost var base := s.buf;
    ghost var args := MachineParams(i, trace, m, s);
    ghost var common := args;
    if action.Install? { args := InstallParams(m, s, base, args); }
    assert args == common + When(action.Install?, InstallArgs(m));
    args := ConsoleParams(m, s, base, args);
  }

  // ---- the calls of each script -------------------------------------------

  function ExtraCalls(vars: seq<(string, string)>): seq<Call> {
    if vars == [] then []
    else
      var kv := vars[|vars| - 1];
      ExtraCalls(vars[..|vars| - 1]) + [Append(SetLine(kv.0, kv.1))]
  }

  function PhoneHomeType(m: Machine): string {
    if m.state == "deprovisioning" then "deprovisioning.304.1" else "provisioning.104.01"
  }

  function ActionName(action: Action, m: Machine): string {
    match action
    case Install => if m.canWorkflow then "workflow" else "install"
    case Rescue => "rescue"
    case Discover => "discover"
  }

  function AnnounceCalls(action: Action, m: Machine): seq<Call> {
    if action.Install? then [Call.PhoneHome(PhoneHomeType(m))] else []
  }

  function HeadCalls(i: Installer, action: Action, m: Machine): seq<Call> {
    ExtraCalls(i.extraVars) + AnnounceCalls(action, m)
    + [Append(SetLine("action", ActionName(action, m)))] + [Append(SetLine("state", m.state))]
  }

  function QuietCalls(i: Installer, action: Action, m: Machine): seq<Call> {
    HeadCalls(i, action, m)
    + [Append(SetLine("arch", m.arch))] + [Append(SetLine("bootdevmac", m.primaryNic))]
    + [Append(SetLine("base-url", BaseUrl(i, m)))]
  }

  function AtBase(path: string): string { "${base-url}/" + path }

  function KernelStart(m: Machine): string { "kernel " + AtBase(KernelPath(m)) + Spaced([]) }

  function InitrdLine(m: Machine): string { "initrd " + AtBase(InitrdPath(m)) + Spaced([]) }

  function ScriptCalls(i: Installer, trace: Option<string>, action: Action, m: Machine): seq<Call> {
    Loading(QuietCalls(i, action, m), KernelStart(m), Spaced(KernelArgs(i, trace, action, m)), InitrdLine(m))
  }

  function Loading(before: seq<Call>, kernel: string, args: string, initrd: string): seq<Call> {
    before + [Append(kernel)] + [Continue(args)] + [Append(initrd)] + [Append("boot")]
  }

  /** The buffer is what `calls` make of `base`. */
  ghost predicate Ran(s: Script, base: string, calls: seq<Call>)
    reads s
  {
    WellFormed(base) && s.buf == AfterAll(base, calls)
  }

  lemma OneMoreCall(base: string, calls: seq<Call>, c: Call)
    requires WellFormed(base)
    ensures AfterAll(base, calls + [c]) == After(AfterAll(base, calls), c)
  {
    assert (calls + [c])[..|calls|] == calls;
  }

  method SetVar(s: Script, name: string, value: string, ghost base: string, ghost calls: seq<Call>)
    returns (ghost more: seq<Call>)
    requires Ran(s, base, calls)
    modifies s
    ensures more == calls + [Append(SetLine(name, value))] && Ran(s, base, more)
  {
    s.Set(name, value);
    more := calls + [Append(SetLine(name, value))];
    OneMoreCall(base, calls, Append(SetLine(name, value)));
  }

  method ExtraVars(i: Installer, s: Script) returns (ghost calls: seq<Call>)
    requires s.Valid()
    modifies s
    ensures calls == ExtraCalls(i.extraVars) && Ran(s, old(s.buf), calls)
  {
    ghost var base := s.buf;
    calls := [];
    for k := 0 to |i.extraVars|
      invariant calls == ExtraCalls(i.extraVars[..k]) && Ran(s, base, calls)
    {
      calls := SetVar(s, i.extraVars[k].0, i.extraVars[k].1, base, calls);
      assert i.extraVars[..k + 1][..k] == i.extraVars[..k];
    }
    assert i.extraVars[..|i.extraVars|] == i.extraVars;
  }

  method SetBootScript(i: Installer, trace: Option<string>, action: Action, m: Machine, s: Script,
    ghost base: string)
    requires Ran(s, base, HeadCalls(i, action, m))
    modifies s
    ensures Ran(s, base, ScriptCalls(i, trace, action, m))
  {
    ghost var calls := SetVar(s, "arch", m.arch, base, HeadCalls(i, action, m));
    calls := SetVar(s, "bootdevmac", m.primaryNic, base, calls);
    calls := SetVar(s, "base-url", BaseUrl(i, m), base, calls);
    LoadAndBoot(i, trace, action, m, s, base, calls);
  }

  lemma LoadingRuns(base: string, before: seq<Call>, kernel: string, args: string, initrd: string)
    requires WellFormed(base)
    ensures var b0 := AfterAll(base, before);
      var b1 := After(b0, Append(kernel));
      var b2 := After(b1, Continue(args));
      AfterAll(base, Loading(before, kernel, args, initrd)) == After(After(b2, Append(initrd)), Append("boot"))
  {
    var calls := before + [Append(kernel)];
    OneMoreCall(base, before, Append(kernel));
    OneMoreCall(base, calls, Continue(args));
    OneMoreCall(base, calls + [Continue(args)], Append(initrd));
    OneMoreCall(base, calls + [Continue(args)] + [Append(initrd)], Append("boot"));
  }

  method LoadAndBoot(i: Installer, trace: Option<string>, action: Action, m: Machine, s: Script,
    ghost base: string, ghost before: seq<Call>)
    requires Ran(s, base, before)
    modifies s
    ensures Ran(s, base,
      Loading(before, KernelStart(m), Spaced(KernelArgs(i, trace, action, m)), InitrdLine(m)))
  {
    LoadingRuns(base, before, KernelStart(m), Spaced(KernelArgs(i, trace, action, m)), InitrdLine(m));
    s.Kernel(AtBase(KernelPath(m)), []);
    KernelParams(i, trace, action, m, s);
    s.Initrd(AtBase(InitrdPath(m)), []);
    s.Boot();
  }

  function InstallAction(m: Machine): Action { if m.rescue then Action.Rescue else Action.Install }

  /** Both announce the action and the state before they set up the boot. */
  method SetAction(i: Installer, action: Action, m: Machine, s: Script, ghost base: string, ghost before: seq<Call>)
    requires Ran(s, base, before) && before == ExtraCalls(i.extraVars) + AnnounceCalls(action, m)
    modifies s
    ensures Ran(s, base, HeadCalls(i, action, m))
  {
    ghost var calls := SetVar(s, "action", ActionName(action, m), base, before);
    calls := SetVar(s, "state", m.state, base, calls);
  }

  method Install(i: Installer, trace: Option<string>, m: Machine, s: Script)
    requires s.Valid()
    modifies s
    ensures Ran(s, old(s.buf), ScriptCalls(i, trace, InstallAction(m), m))
  {
    ghost var base := s.buf;
    ghost var calls := ExtraVars(i, s);
    if m.rescue {
      Rescue(i, trace, m, s, base);
    } else {
      s.PhoneHome(PhoneHomeType(m));
      OneMoreCall(base, calls, Call.PhoneHome(PhoneHomeType(m)));
      calls := calls + [Call.PhoneHome(PhoneHomeType(m))];
      SetAction(i, Action.Install, m, s, base, calls);
      SetBootScript(i, trace, Action.Install, m, s, base);
    }
  }

  method Rescue(i: Installer, trace: Option<string>, m: Machine, s: Script, ghost base: string)
    requires Ran(s, base, ExtraCalls(i.extraVars))
    modifies s
    ensures Ran(s, base, ScriptCalls(i, trace, Action.Rescue, m))
  {
    assert ExtraCalls(i.extraVars) + [] == ExtraCalls(i.extraVars);
    SetAction(i, Action.Rescue, m, s, base, ExtraCalls(i.extraVars));
    SetBootScript(i, trace, Action.Rescue, m, s, base);
  }

  method Discover(i: Installer, trace: Option<string>, m: Machine, s: Script)
    requires s.Valid()
    modifies s
    ensures Ran(s, old(s.buf), ScriptCalls(i, trace, Action.Discover, m))
  {
    ghost var base := s.buf;
    ghost var calls := ExtraVars(i, s);
    assert calls + [] == calls;
    SetAction(i, Action.Discover, m, s, base, calls);
    SetBootScript(i, trace, Action.Discover, m, s, base);
  }

  /** The slugs the installer registers; any other makes the program panic. */
  method BootScript(slug: string, i: Installer, trace: Option<string>, m: Machine, s: Script) returns (ok: bool)
    requires s.Valid()
    modifies s
    ensures ok <==> slug == "install" || slug == "rescue" || slug == "default" || slug == "discover"
    ensures ok ==> Ran(s, old(s.buf),
      ScriptCalls(i, trace, if slug == "discover" then Action.Discover else if m.rescue then Action.Rescue else Action.Install, m))
    ensures !ok ==> s.buf == old(s.buf)
  {
    ok := true;
    if slug == "install" || slug == "rescue" || slug == "default" {
      Install(i, trace, m, s);
    } else if slug == "discover" {
      Discover(i, trace, m, s);
    } else {
      ok := false;
    }
  }

  // ---- what iPXE is told to do --------------------------------------------

  /** Starts like none of kernel, initrd and boot. */
  predicate Quiet(line: string) {
    |line| > 0 ==> line[0] != 'k' && line[0] != 'b' && (line[0] == 'i' ==> |line| > 1 && line[1] == 'm')
  }

  predicate AllQuiet(ls: seq<string>) {
    forall k :: 0 <= k < |ls| ==> Quiet(ls[k])
  }

  predicate QuietCall(c: Call) {
    match c
    case Append(line) => Quiet(line)
    case Continue(_) => false
    case PhoneHome(_) => true
    case Restart => false
  }

  lemma QuietIsOther(line: string)
    requires Quiet(line)
    ensures !("kernel " <= line) && !("initrd " <= line) && line != "boot"
  {
    assert "kernel "[0] == 'k' && "initrd "[0] == 'i' && "initrd "[1] == 'n' && "boot"[0] == 'b';
  }

  lemma PhoneHomeQuiet(typ: string)
    ensures AllQuiet(PhoneHomeLines(typ))
  {
    var ls := PhoneHomeLines(typ);
    assert BODY[0] == 'p' && FETCH[0] == 'i' && FETCH[1] == 'm';
    assert ls[3][0] == 'p';
  }

  lemma SetQuiet(name: string, value: string)
    ensures Quiet(SetLine(name, value))
  {
    assert SetLine(name, value)[0] == 's';
  }

  lemma {:induction false} QuietRun(ls: seq<string>, calls: seq<Call>)
    requires AllQuiet(ls) && forall c :: c in calls ==> QuietCall(c)
    ensures AllQuiet(EditAll(ls, calls)) && |EditAll(ls, calls)| >= |ls|
    decreases |calls|
  {
    if calls != [] {
      var c := calls[|calls| - 1];
      QuietRun(ls, calls[..|calls| - 1]);
      assert QuietCall(c);
      if c.PhoneHome? { PhoneHomeQuiet(c.typ); }
    }
  }

  lemma {:induction false} ExtraQuiet(vars: seq<(string, string)>)
    ensures forall c :: c in ExtraCalls(vars) ==> QuietCall(c)
    decreases |vars|
  {
    if vars != [] {
      var kv := vars[|vars| - 1];
      ExtraQuiet(vars[..|vars| - 1]);
      SetQuiet(kv.0, kv.1);
    }
  }

  lemma QuietCallsQuiet(i: Installer, action: Action, m: Machine)
    ensures forall c :: c in QuietCalls(i, action, m) ==> QuietCall(c)
  {
    ExtraQuiet(i.extraVars);
    SetQuiet("action", ActionName(action, m));
    SetQuiet("state", m.state);
    SetQuiet("arch", m.arch);
    SetQuiet("bootdevmac", m.primaryNic);
    SetQuiet("base-url", BaseUrl(i, m));
  }

  lemma EditMore(ls: seq<string>, calls: seq<Call>, c: Call)
    ensures EditAll(ls, calls + [c]) == Edit(EditAll(ls, calls), c)
  {
    assert (calls + [c])[..|calls|] == calls;
  }

  function KernelLine(i: Installer, trace: Option<string>, action: Action, m: Machine): string {
    KernelStart(m) + Spaced(KernelArgs(i, trace, action, m))
  }

  lemma LoadingLines(ls: seq<string>, before: seq<Call>, kernel: string, args: string, initrd: string)
    ensures EditAll(ls, Loading(before, kernel, args, initrd))
         == EditAll(ls, before) + [kernel + args, initrd, "boot"]
  {
    var quiet := EditAll(ls, before);
    var calls := before + [Append(kernel)];
    EditMore(ls, before, Append(kernel));
    EditMore(ls, calls, Continue(args));
    assert Extend(quiet + [kernel], args) == quiet + [kernel + args];
    EditMore(ls, calls + [Continue(args)], Append(initrd));
    EditMore(ls, calls + [Continue(args)] + [Append(initrd)], Append("boot"));
    assert quiet + [kernel + args] + [initrd] + ["boot"] == quiet + [kernel + args, initrd, "boot"];
  }

  /** One kernel line with every argument, then one initrd line, then the only boot. */
  ghost predicate BootsOnce(ls: seq<string>, kernel: string, initrd: string) {
    var n := |ls|;
    && n >= 3 && ls[n - 3] == kernel && ls[n - 2] == initrd && ls[n - 1] == "boot"
    && "kernel " <= kernel && "initrd " <= initrd
    && forall k :: 0 <= k < n ==> OnlyAt(ls[k], k, n)
  }

  predicate OnlyAt(line: string, k: int, n: int) {
    && ("kernel " <= line <==> k == n - 3)
    && ("initrd " <= line <==> k == n - 2)
    && (line == "boot" <==> k == n - 1)
  }

  lemma BootsOnceIntro(quiet: seq<string>, kernel: string, initrd: string)
    requires AllQuiet(quiet) && "kernel " <= kernel && "initrd " <= initrd
    ensures BootsOnce(quiet + [kernel, initrd, "boot"], kernel, initrd)
  {
    var ls := quiet + [kernel, initrd, "boot"];
    var n := |ls|;
    assert kernel[0] == "kernel "[0] && initrd[0] == "initrd "[0];
    forall k | 0 <= k < n ensures OnlyAt(ls[k], k, n) {
      if k < n - 3 {
        assert ls[k] == quiet[k];
        QuietIsOther(ls[k]);
      }
    }
  }

  lemma InitrdNamedTwice(i: Installer, trace: Option<string>, action: Action, m: Machine)
    ensures "initrd=" + InitrdPath(m) in KernelArgs(i, trace, action, m)
  {
    var args := ConsoleArgs(m);
    assert args[0] == "initrd=" + InitrdPath(m);
    assert args[0] in args;
  }

  lemma Commands(i: Installer, trace: Option<string>, action: Action, m: Machine)
    ensures "kernel " <= KernelLine(i, trace, action, m) && "initrd " <= InitrdLine(m)
  {
  }

  /** On any quiet script, whatever the job, installer and action. */
  lemma ScriptBootsOnce(ls: seq<string>, i: Installer, trace: Option<string>, action: Action, m: Machine)
    requires AllQuiet(ls)
    ensures BootsOnce(EditAll(ls, ScriptCalls(i, trace, action, m)), KernelLine(i, trace, action, m), InitrdLine(m))
    ensures "initrd=" + InitrdPath(m) in KernelArgs(i, trace, action, m)
  {
    var quiet := EditAll(ls, QuietCalls(i, action, m));
    QuietCallsQuiet(i, action, m);
    QuietRun(ls, QuietCalls(i, action, m));
    LoadingLines(ls, QuietCalls(i, action, m), KernelStart(m), Spaced(KernelArgs(i, trace, action, m)), InitrdLine(m));
    assert "kernel " <= KernelLine(i, trace, action, m) && "initrd " <= InitrdLine(m) by { Commands(i, trace, action, m); }
    BootsOnceIntro(quiet, KernelLine(i, trace, action, m), InitrdLine(m));
    InitrdNamedTwice(i, trace, action, m);
  }

  // ---- newline-free jobs --------------------------------------------------

  predicate CleanInstaller(i: Installer) {
    && OneLine(i.osieUrl) && OneLine(i.defaultParams) && OneLine(i.workflowParams)
    && OneLine(i.hollowParams) && OneLine(i.urlOverride)
    && forall k :: 0 <= k < |i.extraVars| ==> OneLine(i.extraVars[k].0) && OneLine(i.extraVars[k].1)
  }

  predicate CleanMachine(m: Machine) {
    && OneLine(m.arch) && OneLine(m.primaryNic) && OneLine(m.state)
    && OneLine(m.instanceId) && OneLine(m.hardwareId) && OneLine(m.vlan)
    && OneLine(m.facility) && OneLine(m.plan) && OneLine(m.manufacturer)
    && OneLine(m.osSlug) && OneLine(m.imageTag) && OneLine(m.passwordHash)
    && OneLine(m.kernelPath) && OneLine(m.initrdPath)
    && OneLine(m.osieVersion) && OneLine(m.osieBaseUrl)
  }

  predicate Clean(i: Installer, trace: Option<string>, m: Machine) {
    CleanInstaller(i) && CleanMachine(m) && (trace.Some? ==> OneLine(trace.value))
  }

  lemma SecretsOneLine(i: Installer, trace: Option<string>, m: Machine)
    requires Clean(i, trace, m)
    ensures AllOneLine(SecretArgs(i, trace, m))
  {
    if trace.Some? { assert OneLine("traceparent=00-") && OneLine(TraceArg(trace)); }
  }

  lemma MachineOneLine(i: Installer, trace: Option<string>, m: Machine)
    requires Clean(i, trace, m)
    ensures AllOneLine(MachineArgs(i, trace, m))
  {
    SecretsOneLine(i, trace, m);
    FixedOneLine(m);
    FieldsOneLine(m);
    WorkflowOneLine(i, m);
    SevenOneLine(SecretArgs(i, trace, m), When(m.osieVersion != "", ["packet_base_url=${base-url}"]),
                 When(m.vlan != "", ["vlan_id=" + m.vlan]), When(m.canWorkflow, WorkflowArgs(i, m)),
                 ["packet_bootdev_mac=${bootdevmac}"], ["facility=" + m.facility], [IommuArg(m)]);
  }

  lemma SevenOneLine(a: seq<string>, b: seq<string>, c: seq<string>, d: seq<string>,
                     e: seq<string>, f: seq<string>, g: seq<string>)
    requires AllOneLine(a) && AllOneLine(b) && AllOneLine(c) && AllOneLine(d)
    requires AllOneLine(e) && AllOneLine(f) && AllOneLine(g)
    ensures AllOneLine(a + b + c + d + e + f + g)
  {
    JoinOneLine(a, b);
    JoinOneLine(a + b, c);
    JoinOneLine(a + b + c, d);
    JoinOneLine(a + b + c + d, e);
    JoinOneLine(a + b + c + d + e, f);
    JoinOneLine(a + b + c + d + e + f, g);
  }

  lemma FieldsOneLine(m: Machine)
    requires CleanMachine(m)
    ensures OneLine("vlan_id=" + m.vlan) && OneLine("facility=" + m.facility)
  {
    assert OneLine("vlan_id=") && OneLine("facility=");
  }

  lemma FixedOneLine(m: Machine)
    ensures OneLine("packet_base_url=${base-url}") && OneLine("packet_bootdev_mac=${bootdevmac}")
    ensures OneLine(IommuArg(m))
  {
    assert OneLine("iommu.passthrough=1") && OneLine("intel_iommu=on iommu=pt");
  }

  lemma WorkflowOneLine(i: Installer, m: Machine)
    requires CleanInstaller(i) && CleanMachine(m)
    ensures AllOneLine(WorkflowArgs(i, m))
  {
    assert OneLine("instance_id=") && OneLine("instance_id=" + m.instanceId);
    assert OneLine("worker_id=") && OneLine("worker_id=" + m.hardwareId);
  }

  lemma InstallOneLine(m: Machine)
    requires CleanMachine(m)
    ensures AllOneLine(InstallArgs(m))
  {
    assert OneLine("plan=") && OneLine("plan=" + m.plan);
    assert OneLine("manufacturer=") && OneLine("manufacturer=" + m.manufacturer);
    assert OneLine("pwhash=") && OneLine("pwhash=" + m.passwordHash);
    assert OneLine(TrimImage(m.osSlug));
    assert OneLine("slug=") && OneLine(":") && OneLine(SlugArg(m));
  }

  lemma ConsoleOneLine(m: Machine)
    requires CleanMachine(m)
    ensures AllOneLine(ConsoleArgs(m))
  {
    assert OneLine("initramfs-${arch}") && OneLine(InitrdPath(m));
    assert OneLine("initrd=") && OneLine("initrd=" + InitrdPath(m));
    assert OneLine("console=ttyAMA0,115200") && OneLine("console=tty0") && OneLine("console=ttyS1,115200");
  }

  lemma KernelArgsOneLine(i: Installer, trace: Option<string>, action: Action, m: Machine)
    requires Clean(i, trace, m)
    ensures OneLine(Spaced(KernelArgs(i, trace, action, m)))
  {
    MachineOneLine(i, trace, m);
    InstallOneLine(m);
    ConsoleOneLine(m);
    JoinOneLine(MachineArgs(i, trace, m), When(action.Install?, InstallArgs(m)));
    JoinOneLine(MachineArgs(i, trace, m) + When(action.Install?, InstallArgs(m)), ConsoleArgs(m));
    SpacedOneLine(KernelArgs(i, trace, action, m));
  }

  lemma SetOneLine(name: string, value: string)
    requires OneLine(name) && OneLine(value)
    ensures OneLine(SetLine(name, value))
  {
    assert OneLine("set ") && OneLine(" ");
  }

  lemma {:induction false} ExtraOneLine(vars: seq<(string, string)>)
    requires forall k :: 0 <= k < |vars| ==> OneLine(vars[k].0) && OneLine(vars[k].1)
    ensures forall c :: c in ExtraCalls(vars) ==> OneLineCall(c)
    decreases |vars|
  {
    if vars != [] {
      var kv := vars[|vars| - 1];
      ExtraOneLine(vars[..|vars| - 1]);
      SetOneLine(kv.0, kv.1);
    }
  }

  lemma UrlOneLine(i: Installer, m: Machine)
    requires CleanInstaller(i) && CleanMachine(m)
    ensures OneLine(BaseUrl(i, m))
  {
    assert OneLine("/") && OneLine("/current");
  }

  lemma NamesOneLine(action: Action, m: Machine)
    ensures OneLine(PhoneHomeType(m)) && OneLine(SetLine("action", ActionName(action, m)))
  {
    assert OneLine("provisioning.104.01") && OneLine("deprovisioning.304.1");
    assert OneLine("workflow") && OneLine("install") && OneLine("rescue") && OneLine("discover");
    assert OneLine("action");
    SetOneLine("action", ActionName(action, m));
  }

  lemma QuietOneLine(i: Installer, action: Action, m: Machine)
    requires CleanInstaller(i) && CleanMachine(m)
    ensures forall c :: c in QuietCalls(i, action, m) ==> OneLineCall(c)
  {
    ExtraOneLine(i.extraVars);
    UrlOneLine(i, m);
    NamesOneLine(action, m);
    assert OneLine("state") && OneLine("arch") && OneLine("bootdevmac") && OneLine("base-url");
    SetOneLine("state", m.state);
    SetOneLine("arch", m.arch);
    SetOneLine("bootdevmac", m.primaryNic);
    SetOneLine("base-url", BaseUrl(i, m));
  }

  lemma LoadedOneLine(m: Machine)
    requires CleanMachine(m)
    ensures OneLine(KernelStart(m)) && OneLine(InitrdLine(m)) && OneLine("boot")
  {
    assert OneLine("${base-url}/") && OneLine("vmlinuz-${arch}") && OneLine("initramfs-${arch}");
    assert OneLine(KernelPath(m)) && OneLine(InitrdPath(m));
    assert OneLine("kernel ") && OneLine("initrd ") && OneLine(AtBase(KernelPath(m))) && OneLine(AtBase(InitrdPath(m)));
  }

  lemma ScriptOneLine(i: Installer, trace: Option<string>, action: Action, m: Machine)
    requires Clean(i, trace, m)
    ensures forall c :: c in ScriptCalls(i, trace, action, m) ==> OneLineCall(c)
  {
    QuietOneLine(i, action, m);
    KernelArgsOneLine(i, trace, action, m);
    LoadedOneLine(m);
    LoadingOneLine(QuietCalls(i, action, m), KernelStart(m), Spaced(KernelArgs(i, trace, action, m)), InitrdLine(m));
  }

  lemma LoadingOneLine(before: seq<Call>, kernel: string, args: string, initrd: string)
    requires forall c :: c in before ==> OneLineCall(c)
    requires OneLine(kernel) && OneLine(args) && OneLine(initrd) && OneLine("boot")
    ensures forall c :: c in Loading(before, kernel, args, initrd) ==> OneLineCall(c)
  {
  }
}
