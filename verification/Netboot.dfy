/**
 The netboot run: DHCP requests, HTTP requests and phone-homes of one machine against
 its record. Each request takes a copy of the record when its job is made and acts on
 that copy later, so requests overlap.
 */
module Netboot {
  import opened Bytes
  import opened Jobs
  import opened PhoneHome

  /** A request whose job exists but that is not answered yet. */
  datatype Flight =
    | Dhcp(job: Job, client: Client, pxe: bool, answered: bool)
    | Http(job: Job, name: string)
    | Phone(job: Job, body: Body)

  datatype Emission = NoReply | Reply(choice: Choice) | Script(name: string) | NotFound | Proxied

  datatype State = State(record: Record, flights: seq<Flight>, emitted: seq<Emission>)

  /** `fails` is the backend's pattern of failures for the calls of a phone-home. */
  datatype Step =
    | StartDhcp(mac: MAC, client: Client, pxe: bool, answered: bool)
    | StartHttp(ip: Option<Addr>, name: string)
    | StartPhone(ip: Option<Addr>, body: Body)
    | Finish(k: nat, fails: nat -> bool)
    | Outside(record: Record)

  predicate Enabled(s: State, step: Step, engine: string) {
    match step
    case StartDhcp(mac, _, _, _) => FromDHCP(s.record, mac, engine).Some?
    case StartHttp(ip, _) => FromIP(s.record, ip, engine).Created?
    case StartPhone(ip, _) => FromIP(s.record, ip, engine).Created?
    case Finish(k, _) => k < |s.flights|
    case Outside(_) => true
  }

  function Emit(f: Flight): Emission {
    match f
    case Dhcp(j, c, pxe, answered) =>
      if !j.AreWeProvisioner() || !answered then NoReply
      else if !pxe then Reply(NoFile) else Reply(PxeFile(j, c))
    case Http(j, name) => if ServesScript(j, name) then Script(name) else NotFound
    case Phone(_, _) => Proxied
  }

  /** The phone-home's PATCH was sent and accepted. */
  predicate Patches(f: Flight, fails: nat -> bool) {
    && f.Phone?
    && var cs := Calls(f.job, f.body, fails, 0);
       exists k :: 0 <= k < |cs| && cs[k].UpdateInstance? && !fails(k)
  }

  /** {"allow_pxe": false} applied to the instance with this id. */
  function Disabled(r: Record, id: string): Record {
    if r.instance.Some? && r.instance.value.id == id
    then r.(instance := Some(r.instance.value.(allowPXE := false))) else r
  }

  function Apply(s: State, step: Step, engine: string): State
    requires Enabled(s, step, engine)
  {
    match step
    case StartDhcp(mac, c, pxe, answered) =>
      s.(flights := s.flights + [Dhcp(FromDHCP(s.record, mac, engine).value, c, pxe, answered)])
    case StartHttp(ip, name) => s.(flights := s.flights + [Http(FromIP(s.record, ip, engine).job, name)])
    case StartPhone(ip, body) => s.(flights := s.flights + [Phone(FromIP(s.record, ip, engine).job, body)])
    case Finish(k, fails) =>
      var f := s.flights[k];
      State(if Patches(f, fails) then Disabled(s.record, f.job.InstanceID()) else s.record,
            s.flights[..k] + s.flights[k + 1..], s.emitted + [Emit(f)])
    case Outside(r) => s.(record := r)
  }

  ghost predicate IsRun(run: seq<State>, steps: seq<Step>, engine: string) {
    && |run| == |steps| + 1
    && forall k :: 0 <= k < |steps| ==> Goes(run[k], steps[k], run[k + 1], engine)
  }

  ghost predicate Goes(s: State, step: Step, s': State, engine: string) {
    Enabled(s, step, engine) && s' == Apply(s, step, engine)
  }

  // ---- when PXE is off ----------------------------------------------------

  /** No interface allows PXE by itself. */
  ghost predicate HardwareBarred(r: Record) {
    forall i :: 0 <= i < |r.interfaces| ==> !r.interfaces[i].allowPXE
  }

  /** Neither the hardware nor the instance allows PXE. */
  ghost predicate Barred(r: Record) {
    && HardwareBarred(r)
    && (r.instance.Some? && r.instance.value.id != "" ==> !r.instance.value.allowPXE)
  }

  predicate IsOffer(e: Emission) {
    || (e.Reply? && e.choice.File? && e.choice.name == "auto.ipxe")
    || e.Script?
  }

  lemma BarredJobsDisallow(j: Job)
    requires Barred(j.record)
    ensures !j.AllowPXE()
  {
    ByMacFinds(j.record.interfaces, j.mac);
  }

  /** A request whose job passes every guard between it and a boot script: the job was
      allowed PXE when it was made, and the client asks for a script. */
  ghost predicate Allowed(f: Flight) {
    match f
    case Dhcp(j, c, pxe, answered) =>
      && (j.record.provisioner == "" || j.record.provisioner == j.engine) && answered && pxe && c.tinkerbellIPXE
      && PxeAllowed(j.record, j.mac) && (InUse(j.record) ==> ActiveInstance(j.record))
    case Http(j, name) => PxeAllowed(j.record, j.mac) && (name == "auto" || name == "shell")
    case Phone(_, _) => false
  }

  lemma OfferIffAllowed(f: Flight)
    ensures IsOffer(Emit(f)) <==> Allowed(f)
  {
    AllowPXEIff(f.job);
    if f.Dhcp? { OffersAutoIff(f.job, f.client); }
  }

  ghost predicate NoneAllowed(fs: seq<Flight>) {
    forall k :: 0 <= k < |fs| ==> !Allowed(fs[k])
  }

  ghost predicate Quiet(s: State) {
    Barred(s.record) && NoneAllowed(s.flights)
  }

  lemma OthersAllowed(fs: seq<Flight>, k: nat)
    requires k < |fs| && !Allowed(fs[k])
    ensures NoneAllowed(fs[..k] + fs[k + 1..]) <==> NoneAllowed(fs)
  {
    var gs := fs[..k] + fs[k + 1..];
    if NoneAllowed(gs) {
      forall i | 0 <= i < |fs| ensures !Allowed(fs[i]) {
        if i != k { assert gs[if i < k then i else i - 1] == fs[i]; }
      }
    }
    if NoneAllowed(fs) {
      forall i | 0 <= i < |gs| ensures !Allowed(gs[i]) {
        assert gs[i] == fs[if i < k then i else i + 1];
      }
    }
  }

  lemma BarredFlightIsQuiet(f: Flight)
    requires Barred(f.job.record)
    ensures !Allowed(f)
  {
    BarredJobsDisallow(f.job);
    AllowPXEIff(f.job);
  }

  /** The outside may do anything but allow PXE again. */
  ghost predicate NoReenable(steps: seq<Step>) {
    forall k :: 0 <= k < |steps| && steps[k].Outside? ==> Barred(steps[k].record)
  }

  lemma DisabledStaysBarred(r: Record, id: string)
    requires Barred(r)
    ensures Barred(Disabled(r, id))
  {
  }

  lemma QuietKept(s: State, step: Step, engine: string)
    requires Quiet(s) && Enabled(s, step, engine) && (step.Outside? ==> Barred(step.record))
    ensures
      var s' := Apply(s, step, engine);
      && Quiet(s') && |s'.emitted| >= |s.emitted| && s'.emitted[..|s.emitted|] == s.emitted
      && forall k :: |s.emitted| <= k < |s'.emitted| ==> !IsOffer(s'.emitted[k])
  {
    var s' := Apply(s, step, engine);
    if step.StartDhcp? || step.StartHttp? || step.StartPhone? {
      BarredFlightIsQuiet(s'.flights[|s.flights|]);
    } else if step.Finish? {
      DisabledStaysBarred(s.record, s.flights[step.k].job.InstanceID());
      OthersAllowed(s.flights, step.k);
      OfferIffAllowed(s.flights[step.k]);
    }
  }

  /** No reply names auto.ipxe and no request gets a script, however the run goes on. */
  ghost predicate NeverOffers(s: State, engine: string) {
    forall run: seq<State>, steps: seq<Step> |
      IsRun(run, steps, engine) && run[0] == s && NoReenable(steps) ::
      NoNewOffer(s, run[|steps|])
  }

  ghost predicate NoNewOffer(s: State, t: State) {
    forall k :: |s.emitted| <= k < |t.emitted| ==> !IsOffer(t.emitted[k])
  }

  lemma {:induction false} QuietRuns(run: seq<State>, steps: seq<Step>, engine: string, k: nat)
    requires IsRun(run, steps, engine) && k < |run| && Quiet(run[0]) && NoReenable(steps)
    ensures Quiet(run[k]) && |run[k].emitted| >= |run[0].emitted| && NoNewOffer(run[0], run[k])
  {
    if k > 0 {
      QuietRuns(run, steps, engine, k - 1);
      assert Goes(run[k - 1], steps[k - 1], run[k - 1 + 1], engine);
      QuietKept(run[k - 1], steps[k - 1], engine);
      var s, s' := run[k - 1], run[k];
      assert forall i :: 0 <= i < |s.emitted| ==> s'.emitted[i] == s'.emitted[..|s.emitted|][i];
    }
  }

  function Never(): nat -> bool { n => false }

  /** An allowed request in flight can still get its script. */
  lemma FlightCanOffer(s: State, engine: string, k: nat)
    requires k < |s.flights| && Allowed(s.flights[k])
    ensures !NeverOffers(s, engine)
  {
    OfferIffAllowed(s.flights[k]);
    var step := Finish(k, Never());
    var s' := Apply(s, step, engine);
    var run, steps := [s, s'], [step];
    assert Goes(run[0], steps[0], run[1], engine);
    assert IsRun(run, steps, engine) && run[0] == s && NoReenable(steps);
    assert s'.emitted[|s.emitted|] == Emit(s.flights[k]);
    assert !NoNewOffer(s, run[|steps|]);
  }

  /** Once PXE is off, nothing is offered any more, exactly when no request in flight was
      allowed PXE when its job was made and asks for a script. */
  lemma SafeIffNothingInFlight(s: State, engine: string)
    requires Barred(s.record)
    ensures NeverOffers(s, engine) <==> NoneAllowed(s.flights)
  {
    if Quiet(s) {
      forall run: seq<State>, steps: seq<Step> | IsRun(run, steps, engine) && run[0] == s && NoReenable(steps)
        ensures NoNewOffer(s, run[|steps|])
      {
        QuietRuns(run, steps, engine, |steps|);
      }
    } else {
      var k :| 0 <= k < |s.flights| && Allowed(s.flights[k]);
      FlightCanOffer(s, engine, k);
    }
  }

  /** A provisioning.104.01 phone-home that is posted and whose PATCH is accepted turns PXE
      off for its instance, on hardware that does not allow PXE by itself. */
  lemma PhoneHomeBars(s: State, engine: string, k: nat, fails: nat -> bool, p: Poster)
    requires k < |s.flights| && s.flights[k].Phone? && HardwareBarred(s.record)
    requires s.record.instance.Some? && s.record.instance.value.id == s.flights[k].job.InstanceID() != ""
    requires PosterFromJSON(s.flights[k].body) == Some(p) && p.Kind() == PROVISIONED
    requires !fails(0) && !fails(1)
    ensures Barred(Apply(s, Finish(k, fails), engine).record)
  {
    var f := s.flights[k];
    DisablesOnlyAfterPost(f.job, f.body, fails, 0);
    var cs := Calls(f.job, f.body, fails, 0);
    assert |cs| > 1 && cs[1].UpdateInstance?;
    assert Patches(f, fails);
  }

  /** The run safety law: after such a phone-home no later reply and no later request
      offers a script, exactly when no allowed request is in flight. */
  lemma SafeAfterPhoneHome(s: State, engine: string, k: nat, fails: nat -> bool, p: Poster)
    requires k < |s.flights| && s.flights[k].Phone? && HardwareBarred(s.record)
    requires s.record.instance.Some? && s.record.instance.value.id == s.flights[k].job.InstanceID() != ""
    requires PosterFromJSON(s.flights[k].body) == Some(p) && p.Kind() == PROVISIONED
    requires !fails(0) && !fails(1)
    ensures NeverOffers(Apply(s, Finish(k, fails), engine), engine) <==> NoneAllowed(s.flights)
  {
    PhoneHomeBars(s, engine, k, fails, p);
    SafeIffNothingInFlight(Apply(s, Finish(k, fails), engine), engine);
    OthersAllowed(s.flights, k);
  }

  /** Exactly which finished request changes the record: the phone-home that ends the
      provisioning of an instance, if its post and its PATCH are accepted. */
  lemma PatchesIff(f: Flight, fails: nat -> bool)
    ensures Patches(f, fails) <==>
      f.Phone? && HasInstance(f.job.record) && f.body.Fields? && f.body.typ == "provisioning.104.01" && !fails(0) && !fails(1)
  {
    if f.Phone? {
      var cs := Calls(f.job, f.body, fails, 0);
      DisablesOnlyAfterPost(f.job, f.body, fails, 0);
      ReadableIff(f.body);
      assert "failure"[0] == 'f' && "provisioning.104.01"[0] == 'p';
      if PosterFromJSON(f.body).Some? && HasInstance(f.job.record) { ProvisionedIff(f.job, f.body); }
      if |cs| > 1 && cs[1].UpdateInstance? && !fails(1) { assert Patches(f, fails); }
    }
  }

  /** And how: the instance with the job's id, if it is still there, loses its permission;
      everything else in the record stays. */
  lemma FinishRecord(s: State, engine: string, k: nat, fails: nat -> bool)
    requires k < |s.flights|
    ensures
      var r, r', f := s.record, Apply(s, Finish(k, fails), engine).record, s.flights[k];
      && r'.id == r.id && r'.state == r.state && r'.provisioner == r.provisioner && r'.interfaces == r.interfaces
      && (if Patches(f, fails) && r.instance.Some? && r.instance.value.id == f.job.record.instance.value.id
          then r'.instance == Some(Instance(r.instance.value.id, r.instance.value.state, false, r.instance.value.osSlug))
          else r'.instance == r.instance)
  {
    PatchesIff(s.flights[k], fails);
  }

  /** Without the accepted PATCH the record still allows what it allowed. */
  lemma NoPatchNoChange(s: State, engine: string, k: nat, fails: nat -> bool)
    requires k < |s.flights| && (s.flights[k].Phone? ==> fails(0) || fails(1))
    ensures Apply(s, Finish(k, fails), engine).record == s.record
  {
    var f := s.flights[k];
    if f.Phone? { DisablesOnlyAfterPost(f.job, f.body, fails, 0); }
  }

  // ---- when a request can be overtaken ------------------------------------

  ghost predicate NoOutside(steps: seq<Step>) {
    forall k :: 0 <= k < |steps| ==> !steps[k].Outside?
  }

  function Idle(r: Record): State { State(r, [], []) }

  /** In this run PXE is off after `j` steps and a script is offered later all the same. */
  ghost predicate Overtaken(run: seq<State>, steps: seq<Step>, engine: string, j: nat) {
    && IsRun(run, steps, engine) && NoOutside(steps) && j < |run| && Barred(run[j].record)
    && !NoNewOffer(run[j], run[|steps|])
  }

  /** Some client of the record can phone home. */
  ghost predicate Reachable(r: Record, engine: string) {
    exists ip :: FromIP(r, ip, engine).Created?
  }

  function Flown(r: Record, ask: Step, engine: string): Flight
    requires ask.StartDhcp? || ask.StartHttp?
    requires Enabled(Idle(r), ask, engine)
  {
    Apply(Idle(r), ask, engine).flights[0]
  }

  const DONE := Fields(PROVISIONED, "", false, None, None)

  lemma DoneIsProvisioned()
    ensures PosterFromJSON(DONE) == Some(Event(PROVISIONED, ""))
  {
    assert PROVISIONED[0] != "failure"[0];
  }

  /** A request is looked up, the phone-home that switches PXE off comes and is done, and
      then the request gets its script: from every record that allows PXE only by its
      instance, and for every request it allows. */
  lemma Overtake(r: Record, engine: string, ask: Step, ip: Option<Addr>) returns (run: seq<State>, steps: seq<Step>)
    requires HardwareBarred(r) && !Barred(r) && FromIP(r, ip, engine).Created?
    requires ask.StartDhcp? || ask.StartHttp?
    requires Enabled(Idle(r), ask, engine) && Allowed(Flown(r, ask, engine))
    ensures run != [] && run[0] == Idle(r) && Overtaken(run, steps, engine, 3)
    ensures steps == [ask, StartPhone(ip, DONE), Finish(1, Never()), Finish(0, Never())]
  {
    var f, p := Looked(r, engine, ask, ip);
    var s1 := State(r, [f], []);
    var s2 := State(r, [f, p], []);
    var s3 := PhoneDone(r, engine, f, p);
    var s4 := State(s3.record, [], [Proxied, Emit(f)]);
    LastDone(s3, engine, f);
    OfferIffAllowed(f);
    OvertakenIntro(Idle(r), ask, s1, StartPhone(ip, DONE), s2, Finish(1, Never()), s3, Finish(0, Never()), s4, engine);
    run, steps := [Idle(r), s1, s2, s3, s4], [ask, StartPhone(ip, DONE), Finish(1, Never()), Finish(0, Never())];
  }

  /** The request and the phone-home are looked up in the same record. */
  lemma Looked(r: Record, engine: string, ask: Step, ip: Option<Addr>) returns (f: Flight, p: Flight)
    requires (ask.StartDhcp? || ask.StartHttp?) && Enabled(Idle(r), ask, engine) && FromIP(r, ip, engine).Created?
    ensures f == Flown(r, ask, engine) && !f.Phone? && p.Phone? && p.body == DONE && p.job.record == r
    ensures Goes(Idle(r), ask, State(r, [f], []), engine)
    ensures Goes(State(r, [f], []), StartPhone(ip, DONE), State(r, [f, p], []), engine)
  {
    f, p := Flown(r, ask, engine), Phone(FromIP(r, ip, engine).job, DONE);
    assert [] + [f] == [f] && [f] + [p] == [f, p];
  }

  lemma OvertakenIntro(s0: State, a: Step, s1: State, b: Step, s2: State, c: Step, s3: State, d: Step, s4: State, engine: string)
    requires Goes(s0, a, s1, engine) && Goes(s1, b, s2, engine) && Goes(s2, c, s3, engine) && Goes(s3, d, s4, engine)
    requires !a.Outside? && !b.Outside? && !c.Outside? && !d.Outside?
    requires Barred(s3.record) && |s3.emitted| == 1 && |s4.emitted| == 2 && IsOffer(s4.emitted[1])
    ensures Overtaken([s0, s1, s2, s3, s4], [a, b, c, d], engine, 3)
  {
    FourSteps(s0, s1, s2, s3, s4, [a, b, c, d], engine);
    assert !NoNewOffer(s3, s4);
  }

  /** The phone-home is done and PXE is off; the request before it is still in flight. */
  lemma PhoneDone(r: Record, engine: string, f: Flight, p: Flight) returns (s: State)
    requires HardwareBarred(r) && !Barred(r) && p.Phone? && p.body == DONE && p.job.record == r && !f.Phone?
    ensures Goes(State(r, [f, p], []), Finish(1, Never()), s, engine)
    ensures Barred(s.record) && s.flights == [f] && s.emitted == [Proxied]
  {
    var s2 := State(r, [f, p], []);
    s := Apply(s2, Finish(1, Never()), engine);
    DoneIsProvisioned();
    PhoneHomeBars(s2, engine, 1, Never(), Event(PROVISIONED, ""));
  }

  lemma LastDone(s: State, engine: string, f: Flight)
    requires s.flights == [f] && s.emitted == [Proxied] && !f.Phone?
    ensures Goes(s, Finish(0, Never()), State(s.record, [], [Proxied, Emit(f)]), engine)
  {
    assert [f][..0] + [f][1..] == [];
    assert [Proxied] + [Emit(f)] == [Proxied, Emit(f)];
  }

  lemma FourSteps(s0: State, s1: State, s2: State, s3: State, s4: State, steps: seq<Step>, engine: string)
    requires |steps| == 4 && Goes(s0, steps[0], s1, engine) && Goes(s1, steps[1], s2, engine)
    requires Goes(s2, steps[2], s3, engine) && Goes(s3, steps[3], s4, engine)
    ensures IsRun([s0, s1, s2, s3, s4], steps, engine)
  {
  }

  /** What no run without outside changes can change. */
  ghost predicate Stays(r: Record, s: State, engine: string) {
    && s.record.interfaces == r.interfaces
    && (!Reachable(r, engine) ==> s.record == r && forall k :: 0 <= k < |s.flights| ==> !s.flights[k].Phone?)
  }

  lemma StaysKept(r: Record, s: State, step: Step, engine: string)
    requires Stays(r, s, engine) && Enabled(s, step, engine) && !step.Outside?
    ensures Stays(r, Apply(s, step, engine), engine)
  {
    if step.StartPhone? {
      assert FromIP(r, step.ip, engine).Created?;
    } else if step.Finish? {
      var f, s' := s.flights[step.k], Apply(s, step, engine);
      assert s'.record.interfaces == s.record.interfaces;
      assert !f.Phone? ==> s'.record == s.record;
      assert forall k :: 0 <= k < |s'.flights| ==> s'.flights[k] == s.flights[if k < step.k then k else k + 1];
    }
  }

  lemma {:induction false} RunStays(run: seq<State>, steps: seq<Step>, engine: string, r: Record, k: nat)
    requires IsRun(run, steps, engine) && run[0] == Idle(r) && NoOutside(steps) && k < |run|
    ensures Stays(r, run[k], engine)
  {
    if k > 0 {
      RunStays(run, steps, engine, r, k - 1);
      assert Goes(run[k - 1], steps[k - 1], run[k - 1 + 1], engine);
      StaysKept(r, run[k - 1], steps[k - 1], engine);
    }
  }

  lemma OvertakenOnlyIf(run: seq<State>, steps: seq<Step>, engine: string, r: Record, j: nat)
    requires run != [] && run[0] == Idle(r) && Overtaken(run, steps, engine, j)
    ensures HardwareBarred(r) && !Barred(r) && Reachable(r, engine)
  {
    RunStays(run, steps, engine, r, j);
    if Barred(r) {
      QuietRuns(run, steps, engine, |steps|);
      assert false;
    }
  }

  /** From an idle record, PXE can be switched off and a script offered after that, exactly
      when the instance alone allows PXE and some address leads to a job. */
  lemma OvertakenIff(r: Record, engine: string)
    ensures (exists run: seq<State>, steps: seq<Step>, j: nat ::
               run != [] && run[0] == Idle(r) && Overtaken(run, steps, engine, j))
       <==> HardwareBarred(r) && !Barred(r) && Reachable(r, engine)
  {
    if HardwareBarred(r) && !Barred(r) && Reachable(r, engine) {
      var ip :| FromIP(r, ip, engine).Created?;
      var run, steps := Overtake(r, engine, StartHttp(ip, "auto"), ip);
    }
    forall run: seq<State>, steps: seq<Step>, j: nat |
      run != [] && run[0] == Idle(r) && Overtaken(run, steps, engine, j)
      ensures HardwareBarred(r) && !Barred(r) && Reachable(r, engine)
    {
      OvertakenOnlyIf(run, steps, engine, r, j);
    }
  }

  /** Such a record: one interface that does not allow PXE, and an active instance that does. */
  function Example(): Record {
    Record("hw", "in_use", "", [Interface([2, 0, 0, 0, 0, 1], Some("192.0.2.1"), false)],
           Some(Instance("i", "active", true, "")))
  }

  /** DHCP is asked, the machine phones home, PXE is off, and auto.ipxe is named after that. */
  lemma DhcpOvertaken() returns (run: seq<State>, steps: seq<Step>)
    ensures run != [] && run[0] == Idle(Example()) && Overtaken(run, steps, "", 3)
    ensures |steps| == 4 && steps[0].StartDhcp?
  {
    var r, mac, ip := Example(), [2, 0, 0, 0, 0, 1], Some("192.0.2.1");
    var ask := StartDhcp(mac, Client(true, false, true, true), true, true);
    ExampleLookups();
    ExampleAllowed();
    run, steps := Overtake(r, "", ask, ip);
  }

  lemma ExampleAllowed()
    ensures HardwareBarred(Example()) && !Barred(Example())
    ensures Allowed(Dhcp(Job([2, 0, 0, 0, 0, 1], Example(), ""), Client(true, false, true, true), true, true))
  {
  }

  lemma ExampleLookups()
    ensures FromDHCP(Example(), [2, 0, 0, 0, 0, 1], "") == Some(Job([2, 0, 0, 0, 0, 1], Example(), ""))
    ensures FromIP(Example(), Some("192.0.2.1"), "").Created?
  {
    var r, mac := Example(), [2, 0, 0, 0, 0, 1];
    assert FirstWithMac(r.interfaces, 0) && FirstWithAddr(r.interfaces, 0);
    ByMacAt(r.interfaces, 0);
    ByIPAt(r.interfaces, 0);
    if MacText(mac) == MacText(MIN_MAC) { MacTextInjective(mac, MIN_MAC); }
  }
}
