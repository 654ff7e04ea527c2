/** Phone-home events and the reporter calls they cause (job/events.go). */
module PhoneHome {
  import opened Bytes
  import opened Jobs

  /** A call of the reporter: which endpoint, with which id and content. */
  datatype Call =
    | InstancePhoneHome(id: string)
    | InstanceEvent(id: string, kind: string)
    | InstanceFail(id: string, reason: string, secret: bool)
    | InstancePassword(id: string, pass: string)
    | UpdateInstance(id: string)
    | HardwarePhoneHome(id: string)
    | HardwareEvent(id: string, kind: string)
    | HardwareFail(id: string, reason: string, secret: bool)

  /** The backend: records its calls; `fails(k)` says whether the k-th one fails and
      `ids(k)` is the identifier it returns for an event. */
  class Reporter {
    const fails: nat -> bool
    const ids: nat -> string
    var calls: seq<Call>

    constructor (fails: nat -> bool, ids: nat -> string)
      ensures this.fails == fails && this.ids == ids && calls == []
    {
      this.fails, this.ids, calls := fails, ids, [];
    }

    method Do(c: Call) returns (ok: bool)
      modifies this
      ensures calls == old(calls) + [c] && ok == !fails(|old(calls)|)
    {
      ok := !fails(|calls|);
      calls := calls + [c];
    }
  }

  /** A request body, with the outcome of the foreign decoders. */
  datatype Body =
    | NoBody
    | Malformed
    | Fields(typ: string, instance: string, hasPassword: bool, decrypted: Option<string>, failure: Option<(string, bool)>)

  datatype Poster = Event(eventKind: string, pass: string) | Failure(reason: string, secret: bool) {
    function Kind(): string {
      if Event? then eventKind else "failure"
    }
  }

  const NO_ID := "no-id"
  const PHONE_HOME := "phone-home"
  const PROVISIONED := "provisioning.104.01"
  const WARNING := "boots.warning"
  const CUSTOM_IPXE := "custom_ipxe"

  function PosterFromJSON(b: Body): Option<Poster> {
    match b
    case NoBody => Some(Event(PHONE_HOME, ""))
    case Malformed => None
    case Fields(typ, instance, hasPassword, decrypted, failure) =>
      if typ == "" && instance != "" then Some(Event(PHONE_HOME, ""))
      else if typ == "" && hasPassword then
        (match decrypted case None => None case Some(p) => Some(Event(PHONE_HOME, p)))
      else if typ == "failure" then
        (match failure case None => None case Some(f) => Some(Failure(f.0, f.1)))
      else Some(Event(typ, ""))
  }

  datatype Endpoint = ToInstance | ToHardware

  /** The one call that posts `p`; failures are always marked private. */
  function PostCall(p: Poster, e: Endpoint, id: string): Call {
    match p
    case Failure(reason, _) => if e == ToHardware then HardwareFail(id, reason, true) else InstanceFail(id, reason, true)
    case Event(kind, pass) =>
      if pass != "" then InstancePassword(id, pass)
      else if kind == PHONE_HOME then (if e == ToHardware then HardwarePhoneHome(id) else InstancePhoneHome(id))
      else if e == ToHardware then HardwareEvent(id, kind) else InstanceEvent(id, kind)
  }

  /** event.post and failure.post. Only a posted event other than a phone-home gets the
      identifier of the backend; a failure has a fixed one. */
  method Post(r: Reporter, p: Poster, e: Endpoint, id: string) returns (ok: bool, eventId: string)
    modifies r
    ensures id == "" ==> !ok && r.calls == old(r.calls)
    ensures id != "" ==> r.calls == old(r.calls) + [PostCall(p, e, id)] && ok == !r.fails(|old(r.calls)|)
    ensures p.Failure? ==> eventId == NO_ID
    ensures p.Event? ==> eventId == if id != "" && p.pass == "" && p.eventKind != PHONE_HOME then r.ids(|old(r.calls)|) else ""
  {
    eventId := if p.Failure? then NO_ID else "";
    if id == "" { return false, eventId; }
    var reply := r.ids(|r.calls|);
    match p {
      case Failure(reason, _) =>
        if e == ToHardware { ok := r.Do(HardwareFail(id, reason, true)); } else { ok := r.Do(InstanceFail(id, reason, true)); }
      case Event(kind, pass) =>
        if pass != "" {
          ok := r.Do(InstancePassword(id, pass));
        } else if e == ToHardware {
          if kind == PHONE_HOME {
            ok := r.Do(HardwarePhoneHome(id));
          } else {
            ok := r.Do(HardwareEvent(id, kind));
            eventId := reply;
          }
        } else {
          if kind == PHONE_HOME {
            ok := r.Do(InstancePhoneHome(id));
          } else {
            ok := r.Do(InstanceEvent(id, kind));
            eventId := reply;
          }
        }
    }
  }

  function Warning(j: Job): seq<Call> {
    if j.InstanceID() == "" then [] else [InstanceEvent(j.InstanceID(), WARNING)]
  }

  /** Job.Error: logs, and posts a private event for the instance if there is one. A
      failure to post it is only logged. */
  method Error(r: Reporter, j: Job)
    modifies r
    ensures r.calls == old(r.calls) + Warning(j)
  {
    if j.InstanceID() == "" { return; }
    var _, _ := Post(r, Event(WARNING, ""), ToInstance, j.InstanceID());
  }

  method CustomPXEDone(r: Reporter, j: Job)
    modifies r
    ensures r.calls == old(r.calls) + if j.InstanceID() == "" then [] else [InstancePhoneHome(j.InstanceID())]
  {
    if j.InstanceID() == "" { return; }
    var _, _ := Post(r, Event(PHONE_HOME, ""), ToInstance, j.InstanceID());
  }

  method DisablePXE(r: Reporter, j: Job)
    modifies r
    ensures r.calls == old(r.calls) + DisableCalls(j, r.fails, |old(r.calls)|)
  {
    var ok := r.Do(UpdateInstance(j.InstanceID()));
    if !ok { Error(r, j); }
  }

  function DisableCalls(j: Job, fails: nat -> bool, n: nat): seq<Call> {
    [UpdateInstance(j.InstanceID())] + (if fails(n) then Warning(j) else [])
  }

  /** Whether a phone-home is the end of provisioning of an instance. */
  predicate Provisioned(j: Job, p: Poster) {
    j.InstanceID() != "" && p.Kind() == PROVISIONED
  }

  /** The calls a phone-home makes when `n` calls were made before it. */
  function Calls(j: Job, b: Body, fails: nat -> bool, n: nat): seq<Call> {
    match PosterFromJSON(b)
    case None => Warning(j)
    case Some(p) =>
      if j.InstanceID() != "" then
        [PostCall(p, ToInstance, j.InstanceID())]
        + (if Provisioned(j, p) && !fails(n) then DisableCalls(j, fails, n + 1) else [])
        + (if Provisioned(j, p) && j.OsSlug() == CUSTOM_IPXE then [InstancePhoneHome(j.InstanceID())] else [])
      else if j.HardwareState() != "preinstalling" then []
      else [PostCall(p, ToHardware, j.record.id)]
  }

  method PhoneHome(r: Reporter, j: Job, b: Body) returns (proxied: bool)
    modifies r
    ensures r.calls == old(r.calls) + Calls(j, b, r.fails, |old(r.calls)|)
    ensures proxied <==>
      && PosterFromJSON(b).Some? && (j.InstanceID() != "" || j.HardwareState() == "preinstalling")
      && !r.fails(|old(r.calls)|)
  {
    var p := PosterFromJSON(b);
    if p.None? {
      Error(r, j);
      return false;
    }
    var id: string, endpoint: Endpoint;
    var disable, closing := false, false;
    if j.InstanceID() != "" {
      id, endpoint := j.InstanceID(), ToInstance;
      if p.value.Kind() == PROVISIONED {
        disable := true;
        closing := j.OsSlug() == CUSTOM_IPXE;
      }
    } else {
      if j.HardwareState() != "preinstalling" { return false; }
      id, endpoint := j.record.id, ToHardware;
    }
    var ok, _ := Post(r, p.value, endpoint, id);
    proxied := ok;
    Follow(r, j, proxied && disable, closing);
  }

  /** What follows the post: switching PXE off, and the deferred closing phone-home. */
  method Follow(r: Reporter, j: Job, disable: bool, closing: bool)
    requires closing ==> j.InstanceID() != ""
    modifies r
    ensures r.calls == old(r.calls)
      + (if disable then DisableCalls(j, r.fails, |old(r.calls)|) else [])
      + (if closing then [InstancePhoneHome(j.InstanceID())] else [])
  {
    if disable { DisablePXE(r, j); }
    if closing { CustomPXEDone(r, j); }
  }

  // ---- what the calls guarantee -------------------------------------------

  /** At most four calls, each with a non-empty id. */
  lemma CallsBounded(j: Job, b: Body, fails: nat -> bool, n: nat)
    ensures |Calls(j, b, fails, n)| <= 4
    ensures forall k :: 0 <= k < |Calls(j, b, fails, n)| ==> Calls(j, b, fails, n)[k].id != ""
  {
    if j.InstanceID() != "" {
      InstanceCalls(j, b, fails, n);
    }
  }

  lemma InstanceCalls(j: Job, b: Body, fails: nat -> bool, n: nat)
    requires j.InstanceID() != ""
    ensures |Calls(j, b, fails, n)| <= 4
    ensures forall k :: 0 <= k < |Calls(j, b, fails, n)| ==> Calls(j, b, fails, n)[k].id == j.InstanceID()
  {
  }

  /** PXE is disabled exactly when a provisioning.104.01 phone-home of an instance was
      posted, and right after it. */
  lemma DisablesOnlyAfterPost(j: Job, b: Body, fails: nat -> bool, n: nat)
    ensures
      var cs := Calls(j, b, fails, n);
      && (forall k :: 0 <= k < |cs| && cs[k].UpdateInstance? ==>
            k == 1 && cs[1].id == j.InstanceID() && cs[0] == InstanceEvent(j.InstanceID(), PROVISIONED) && !fails(n))
      && (|cs| > 1 && cs[1].UpdateInstance? <==>
            PosterFromJSON(b).Some? && Provisioned(j, PosterFromJSON(b).value) && !fails(n))
  {
    var cs := Calls(j, b, fails, n);
    match PosterFromJSON(b)
    case None =>
    case Some(p) =>
      if Provisioned(j, p) { ProvisionedPost(j, b, p); }
      assert !PostCall(p, ToInstance, j.InstanceID()).UpdateInstance?;
  }

  /** The event that ends provisioning is posted as such: it carries no password. */
  lemma ProvisionedPost(j: Job, b: Body, p: Poster)
    requires PosterFromJSON(b) == Some(p) && Provisioned(j, p)
    ensures PostCall(p, ToInstance, j.InstanceID()) == InstanceEvent(j.InstanceID(), PROVISIONED)
  {
    assert PHONE_HOME[1] != PROVISIONED[1];
    assert "failure"[0] != PROVISIONED[0];
  }

  /** The phone-home that closes a custom_ipxe installation is the last call. */
  lemma ClosingIsLast(j: Job, b: Body, fails: nat -> bool, n: nat)
    requires PosterFromJSON(b).Some? && Provisioned(j, PosterFromJSON(b).value) && j.OsSlug() == CUSTOM_IPXE
    ensures
      var cs := Calls(j, b, fails, n);
      && |cs| >= 2 && cs[|cs| - 1] == InstancePhoneHome(j.InstanceID())
      && forall k :: 0 <= k < |cs| - 1 ==> !cs[k].InstancePhoneHome?
  {
    ProvisionedPost(j, b, PosterFromJSON(b).value);
  }

  // ---- what each body posts -----------------------------------------------

  /** A body that cannot be read: not JSON, a password that cannot be decrypted, or a failure
      without its fields. */
  predicate Unreadable(b: Body) {
    || b.Malformed?
    || (b.Fields? && b.typ == "" && b.instance == "" && b.hasPassword && b.decrypted.None?)
    || (b.Fields? && b.typ == "failure" && b.failure.None?)
  }

  /** The password a body carries, "" for none. */
  function Password(b: Body): string {
    if b.Fields? && b.typ == "" && b.instance == "" && b.hasPassword && b.decrypted.Some? then b.decrypted.value else ""
  }

  /** No type and no password, or the type itself. */
  predicate IsPhoneHome(b: Body) {
    b.NoBody? || (b.Fields? && (b.typ == "phone-home" || (b.typ == "" && (b.instance != "" || b.hasPassword))))
  }

  /** The call an instance's body makes, by what the body says. */
  function InstanceCall(b: Body, id: string): Call
    requires !Unreadable(b)
  {
    if Password(b) != "" then InstancePassword(id, Password(b))
    else if IsPhoneHome(b) then InstancePhoneHome(id)
    else if b.typ == "failure" then InstanceFail(id, b.failure.value.0, true)
    else InstanceEvent(id, b.typ)
  }

  /** The call a machine's body makes; a password goes to the instance endpoint here too. */
  function HardwareCall(b: Body, id: string): Call
    requires !Unreadable(b)
  {
    if Password(b) != "" then InstancePassword(id, Password(b))
    else if IsPhoneHome(b) then HardwarePhoneHome(id)
    else if b.typ == "failure" then HardwareFail(id, b.failure.value.0, true)
    else HardwareEvent(id, b.typ)
  }

  /** A body has a poster exactly when it can be read. */
  lemma ReadableIff(b: Body)
    ensures PosterFromJSON(b).None? <==> Unreadable(b)
  {
    assert "failure"[0] == 'f';
  }

  lemma PostedCall(b: Body, id: string)
    requires PosterFromJSON(b).Some? && !Unreadable(b)
    ensures PostCall(PosterFromJSON(b).value, ToInstance, id) == InstanceCall(b, id)
    ensures PostCall(PosterFromJSON(b).value, ToHardware, id) == HardwareCall(b, id)
  {
    assert "failure"[0] == 'f' && "phone-home"[0] == 'p';
  }

  /** Every call of a phone-home for an instance: the body's own call; for the body that ends
      provisioning also the PATCH, if the post went well, a warning if the PATCH failed, and
      the closing phone-home of a custom_ipxe machine. An unreadable body is a warning. */
  lemma InstanceCallsAre(j: Job, b: Body, fails: nat -> bool, n: nat)
    requires HasInstance(j.record)
    ensures Unreadable(b) ==> Calls(j, b, fails, n) == [InstanceEvent(j.record.instance.value.id, "boots.warning")]
    ensures !Unreadable(b) ==>
      var i := j.record.instance.value;
      var done := b.Fields? && b.typ == "provisioning.104.01";
      var warning := if fails(n + 1) then [InstanceEvent(i.id, "boots.warning")] else [];
      var patch := if done && !fails(n) then [UpdateInstance(i.id)] + warning else [];
      var closing := if done && i.osSlug == "custom_ipxe" then [InstancePhoneHome(i.id)] else [];
      Calls(j, b, fails, n) == [InstanceCall(b, i.id)] + patch + closing
  {
    ReadableIff(b);
    if !Unreadable(b) {
      PostedCall(b, j.InstanceID());
      ProvisionedIff(j, b);
    }
  }

  lemma ProvisionedIff(j: Job, b: Body)
    requires PosterFromJSON(b).Some? && j.InstanceID() != ""
    ensures Provisioned(j, PosterFromJSON(b).value) <==> b.Fields? && b.typ == "provisioning.104.01"
  {
    assert "failure"[0] == 'f' && "phone-home"[1] == 'h' && "provisioning.104.01"[1] == 'r';
  }

  /** Without an instance: one call for a machine that is being preinstalled, none else. */
  lemma HardwareCallsAre(j: Job, b: Body, fails: nat -> bool, n: nat)
    requires !HasInstance(j.record)
    ensures Calls(j, b, fails, n) ==
      if !Unreadable(b) && j.record.id != "" && j.record.state == "preinstalling" then [HardwareCall(b, j.record.id)] else []
  {
    ReadableIff(b);
    assert "preinstalling" != "";
    if !Unreadable(b) { PostedCall(b, j.record.id); }
  }
}
