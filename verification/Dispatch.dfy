/**
 Decide and act in one invocation (`execute_action_wasm`): the outbound call is made
 only for an action the stored mandate approves, at most once per idempotency key as
 long as the key-value map works, and with the credential the mandate names.

 Host calls may fail; how each ends is part of the input of a step.
 */
module Dispatch {
  import opened Wrappers
  import opened Mandates
  import opened Requests
  import Binding

  datatype ExecuteReq = ExecuteReq(
    action: Action, url: string, methodName: string, body: string,
    credential: Option<Binding.CredentialBinding>, idempotencyKey: Option<string>)

  /** How an outbound call ended; errors are part of the recorded response. */
  datatype HttpResponse = HttpOk(code: nat, bodyLen: nat) | HttpErr(text: string)

  datatype MandateRead = ReadFails | NotProvisioned | Malformed | Provisioned(mandate: Mandate)

  datatype SecretRead = SecretFails | SecretNotUtf8 | SecretAbsent | SecretIs(value: string)

  /** How the write of the dispatch record ends; `Crash` is a crash between the call and the write. */
  datatype RecordWrite = WriteOk | WriteLost | WriteStoredButFailed | Crash

  /** What the host answers during one invocation. */
  datatype Host = Host(
    now: U64, mandateRead: MandateRead, recordReadOk: bool, secretRead: SecretRead, http: HttpResponse,
    recordWrite: RecordWrite)

  datatype Via = Http | HttpWithPlaceholders

  /** An outbound call as the destination sees it, and the key it was made under. */
  datatype Outbound = Outbound(
    key: Option<string>, via: Via, verb: Verb, url: string, authorization: Option<string>, payload: Option<string>)

  /** `dispatched` is the tenant's map of dispatch records; `log` and `secretReads` record what the host was asked. */
  datatype State = State(dispatched: map<string, HttpResponse>, log: seq<Outbound>, secretReads: seq<string>)

  const EMPTY := State(map[], [], [])

  datatype Note =
    | Policy(reason: Reason)
    | Credential(bindingError: Binding.BindingError)
    | Idempotency(keyError: KeyError)

  datatype Reply = Reply(
    approved: bool, reasons: seq<Note>, dispatched: bool, replayed: bool, key: Option<string>,
    response: Option<HttpResponse>, evaluatedAt: U64, commitment: Option<string>, actionDigest: string)

  datatype ExecError =
    | MandateUnreadable
    | MandateMissing
    | MandateMalformed
    | SecretUnreadable
    | SecretMissing
    | Crashed

  // ----- judgement ----------------------------------------------------------------------

  datatype Judgement = Judgement(approved: bool, reasons: seq<Note>, key: Option<string>)

  function Notes(reasons: seq<Reason>): (notes: seq<Note>)
    ensures |notes| == |reasons| && forall i :: 0 <= i < |reasons| ==> notes[i] == Policy(reasons[i])
  {
    seq(|reasons|, i requires 0 <= i < |reasons| => Policy(reasons[i]))
  }

  function BindingOf(req: ExecuteReq, m: Mandate, hash: Binding.Hash): Result<(), Binding.BindingError> {
    Binding.CheckBinding(req.credential, req.action, m.requireCredential, hash)
  }

  function KeyOf(req: ExecuteReq, m: Mandate): Result<Option<string>, KeyError> {
    CheckIdempotency(req.idempotencyKey, m.requireIdempotencyKey)
  }

  /** The action, the binding and the key are all in order. */
  predicate Passes(req: ExecuteReq, m: Mandate, now: U64, hash: Binding.Hash) {
    Approves(m, req.action, now) && BindingOf(req, m, hash).Ok? && KeyOf(req, m).Ok?
  }

  /** The reasons of `decide`, then the binding's, then the key's. */
  function AllReasons(req: ExecuteReq, m: Mandate, now: U64, hash: Binding.Hash): seq<Note> {
    Notes(Complaints(Broken(RULES, req.action, m, now), req.action, m))
    + (match BindingOf(req, m, hash) case Err(e) => [Credential(e)] case Ok(_) => [])
    + (match KeyOf(req, m) case Err(e) => [Idempotency(e)] case Ok(_) => [])
  }

  method Judge(req: ExecuteReq, m: Mandate, now: U64, hash: Binding.Hash) returns (j: Judgement)
    ensures j.approved <==> Passes(req, m, now, hash)
    ensures j.reasons == AllReasons(req, m, now, hash)
    ensures j.key == if KeyOf(req, m).Ok? then KeyOf(req, m).value else None
  {
    hide Approves, Binding.CheckBinding, CheckIdempotency, Complaints, Broken;
    var binding := Binding.CheckBinding(req.credential, req.action, m.requireCredential, hash);
    var idem := CheckIdempotency(req.idempotencyKey, m.requireIdempotencyKey);
    var approved, why := Decide(req.action, m, now);
    var reasons := Notes(why);
    if binding.Err? {
      approved := false;
      reasons := reasons + [Credential(binding.error)];
    }
    var key := None;
    match idem {
      case Ok(k) => key := k;
      case Err(e) =>
        approved := false;
        reasons := reasons + [Idempotency(e)];
    }
    j := Judgement(approved, reasons, key);
  }

  // ----- one invocation -------------------------------------------------------------------

  function Secret(r: SecretRead): Option<string> {
    if r.SecretIs? then Some(r.value) else None
  }

  /** The bearer header, or the reason why the action cannot be authenticated. */
  function Authorization(m: Mandate, r: SecretRead): Result<Option<string>, ExecError> {
    if m.credentialKey == "" then Ok(None)
    else if r == SecretFails || r == SecretNotUtf8 then Err(SecretUnreadable)
    else
      match AuthHeaders(m.credentialKey, Secret(r))
      case Ok(h) => Ok(h)
      case Err(_) => Err(SecretMissing)
  }

  function Call(req: ExecuteReq, key: Option<string>, authorization: Option<string>): Outbound {
    Outbound(key, if NeedsPlaceholders(req.body) then HttpWithPlaceholders else Http, VerbOf(req.methodName), req.url,
             authorization, if req.body == "" then None else Some(req.body))
  }

  function Recorded(st: State, key: Option<string>, host: Host): Option<HttpResponse> {
    if key.Some? && host.recordReadOk && key.value in st.dispatched then Some(st.dispatched[key.value]) else None
  }

  /** An approved invocation that finds no record: read the secret, call, record. */
  function AfterDispatch(st: State, req: ExecuteReq, host: Host, m: Mandate, key: Option<string>): State {
    var read := if m.credentialKey == "" then st else st.(secretReads := st.secretReads + [m.credentialKey]);
    match Authorization(m, host.secretRead)
    case Err(_) => read
    case Ok(authorization) =>
      var called := read.(log := read.log + [Call(req, key, authorization)]);
      if key == None || host.recordWrite == WriteLost || host.recordWrite == Crash then called
      else called.(dispatched := called.dispatched[key.value := host.http])
  }

  function After(st: State, req: ExecuteReq, host: Host, hash: Binding.Hash): State {
    if !host.mandateRead.Provisioned? then st
    else
      var m := host.mandateRead.mandate;
      if !Passes(req, m, host.now, hash) || Recorded(st, KeyOf(req, m).value, host).Some? then st
      else AfterDispatch(st, req, host, m, KeyOf(req, m).value)
  }

  function Rejection(req: ExecuteReq, m: Mandate, now: U64, hash: Binding.Hash): Reply {
    Reply(Passes(req, m, now, hash), AllReasons(req, m, now, hash), false, false, None, None, now,
          if req.credential.Some? then Some(req.credential.value.commitment) else None,
          Binding.ActionDigest(req.action, hash))
  }

  function Answer(st: State, req: ExecuteReq, host: Host, hash: Binding.Hash): Result<Reply, ExecError> {
    match host.mandateRead
    case ReadFails => Err(MandateUnreadable)
    case NotProvisioned => Err(MandateMissing)
    case Malformed => Err(MandateMalformed)
    case Provisioned(m) =>
      var base := Rejection(req, m, host.now, hash);
      if !base.approved then Ok(base)
      else
        var key := KeyOf(req, m).value;
        match Recorded(st, key, host)
        case Some(prev) => Ok(base.(replayed := true, key := key, response := Some(prev)))
        case None =>
          match Authorization(m, host.secretRead)
          case Err(e) => Err(e)
          case Ok(_) =>
            if host.recordWrite == Crash then Err(Crashed)
            else Ok(base.(dispatched := true, key := key, response := Some(host.http)))
  }

  lemma PassesHasKey(req: ExecuteReq, m: Mandate, now: U64, hash: Binding.Hash)
    ensures Passes(req, m, now, hash) ==> KeyOf(req, m).Ok?
  {
  }

  // ----- runs ------------------------------------------------------------------------------

  /** An invocation: a request, and what the host answers. */
  datatype Invocation = Invocation(req: ExecuteReq, host: Host)

  function Step(st: State, inv: Invocation, hash: Binding.Hash): State {
    After(st, inv.req, inv.host, hash)
  }

  function Run(st: State, invs: seq<Invocation>, hash: Binding.Hash): State {
    if invs == [] then st else Step(Run(st, invs[..|invs| - 1], hash), invs[|invs| - 1], hash)
  }

  /** The key under which an invocation looks for a record: it is approved and has one. */
  function ConsultedKey(inv: Invocation, hash: Binding.Hash): Option<string> {
    if inv.host.mandateRead.Provisioned? && Passes(inv.req, inv.host.mandateRead.mandate, inv.host.now, hash)
    then KeyOf(inv.req, inv.host.mandateRead.mandate).value
    else None
  }

  /** How many of the outbound calls were made under the key `k`. */
  function CallsUnder(log: seq<Outbound>, k: string): nat {
    if log == [] then 0 else CallsUnder(log[..|log| - 1], k) + if log[|log| - 1].key == Some(k) then 1 else 0
  }

  lemma CallsUnderAppend(log: seq<Outbound>, o: Outbound, k: string)
    ensures CallsUnder(log + [o], k) == CallsUnder(log, k) + if o.key == Some(k) then 1 else 0
  {
    assert (log + [o])[..|log|] == log;
  }

  /** Reads of the record for `k` that failed. */
  function FailedReads(invs: seq<Invocation>, k: string, hash: Binding.Hash): nat {
    if invs == [] then 0
    else
      var inv := invs[|invs| - 1];
      FailedReads(invs[..|invs| - 1], k, hash)
      + if ConsultedKey(inv, hash) == Some(k) && !inv.host.recordReadOk then 1 else 0
  }

  /** The invocation makes an outbound call. */
  predicate Calls(st: State, inv: Invocation, hash: Binding.Hash) {
    && inv.host.mandateRead.Provisioned?
    && Passes(inv.req, inv.host.mandateRead.mandate, inv.host.now, hash)
    && Recorded(st, ConsultedKey(inv, hash), inv.host) == None
    && Authorization(inv.host.mandateRead.mandate, inv.host.secretRead).Ok?
  }

  /** Calls under `k` whose record was not written, because the write failed or a crash came first. */
  function FailedWrites(st: State, invs: seq<Invocation>, k: string, hash: Binding.Hash): nat {
    if invs == [] then 0
    else
      var before, inv := invs[..|invs| - 1], invs[|invs| - 1];
      FailedWrites(st, before, k, hash) +
      if Calls(Run(st, before, hash), inv, hash) && ConsultedKey(inv, hash) == Some(k)
         && inv.host.recordWrite != WriteOk
      then 1 else 0
  }

  function RecordCount(st: State, k: string): nat {
    if k in st.dispatched then 1 else 0
  }

  /** What one invocation does to the log and to the records. */
  lemma StepEffect(st: State, inv: Invocation, hash: Binding.Hash)
    ensures var st', key := Step(st, inv, hash), ConsultedKey(inv, hash);
            if !Calls(st, inv, hash) then st'.log == st.log && st'.dispatched == st.dispatched
            else
              var authorization := Authorization(inv.host.mandateRead.mandate, inv.host.secretRead).value;
              && st'.log == st.log + [Call(inv.req, key, authorization)]
              && st'.dispatched == if key == None || inv.host.recordWrite == WriteLost || inv.host.recordWrite == Crash
                                   then st.dispatched
                                   else st.dispatched[key.value := inv.host.http]
  {
    hide Passes, Authorization, Call, KeyOf;
    if inv.host.mandateRead.Provisioned? {
      PassesHasKey(inv.req, inv.host.mandateRead.mandate, inv.host.now, hash);
    }
  }

  /** One invocation calls at most once under `k`, and pays for the call with a record or a failure. */
  lemma StepBudget(st: State, inv: Invocation, k: string, hash: Binding.Hash)
    ensures var st' := Step(st, inv, hash);
            CallsUnder(st'.log, k) - CallsUnder(st.log, k) <=
            RecordCount(st', k) - RecordCount(st, k)
            + (if ConsultedKey(inv, hash) == Some(k) && !inv.host.recordReadOk then 1 else 0)
            + (if Calls(st, inv, hash) && ConsultedKey(inv, hash) == Some(k) && inv.host.recordWrite != WriteOk
               then 1 else 0)
  {
    StepEffect(st, inv, hash);
    var recorded := Recorded(st, ConsultedKey(inv, hash), inv.host);
    assert Calls(st, inv, hash) ==> recorded == None;
    if Calls(st, inv, hash) {
      var authorization := Authorization(inv.host.mandateRead.mandate, inv.host.secretRead).value;
      var call := Call(inv.req, ConsultedKey(inv, hash), authorization);
      CallsUnderAppend(st.log, call, k);
    }
    hide Step, Calls, ConsultedKey, CallsUnder, Authorization, Call;
  }

  /**
   In every run the calls under a key are at most one for its record, plus one for each
   read of the record that failed and each call whose record was not written.
   */
  lemma {:induction false} CallBudget(st: State, invs: seq<Invocation>, k: string, hash: Binding.Hash)
    ensures var st' := Run(st, invs, hash);
            CallsUnder(st'.log, k) - CallsUnder(st.log, k) <=
            RecordCount(st', k) - RecordCount(st, k) + FailedReads(invs, k, hash) + FailedWrites(st, invs, k, hash)
  {
    hide Step, Calls, ConsultedKey, CallsUnder;
    if invs != [] {
      var before, inv := invs[..|invs| - 1], invs[|invs| - 1];
      CallBudget(st, before, k, hash);
      StepBudget(Run(st, before, hash), inv, k, hash);
    }
  }

  /** The map of records works throughout. */
  predicate Reliable(invs: seq<Invocation>) {
    forall i :: 0 <= i < |invs| ==> invs[i].host.recordReadOk && invs[i].host.recordWrite == WriteOk
  }

  lemma {:induction false} NoFailures(st: State, invs: seq<Invocation>, k: string, hash: Binding.Hash)
    requires Reliable(invs)
    ensures FailedReads(invs, k, hash) == 0 && FailedWrites(st, invs, k, hash) == 0
  {
    if invs != [] {
      NoFailures(st, invs[..|invs| - 1], k, hash);
    }
  }

  /** As long as reads and writes work, at most one call is ever made under a key. */
  lemma AtMostOneCall(invs: seq<Invocation>, k: string, hash: Binding.Hash)
    requires Reliable(invs)
    ensures CallsUnder(Run(EMPTY, invs, hash).log, k) <= 1
  {
    CallBudget(EMPTY, invs, k, hash);
    NoFailures(EMPTY, invs, k, hash);
  }

  /** Once there is a record, reliable invocations neither change it nor call again. */
  lemma {:induction false} RecordStays(st: State, invs: seq<Invocation>, k: string, hash: Binding.Hash)
    requires Reliable(invs) && k in st.dispatched
    ensures var st' := Run(st, invs, hash);
            && k in st'.dispatched && st'.dispatched[k] == st.dispatched[k]
            && CallsUnder(st'.log, k) == CallsUnder(st.log, k)
  {
    hide Step, Calls, ConsultedKey, CallsUnder;
    if invs != [] {
      var before, inv := invs[..|invs| - 1], invs[|invs| - 1];
      RecordStays(st, before, k, hash);
      RecordStaysStep(Run(st, before, hash), inv, k, hash);
    }
  }

  lemma RecordStaysStep(st: State, inv: Invocation, k: string, hash: Binding.Hash)
    requires inv.host.recordReadOk && k in st.dispatched
    ensures var st' := Step(st, inv, hash);
            && k in st'.dispatched && st'.dispatched[k] == st.dispatched[k]
            && CallsUnder(st'.log, k) == CallsUnder(st.log, k)
  {
    StepEffect(st, inv, hash);
    assert Calls(st, inv, hash) ==> ConsultedKey(inv, hash) != Some(k);
    if Calls(st, inv, hash) {
      var authorization := Authorization(inv.host.mandateRead.mandate, inv.host.secretRead).value;
      var call := Call(inv.req, ConsultedKey(inv, hash), authorization);
      CallsUnderAppend(st.log, call, k);
    }
    hide Step, Calls, ConsultedKey, CallsUnder, Authorization, Call;
  }

  /**
   A first call under `k` that was recorded is replayed: after any reliable run, an
   approved invocation with `k` makes no call and returns the first response.
   */
  lemma {:induction false} LaterCallsReplay(st: State, first: Invocation, invs: seq<Invocation>, later: Invocation,
                                            k: string, hash: Binding.Hash)
    requires Calls(st, first, hash) && ConsultedKey(first, hash) == Some(k) && first.host.recordWrite == WriteOk
    requires Reliable(invs) && ConsultedKey(later, hash) == Some(k) && later.host.recordReadOk
    ensures var st' := Run(Step(st, first, hash), invs, hash);
            && Step(st', later, hash) == st'
            && var r := Answer(st', later.req, later.host, hash);
               r.Ok? && r.value.approved && r.value.replayed && !r.value.dispatched
               && r.value.response == Some(first.host.http) && r.value.key == Some(k)
  {
    StepEffect(st, first, hash);
    var st1 := Step(st, first, hash);
    assert k in st1.dispatched && st1.dispatched[k] == first.host.http;
    RecordStays(st1, invs, k, hash);
    Replays(Run(st1, invs, hash), later, k, hash);
  }

  lemma Replays(st: State, inv: Invocation, k: string, hash: Binding.Hash)
    requires ConsultedKey(inv, hash) == Some(k) && inv.host.recordReadOk && k in st.dispatched
    ensures Step(st, inv, hash) == st
    ensures var r := Answer(st, inv.req, inv.host, hash);
            r.Ok? && r.value.approved && r.value.replayed && !r.value.dispatched
            && r.value.response == Some(st.dispatched[k]) && r.value.key == Some(k)
  {
    hide Passes, KeyOf, AllReasons, Binding.ActionDigest;
  }

  /**
   The limit of the protection: an approved invocation whose secret is in order calls out
   exactly when it does not find a record, because there is none or because it cannot be
   read.  A retry therefore calls again after a lost record as after a failed read.
   */
  lemma CallsAgainIff(st: State, inv: Invocation, k: string, hash: Binding.Hash)
    requires ConsultedKey(inv, hash) == Some(k)
    requires Authorization(inv.host.mandateRead.mandate, inv.host.secretRead).Ok?
    ensures CallsUnder(Step(st, inv, hash).log, k) == CallsUnder(st.log, k) + 1
            <==> !(inv.host.recordReadOk && k in st.dispatched)
  {
    StepEffect(st, inv, hash);
    assert Calls(st, inv, hash) <==> !(inv.host.recordReadOk && k in st.dispatched);
    hide Step, CallsUnder, Authorization, Call;
    var call := Call(inv.req, Some(k), Authorization(inv.host.mandateRead.mandate, inv.host.secretRead).value);
    CallsUnderAppend(st.log, call, k);
  }

  /**
   The reply tells the truth: it says "dispatched" exactly when a call went out, reports
   that call's response, and a record written is the response reported.  A call whose
   invocation ends in an error means a crash.
   */
  lemma ReplyHonest(st: State, inv: Invocation, hash: Binding.Hash)
    ensures var r, st' := Answer(st, inv.req, inv.host, hash), Step(st, inv, hash);
            && (r.Ok? ==>
                  && (r.value.dispatched <==> |st'.log| == |st.log| + 1)
                  && (r.value.dispatched || r.value.replayed ==>
                        r.value.approved && r.value.key == ConsultedKey(inv, hash))
                  && (r.value.dispatched ==> r.value.response == Some(inv.host.http))
                  && (r.value.replayed ==> r.value.key.Some? && r.value.key.value in st.dispatched
                                           && r.value.response == Some(st.dispatched[r.value.key.value]))
                  && (r.value.approved <==> r.value.dispatched || r.value.replayed)
                  && (st'.dispatched != st.dispatched ==>
                        && r.value.key.Some?
                        && st'.dispatched == st.dispatched[r.value.key.value := r.value.response.value]))
            && (r.Err? ==> (|st'.log| == |st.log| + 1 <==> r == Err(Crashed)) && st'.dispatched == st.dispatched)
  {
    StepEffect(st, inv, hash);
    hide Passes, KeyOf, AllReasons, Binding.ActionDigest, Call;
    if inv.host.mandateRead.Provisioned? {
      PassesHasKey(inv.req, inv.host.mandateRead.mandate, inv.host.now, hash);
    }
  }

  // ----- the reply, case by case ---------------------------------------------------------------

  /** The invocation is approved and looks for a record in vain. */
  predicate MustCall(st: State, inv: Invocation, hash: Binding.Hash) {
    && inv.host.mandateRead.Provisioned?
    && Passes(inv.req, inv.host.mandateRead.mandate, inv.host.now, hash)
    && var k := ConsultedKey(inv, hash);
       !(k.Some? && inv.host.recordReadOk && k.value in st.dispatched)
  }

  /** Which error ends an invocation, if one does. */
  lemma ErrorsExact(st: State, inv: Invocation, hash: Binding.Hash)
    ensures var r, read := Answer(st, inv.req, inv.host, hash), inv.host.mandateRead;
            && (r == Err(MandateUnreadable) <==> read == ReadFails)
            && (r == Err(MandateMissing) <==> read == NotProvisioned)
            && (r == Err(MandateMalformed) <==> read == Malformed)
            && (r == Err(SecretUnreadable) <==>
                  && MustCall(st, inv, hash) && read.mandate.credentialKey != ""
                  && (inv.host.secretRead == SecretFails || inv.host.secretRead == SecretNotUtf8))
            && (r == Err(SecretMissing) <==>
                  && MustCall(st, inv, hash) && read.mandate.credentialKey != ""
                  && (inv.host.secretRead == SecretAbsent || inv.host.secretRead == SecretIs("")))
            && (r == Err(Crashed) <==>
                  && MustCall(st, inv, hash) && inv.host.recordWrite == Crash
                  && (read.mandate.credentialKey == ""
                      || (inv.host.secretRead.SecretIs? && inv.host.secretRead.value != "")))
  {
    hide Passes, KeyOf, AllReasons, Binding.ActionDigest;
  }

  /** What every reply carries. */
  lemma ReplyExact(st: State, inv: Invocation, hash: Binding.Hash)
    requires Answer(st, inv.req, inv.host, hash).Ok?
    ensures inv.host.mandateRead.Provisioned?
    ensures var r, m := Answer(st, inv.req, inv.host, hash).value, inv.host.mandateRead.mandate;
            && (r.approved <==> Passes(inv.req, m, inv.host.now, hash))
            && r.reasons == AllReasons(inv.req, m, inv.host.now, hash)
            && (r.dispatched <==> MustCall(st, inv, hash)) && (r.replayed <==> r.approved && !r.dispatched)
            && (r.response.Some? <==> r.approved) && (!r.approved ==> r.key == None)
            && r.evaluatedAt == inv.host.now && r.actionDigest == Binding.ActionDigest(inv.req.action, hash)
            && (r.commitment == None <==> inv.req.credential == None)
            && (r.commitment != None ==> r.commitment.value == inv.req.credential.value.commitment)
  {
    hide Passes, KeyOf, AllReasons, Binding.ActionDigest;
  }

  /** The secret is asked for once, by its name in the mandate, and only for a call that is to go out. */
  lemma SecretsAsked(st: State, inv: Invocation, hash: Binding.Hash)
    ensures Step(st, inv, hash).secretReads == st.secretReads +
            if MustCall(st, inv, hash) && inv.host.mandateRead.mandate.credentialKey != ""
            then [inv.host.mandateRead.mandate.credentialKey]
            else []
  {
    hide Passes, KeyOf, AllReasons, Binding.ActionDigest, Call;
    if inv.host.mandateRead.Provisioned? {
      PassesHasKey(inv.req, inv.host.mandateRead.mandate, inv.host.now, hash);
    }
  }

  /** The judgement in terms of its three parts, each with the requirement that the mandate makes. */
  lemma PassesExact(req: ExecuteReq, m: Mandate, now: U64, hash: Binding.Hash)
    ensures var k := if req.idempotencyKey.Some? then Trim(req.idempotencyKey.value) else "";
            Passes(req, m, now, hash) <==>
            && Approves(m, req.action, now)
            && (req.credential == None ==> !m.requireCredential)
            && (req.credential != None ==>
                  var b := req.credential.value;
                  && b.nonce != "" && b.commitment == Binding.ExpectedCommitment(b, req.action, hash)
                  && (req.action.issuer == None || req.action.issuer == Some(b.issuer)))
            && (if k == "" then !m.requireIdempotencyKey else ValidKey(k))
  {
    hide Approves, Trim, Binding.ExpectedCommitment, CheckIdempotency, ValidKey, Binding.CheckBinding;
    Binding.BindingExact(req.credential, req.action, m.requireCredential, hash);
    KeyOk(req.idempotencyKey, m.requireIdempotencyKey);
  }

  /** The reasons: first the policy's, then at most one about the binding, then at most one about the key. */
  lemma ReasonsExact(req: ExecuteReq, m: Mandate, now: U64, hash: Binding.Hash)
    ensures var notes, binding, key := AllReasons(req, m, now, hash), BindingOf(req, m, hash), KeyOf(req, m);
            && (forall e :: Credential(e) in notes <==> binding == Err(e))
            && (forall e :: Idempotency(e) in notes <==> key == Err(e))
            && (forall i, j :: 0 <= i < j < |notes| ==> (notes[j].Policy? ==> notes[i].Policy?))
            && (forall i, j :: 0 <= i < j < |notes| ==>
                  !notes[i].Idempotency? && !(notes[i].Credential? && notes[j].Credential?))
            && (forall why :: Policy(why) in notes <==>
                  why in Complaints(Broken(RULES, req.action, m, now), req.action, m))
  {
    hide Binding.CheckBinding, CheckIdempotency, Complaints, Broken;
    var policy := Complaints(Broken(RULES, req.action, m, now), req.action, m);
    var binding := match BindingOf(req, m, hash) case Err(e) => [Credential(e)] case Ok(_) => [];
    var key := match KeyOf(req, m) case Err(e) => [Idempotency(e)] case Ok(_) => [];
    assert AllReasons(req, m, now, hash) == Notes(policy) + binding + key;
    forall why ensures Policy(why) in Notes(policy) <==> why in policy {
      if why in policy {
        var i :| 0 <= i < |policy| && policy[i] == why;
        assert Notes(policy)[i] == Policy(why);
      }
    }
    hide BindingOf, KeyOf;
  }

  // ----- what every outbound call is justified by --------------------------------------------

  /** `verb` is the one of that name; a GET has any other name. */
  predicate NamedVerb(verb: Verb, name: string) {
    && (verb == Post <==> name == "POST") && (verb == Put <==> name == "PUT")
    && (verb == Patch <==> name == "PATCH") && (verb == Delete <==> name == "DELETE")
    && (verb == Get <==> name != "POST" && name != "PUT" && name != "PATCH" && name != "DELETE")
  }

  /** The call `o` was made for `inv`, whose mandate, clock, action, binding and key were in order. */
  ghost predicate Justified(o: Outbound, inv: Invocation, hash: Binding.Hash) {
    && inv.host.mandateRead.Provisioned?
    && var req, m := inv.req, inv.host.mandateRead.mandate;
       && Passes(req, m, inv.host.now, hash) && KeyOf(req, m) == Ok(o.key)
       && o.url == req.url && NamedVerb(o.verb, AsciiUppercase(req.methodName))
       && o.payload == (if req.body == "" then None else Some(req.body))
       && (o.via == HttpWithPlaceholders <==> exists i :: OccursAt(req.body, "{{profile.", i))
       && (o.authorization.Some? <==> m.credentialKey != "")
       && (o.authorization.Some? ==> inv.host.secretRead.SecretIs? && inv.host.secretRead.value != ""
                                     && o.authorization.value == "Bearer " + inv.host.secretRead.value)
  }

  lemma StepJustified(st: State, inv: Invocation, hash: Binding.Hash)
    requires Calls(st, inv, hash)
    ensures var authorization := Authorization(inv.host.mandateRead.mandate, inv.host.secretRead).value;
            var o := Call(inv.req, ConsultedKey(inv, hash), authorization);
            Step(st, inv, hash).log == st.log + [o] && Justified(o, inv, hash)
  {
    StepEffect(st, inv, hash);
    VerbExact(inv.req.methodName);
    PlaceholdersIff(inv.req.body);
    hide Passes, VerbOf, Contains, NeedsPlaceholders, OccursAt, AsciiUppercase, Step, Recorded, KeyOf;
    PassesHasKey(inv.req, inv.host.mandateRead.mandate, inv.host.now, hash);
  }

  /** The positions of the invocations of a run that make a call. */
  function CallingAt(st: State, invs: seq<Invocation>, hash: Binding.Hash): (at: seq<nat>)
    ensures forall i :: 0 <= i < |at| ==> at[i] < |invs|
    ensures forall i, j :: 0 <= i < j < |at| ==> at[i] < at[j]
  {
    if invs == [] then []
    else
      var before, last := invs[..|invs| - 1], |invs| - 1;
      CallingAt(st, before, hash) + if Calls(Run(st, before, hash), invs[last], hash) then [last] else []
  }

  ghost predicate AllJustified(log: seq<Outbound>, invs: seq<Invocation>, at: seq<nat>, hash: Binding.Hash) {
    && |at| == |log|
    && forall i :: 0 <= i < |log| ==> at[i] < |invs| && Justified(log[i], invs[at[i]], hash)
  }

  /**
   In every run, under whatever mandates and answers, each outbound call was made by an
   invocation of its own, in the order of the log, and is justified by it.
   */
  lemma {:induction false} CallsJustified(invs: seq<Invocation>, hash: Binding.Hash)
    ensures AllJustified(Run(EMPTY, invs, hash).log, invs, CallingAt(EMPTY, invs, hash), hash)
  {
    hide Step, Calls, Justified, ConsultedKey, Authorization, Call;
    if invs != [] {
      var before, inv := invs[..|invs| - 1], invs[|invs| - 1];
      var st, at := Run(EMPTY, before, hash), CallingAt(EMPTY, before, hash);
      CallsJustified(before, hash);
      StepEffect(st, inv, hash);
      if Calls(st, inv, hash) {
        StepJustified(st, inv, hash);
      }
      JustifiedStill(st.log, before, inv, at, hash);
    }
  }

  lemma JustifiedStill(log: seq<Outbound>, before: seq<Invocation>, inv: Invocation, at: seq<nat>, hash: Binding.Hash)
    requires AllJustified(log, before, at, hash)
    ensures AllJustified(log, before + [inv], at, hash)
    ensures forall o :: Justified(o, inv, hash) ==> AllJustified(log + [o], before + [inv], at + [|before|], hash)
  {
    hide Justified;
  }

  /**
   When the mandate lists issuers and a credential was bound, the issuer inside the
   binding is one the list allows, and the binding is the one for this very action.
   */
  lemma BoundIssuerAllowed(o: Outbound, inv: Invocation, hash: Binding.Hash)
    requires Justified(o, inv, hash) && inv.req.credential.Some? && inv.host.mandateRead.mandate.allowedIssuers != []
    ensures ListAllows(inv.host.mandateRead.mandate.allowedIssuers, inv.req.credential.value.issuer)
    ensures var credential := inv.req.credential.value;
            credential.commitment == Binding.ExpectedCommitment(credential, inv.req.action, hash)
  {
    assert Obeys(IssuerListed, inv.req.action, inv.host.mandateRead.mandate, inv.host.now) by {
      assert IssuerListed in RULES;
    }
  }

  /** Keys in the log are in normal form, so one key is never logged under two spellings. */
  lemma LoggedKeysNormal(o: Outbound, inv: Invocation, hash: Binding.Hash)
    requires Justified(o, inv, hash) && o.key.Some?
    ensures ValidKey(o.key.value) && CheckIdempotency(o.key, false) == Ok(o.key)
  {
    hide Passes, CheckIdempotency, ValidKey, Contains, VerbOf;
    KeyNormalised(inv.req.idempotencyKey, inv.host.mandateRead.mandate.requireIdempotencyKey, false);
  }

  /** An invocation that is not approved asks for no secret and changes nothing. */
  lemma RejectedTouchesNothing(st: State, inv: Invocation, hash: Binding.Hash)
    requires inv.host.mandateRead.Provisioned? ==> !Passes(inv.req, inv.host.mandateRead.mandate, inv.host.now, hash)
    ensures Step(st, inv, hash) == st
    ensures var r := Answer(st, inv.req, inv.host, hash);
            r.Ok? ==> !r.value.approved && !r.value.dispatched && !r.value.replayed && r.value.reasons != []
  {
    if inv.host.mandateRead.Provisioned? {
      RejectionHasReasons(inv.req, inv.host.mandateRead.mandate, inv.host.now, hash);
    }
    hide Passes, AllReasons, Binding.ActionDigest;
  }

  /** The reply gives no reason exactly when the action was approved. */
  lemma RejectionHasReasons(req: ExecuteReq, m: Mandate, now: U64, hash: Binding.Hash)
    ensures AllReasons(req, m, now, hash) == [] <==> Passes(req, m, now, hash)
  {
    NoReasons(req.action, m, now);
    hide Approves, Complaints, Broken, Binding.CheckBinding, CheckIdempotency;
  }

  class Enclave {
    var dispatched: map<string, HttpResponse>
    var log: seq<Outbound>
    var secretReads: seq<string>

    ghost function Now(): State
      reads this
    {
      State(dispatched, log, secretReads)
    }

    constructor ()
      ensures Now() == EMPTY
    {
      dispatched, log, secretReads := map[], [], [];
    }

    /** A failed read counts as no record. */
    method ReadDispatchRecord(key: string, readOk: bool) returns (r: Option<HttpResponse>)
      ensures r == if readOk && key in dispatched then Some(dispatched[key]) else None
    {
      if readOk && key in dispatched {
        return Some(dispatched[key]);
      }
      return None;
    }

    method WriteDispatchRecord(key: string, value: HttpResponse, outcome: RecordWrite) returns (ok: bool)
      modifies this`dispatched
      ensures dispatched == if outcome == WriteLost || outcome == Crash then old(dispatched)
                            else old(dispatched)[key := value]
      ensures ok == (outcome == WriteOk)
    {
      if outcome != WriteLost && outcome != Crash {
        dispatched := dispatched[key := value];
      }
      return outcome == WriteOk;
    }

    method ReadSecret(key: string, outcome: SecretRead) returns (r: Result<Option<string>, ExecError>)
      modifies this`secretReads
      ensures secretReads == old(secretReads) + [key]
      ensures r == if outcome == SecretFails || outcome == SecretNotUtf8 then Err(SecretUnreadable)
                   else Ok(Secret(outcome))
    {
      secretReads := secretReads + [key];
      match outcome
      case SecretFails => return Err(SecretUnreadable);
      case SecretNotUtf8 => return Err(SecretUnreadable);
      case SecretAbsent => return Ok(None);
      case SecretIs(v) => return Ok(Some(v));
    }

    method Send(call: Outbound, host: Host) returns (response: HttpResponse)
      modifies this`log
      ensures log == old(log) + [call] && response == host.http
    {
      log := log + [call];
      response := host.http;
    }

    /** The part of `execute_action` after the replay check. */
    method DispatchApproved(req: ExecuteReq, host: Host, m: Mandate, key: Option<string>)
      returns (r: Result<HttpResponse, ExecError>)
      modifies this
      ensures Now() == AfterDispatch(old(Now()), req, host, m, key)
      ensures r == match Authorization(m, host.secretRead)
                   case Err(e) => Err(e)
                   case Ok(_) => if host.recordWrite == Crash then Err(Crashed) else Ok(host.http)
    {
      hide NeedsPlaceholders, VerbOf;
      var verb := VerbOf(req.methodName);
      var secret: Option<string> := None;
      if m.credentialKey != "" {
        var read := ReadSecret(m.credentialKey, host.secretRead);
        if read.Err? {
          return Err(read.error);
        }
        secret := read.value;
      }
      var headers := AuthHeaders(m.credentialKey, secret);
      if headers.Err? {
        return Err(SecretMissing);
      }
      var viaPlaceholders := NeedsPlaceholders(req.body);
      var payload := if req.body == "" then None else Some(req.body);
      var response;
      if viaPlaceholders {
        response := Send(Outbound(key, HttpWithPlaceholders, verb, req.url, headers.value, payload), host);
      } else {
        response := Send(Outbound(key, Http, verb, req.url, headers.value, payload), host);
      }
      if host.recordWrite == Crash {
        return Err(Crashed);
      }
      if key.Some? {
        var _ := WriteDispatchRecord(key.value, response, host.recordWrite);
      }
      return Ok(response);
    }

    method ExecuteAction(req: ExecuteReq, host: Host, hash: Binding.Hash) returns (r: Result<Reply, ExecError>)
      modifies this
      ensures Now() == After(old(Now()), req, host, hash)
      ensures r == Answer(old(Now()), req, host, hash)
    {
      hide Passes, AllReasons, AfterDispatch, Authorization, KeyOf, BindingOf, Binding.ActionDigest;
      var m;
      match host.mandateRead {
        case ReadFails => return Err(MandateUnreadable);
        case NotProvisioned => return Err(MandateMissing);
        case Malformed => return Err(MandateMalformed);
        case Provisioned(stored) => m := stored;
      }
      var j := Judge(req, m, host.now, hash);
      PassesHasKey(req, m, host.now, hash);
      var out := Reply(j.approved, j.reasons, false, false, None, None, host.now,
                       if req.credential.Some? then Some(req.credential.value.commitment) else None,
                       Binding.ActionDigest(req.action, hash));
      if !j.approved {
        return Ok(out);
      }
      if j.key.Some? {
        var prev := ReadDispatchRecord(j.key.value, host.recordReadOk);
        if prev.Some? {
          return Ok(out.(replayed := true, key := j.key, response := prev));
        }
      }
      var sent := DispatchApproved(req, host, m, j.key);
      if sent.Err? {
        return Err(sent.error);
      }
      return Ok(out.(dispatched := true, key := j.key, response := Some(sent.value)));
    }
  }
}
