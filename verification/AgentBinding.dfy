/**
 The agent's side of the credential binding (`credential-binding.mjs`), and that it
 agrees with the enclave's: what the agent commits to is what the enclave recomputes.

 JavaScript strings are sequences of code units.  An action and a binding reach the
 enclave as JSON, which carries a string unless it has a lone surrogate, and an amount
 by the decimal text that `String` gives as well.
 */
module AgentBinding {
  import opened Wrappers
  import opened Utf8
  import opened Texts
  import opened Mandates
  import Binding

  type JsText = seq<CodeUnit>

  /** The properties of an action object that the agent or the enclave reads; each may be missing. */
  datatype AgentAction = AgentAction(
    kind: Option<JsText>, asset: Option<JsText>, amountCents: Option<U64>, counterparty: Option<JsText>,
    issuer: Option<JsText>)

  datatype AgentCredential = AgentCredential(
    issuer: JsText, subject: JsText, claimsDigest: JsText, nonce: JsText, commitment: JsText)

  datatype BindError = NotVerified | IssuerAndSubjectRequired

  /** A Rust string as JavaScript text. */
  function Js(s: string): JsText {
    Units(ToScalars(s))
  }

  function OrEmpty(t: Option<JsText>): JsText {
    if t.Some? then t.value else []
  }

  // ----- digests ------------------------------------------------------------------------

  /** `writeBigUInt64BE`. */
  function BigUInt64BE(n: nat): (b: seq<Byte>)
    ensures |b| == 8
  {
    [n / 0x100_0000_0000_0000 % 0x100, n / 0x1_0000_0000_0000 % 0x100, n / 0x100_0000_0000 % 0x100,
     n / 0x1_0000_0000 % 0x100, n / 0x100_0000 % 0x100, n / 0x1_0000 % 0x100, n / 0x100 % 0x100, n % 0x100]
  }

  /** The bytes the agent's hasher has been fed after these parts. */
  function Fed(parts: seq<JsText>): seq<Byte> {
    if parts == [] then []
    else
      var last := EncodeUnits(parts[|parts| - 1]);
      Fed(parts[..|parts| - 1]) + BigUInt64BE(|last|) + last
  }

  function Digest(parts: seq<JsText>, hash: Binding.Hash): JsText {
    Js(hash(Fed(parts)))
  }

  /** `sha256Hex` of the agent. */
  method Sha256Hex(parts: seq<JsText>, hash: Binding.Hash) returns (digest: JsText)
    ensures digest == Digest(parts, hash)
  {
    var fed: seq<Byte> := [];
    for i := 0 to |parts|
      invariant fed == Fed(parts[..i])
    {
      assert parts[..i + 1][..i] == parts[..i];
      var bytes := EncodeUnits(parts[i]);
      fed := fed + BigUInt64BE(|bytes|) + bytes;
    }
    assert parts[..|parts|] == parts;
    digest := Js(hash(fed));
  }

  function ActionDigest(a: AgentAction, hash: Binding.Hash): JsText {
    Digest([OrEmpty(a.kind), OrEmpty(a.asset), Js(ToDecimal(if a.amountCents.Some? then a.amountCents.value else 0)),
            OrEmpty(a.counterparty)], hash)
  }

  function ExpectedCommitment(b: AgentCredential, a: AgentAction, hash: Binding.Hash): JsText {
    Digest([Js("t3-gatekeeper/cred-binding/v1"), b.issuer, b.subject, b.claimsDigest, ActionDigest(a, hash), b.nonce],
           hash)
  }

  // ----- binding a credential --------------------------------------------------------------

  function HexDigit(d: nat): CodeUnit
    requires d < 16
  {
    if d < 10 then '0' as int + d else 'a' as int + (d - 10)
  }

  /** `toString("hex")`. */
  function Hex(bytes: seq<Byte>): (t: JsText)
    ensures |t| == 2 * |bytes|
  {
    seq(2 * |bytes|, i requires 0 <= i < 2 * |bytes| =>
      HexDigit(if i % 2 == 0 then bytes[i / 2] / 0x10 else bytes[i / 2] % 0x10))
  }

  /** 16 random bytes. */
  type Seed = b: seq<Byte> | |b| == 16 witness seq(16, _ => 0)

  /** `bindCredential`; the claims enter by their digest. */
  method BindCredential(issuer: Option<JsText>, subject: Option<JsText>, claims: JsText, verified: bool,
                        a: AgentAction, seed: Seed, hash: Binding.Hash)
    returns (r: Result<AgentCredential, BindError>)
    ensures r == Err(NotVerified) <==> !verified
    ensures r == Err(IssuerAndSubjectRequired) <==> verified && (OrEmpty(issuer) == [] || OrEmpty(subject) == [])
    ensures r.Ok? ==> Bound(r.value, OrEmpty(issuer), OrEmpty(subject), claims, a, seed, hash)
  {
    if !verified {
      return Err(NotVerified);
    }
    if issuer == None || issuer.value == [] || subject == None || subject.value == [] {
      return Err(IssuerAndSubjectRequired);
    }
    var binding := AgentCredential(issuer.value, subject.value, claims, Hex(seed), []);
    binding := binding.(commitment := ExpectedCommitment(binding, a, hash));
    return Ok(binding);
  }

  /** What `bindCredential` returns: the credential under a nonce, committed to together with the action. */
  predicate Bound(b: AgentCredential, issuer: JsText, subject: JsText, claims: JsText, a: AgentAction, seed: Seed,
                  hash: Binding.Hash) {
    && b.issuer == issuer && b.subject == subject && b.claimsDigest == claims && b.nonce == Hex(seed)
    && b.commitment == ExpectedCommitment(b, a, hash)
  }

  // ----- what the enclave receives -----------------------------------------------------------

  /** `r` is the text `t` as a Rust string; text with a lone surrogate is none. */
  predicate Carries(t: JsText, r: string) {
    NoLoneSurrogates(t) && ToScalars(r) == Scalars(t)
  }

  predicate CarriesOption(t: Option<JsText>, r: Option<string>) {
    match t
    case None => r == None
    case Some(text) => r.Some? && Carries(text, r.value)
  }

  /** The enclave decodes the agent's action as `e`: kind, asset and amount must be there. */
  predicate Received(a: AgentAction, e: Action) {
    && a.kind.Some? && Carries(a.kind.value, e.kind) && a.asset.Some? && Carries(a.asset.value, e.asset)
    && a.amountCents == Some(e.amountCents) && CarriesOption(a.counterparty, e.counterparty)
    && CarriesOption(a.issuer, e.issuer)
  }

  predicate ReceivedCredential(b: AgentCredential, e: Binding.CredentialBinding) {
    && Carries(b.issuer, e.issuer) && Carries(b.subject, e.subject) && Carries(b.claimsDigest, e.claimsDigest)
    && Carries(b.nonce, e.nonce) && Carries(b.commitment, e.commitment)
  }

  lemma CarriesJs(s: string, t: string)
    ensures Carries(Js(s), t) <==> s == t
  {
    ScalarsUnits(ToScalars(s));
    if ToScalars(t) == ToScalars(s) {
      assert forall i :: 0 <= i < |t| ==> t[i] as int == ToScalars(s)[i];
    }
  }

  lemma CarriesUnique(t: JsText, r: string)
    requires Carries(t, r)
    ensures t == Js(r)
  {
    UnitsScalars(t);
  }

  lemma SameBytes(t: JsText, r: string)
    requires Carries(t, r)
    ensures EncodeUnits(t) == StringBytes(r)
  {
  }

  // ----- agreement ------------------------------------------------------------------------------

  lemma LastByte(n: nat, k: nat)
    ensures Binding.BigEndian(n, k + 1) == Binding.BigEndian(n / 0x100, k) + [n % 0x100]
  {
  }

  lemma SameLengthPrefix(n: nat)
    ensures BigUInt64BE(n) == Binding.BigEndian(n, 8)
  {
    hide Binding.BigEndian;
    LastByte(n, 7);
    LastByte(n / 0x100, 6);
    assert n / 0x1_0000 == n / 0x100 / 0x100;
    LastByte(n / 0x1_0000, 5);
    assert n / 0x100_0000 == n / 0x1_0000 / 0x100;
    LastByte(n / 0x100_0000, 4);
    assert n / 0x1_0000_0000 == n / 0x100_0000 / 0x100;
    LastByte(n / 0x1_0000_0000, 3);
    assert n / 0x100_0000_0000 == n / 0x1_0000_0000 / 0x100;
    LastByte(n / 0x100_0000_0000, 2);
    assert n / 0x1_0000_0000_0000 == n / 0x100_0000_0000 / 0x100;
    LastByte(n / 0x1_0000_0000_0000, 1);
    assert n / 0x100_0000_0000_0000 == n / 0x1_0000_0000_0000 / 0x100;
    LastByte(n / 0x100_0000_0000_0000, 0);
    assert |Binding.BigEndian(n / 0x100_0000_0000_0000 / 0x100, 0)| == 0;
  }

  predicate CarriesAll(ts: seq<JsText>, rs: seq<string>) {
    |ts| == |rs| && forall i :: 0 <= i < |ts| ==> Carries(ts[i], rs[i])
  }

  /** Feeding part by part from either end gives the same preimage. */
  lemma {:induction false} FedIsPreimage(ts: seq<JsText>, rs: seq<string>)
    requires CarriesAll(ts, rs)
    ensures Fed(ts) == Binding.Preimage(Binding.AllBytes(rs))
  {
    hide EncodeUnits, StringBytes, Carries;
    if ts != [] {
      var n := |ts| - 1;
      FedIsPreimage(ts[..n], rs[..n]);
      SameBytes(ts[n], rs[n]);
      SameLengthPrefix(|EncodeUnits(ts[n])|);
      assert Binding.AllBytes(rs) == Binding.AllBytes(rs[..n]) + [StringBytes(rs[n])];
      Binding.PreimageAppend(Binding.AllBytes(rs[..n]), StringBytes(rs[n]));
    }
  }

  lemma DigestsAgree(ts: seq<JsText>, rs: seq<string>, hash: Binding.Hash)
    requires CarriesAll(ts, rs)
    ensures Digest(ts, hash) == Js(Binding.Sha256Hex(rs, hash))
  {
    FedIsPreimage(ts, rs);
  }

  lemma ActionDigestsAgree(a: AgentAction, e: Action, hash: Binding.Hash)
    requires Received(a, e)
    ensures ActionDigest(a, hash) == Js(Binding.ActionDigest(e, hash))
  {
    hide Carries, Digest;
    CarriesJs("", "");
    assert Js("") == [];
    CarriesJs(ToDecimal(e.amountCents), ToDecimal(e.amountCents));
    DigestsAgree([OrEmpty(a.kind), OrEmpty(a.asset), Js(ToDecimal(e.amountCents)), OrEmpty(a.counterparty)],
                 Binding.ActionParts(e), hash);
  }

  /** Both languages compute the same commitment. */
  lemma CommitmentsAgree(b: AgentCredential, c: Binding.CredentialBinding, a: AgentAction, e: Action,
                         hash: Binding.Hash)
    requires Received(a, e) && ReceivedCredential(b, c)
    ensures ExpectedCommitment(b, a, hash) == Js(Binding.ExpectedCommitment(c, e, hash))
  {
    hide Carries, Digest, Received;
    var digest := Binding.ActionDigest(e, hash);
    ActionDigestsAgree(a, e, hash);
    CarriesJs(digest, digest);
    CarriesJs(Binding.BINDING_DOMAIN, Binding.BINDING_DOMAIN);
    DigestsAgree([Js("t3-gatekeeper/cred-binding/v1"), b.issuer, b.subject, b.claimsDigest, Js(digest), b.nonce],
                 Binding.CommitmentParts(c, e, hash), hash);
  }

  lemma BoundCarried(b: AgentCredential, issuer: JsText, subject: JsText, claims: JsText, a: AgentAction, seed: Seed,
                     c: Binding.CredentialBinding, e: Action, hash: Binding.Hash)
    requires Bound(b, issuer, subject, claims, a, seed, hash) && Received(a, e) && ReceivedCredential(b, c)
    ensures c.nonce != "" && c.commitment == Binding.ExpectedCommitment(c, e, hash)
    ensures b == AgentCredential(Js(c.issuer), Js(c.subject), Js(c.claimsDigest), Js(c.nonce), Js(c.commitment))
  {
    CommitmentsAgree(b, c, a, e, hash);
    CarriesJs(Binding.ExpectedCommitment(c, e, hash), c.commitment);
    CarriesUnique(b.issuer, c.issuer);
    CarriesUnique(b.subject, c.subject);
    CarriesUnique(b.claimsDigest, c.claimsDigest);
    CarriesUnique(b.nonce, c.nonce);
    CarriesUnique(b.commitment, c.commitment);
    assert |b.nonce| == 32;
    hide ExpectedCommitment, Binding.ExpectedCommitment, Carries, Received;
  }

  /**
   A binding the agent built is accepted by the enclave for its action, unless that names
   another issuer, whether or not the mandate requires a binding.
   */
  lemma BoundIsAccepted(b: AgentCredential, issuer: JsText, subject: JsText, claims: JsText, a: AgentAction, seed: Seed,
                        c: Binding.CredentialBinding, e: Action, required: bool, hash: Binding.Hash)
    requires Bound(b, issuer, subject, claims, a, seed, hash) && Received(a, e) && ReceivedCredential(b, c)
    ensures Binding.CheckBinding(Some(c), e, required, hash).Ok? <==> e.issuer == None || e.issuer == Some(c.issuer)
  {
    hide Bound, Received, ReceivedCredential, Binding.ExpectedCommitment;
    BoundCarried(b, issuer, subject, claims, a, seed, c, e, hash);
  }

  /** And it is accepted for another action exactly when that has the same terms and names no other issuer. */
  lemma BoundIsForItsAction(b: AgentCredential, issuer: JsText, subject: JsText, claims: JsText, a: AgentAction,
                            seed: Seed, c: Binding.CredentialBinding, e: Action, other: Action, required: bool,
                            hash: Binding.Hash)
    requires Bound(b, issuer, subject, claims, a, seed, hash) && Received(a, e) && ReceivedCredential(b, c)
    requires Binding.CollisionFree(hash) && Binding.InMemory(c, e, hash) && Binding.InMemory(c, other, hash)
    ensures Binding.CheckBinding(Some(c), other, required, hash).Ok?
            <==> Binding.SameTerms(e, other) && (other.issuer == None || other.issuer == Some(c.issuer))
  {
    hide Bound, Received, ReceivedCredential, Binding.ExpectedCommitment, Binding.CollisionFree, Binding.InMemory;
    BoundCarried(b, issuer, subject, claims, a, seed, c, e, hash);
    Binding.CommitmentPins(c, e, c, other, hash);
  }

  lemma HexInjective(x: seq<Byte>, y: seq<Byte>)
    ensures Hex(x) == Hex(y) <==> x == y
  {
    if Hex(x) == Hex(y) {
      forall k | 0 <= k < |x| ensures x[k] == y[k] {
        assert Hex(x)[2 * k] == Hex(y)[2 * k] && Hex(x)[2 * k + 1] == Hex(y)[2 * k + 1];
      }
    }
  }

  /**
   Two bindings the agent built carry the same commitment exactly when credential, nonce
   and terms are the same; a fresh nonce makes every commitment a new one.
   */
  lemma CommitmentsSeparate(
    b1: AgentCredential, a1: AgentAction, seed1: Seed, c1: Binding.CredentialBinding, e1: Action,
    b2: AgentCredential, a2: AgentAction, seed2: Seed, c2: Binding.CredentialBinding, e2: Action, hash: Binding.Hash)
    requires Bound(b1, b1.issuer, b1.subject, b1.claimsDigest, a1, seed1, hash)
    requires Bound(b2, b2.issuer, b2.subject, b2.claimsDigest, a2, seed2, hash)
    requires Received(a1, e1) && ReceivedCredential(b1, c1) && Received(a2, e2) && ReceivedCredential(b2, c2)
    requires Binding.CollisionFree(hash) && Binding.InMemory(c1, e1, hash) && Binding.InMemory(c2, e2, hash)
    ensures b1.commitment == b2.commitment <==>
            && b1.issuer == b2.issuer && b1.subject == b2.subject && b1.claimsDigest == b2.claimsDigest
            && seed1 == seed2 && Binding.SameTerms(e1, e2)
  {
    assert b1.nonce == Hex(seed1) && b2.nonce == Hex(seed2);
    hide Bound, Received, ReceivedCredential, Binding.ExpectedCommitment, Binding.CollisionFree, Binding.InMemory, Hex;
    BoundCarried(b1, b1.issuer, b1.subject, b1.claimsDigest, a1, seed1, c1, e1, hash);
    BoundCarried(b2, b2.issuer, b2.subject, b2.claimsDigest, a2, seed2, c2, e2, hash);
    Binding.CommitmentPins(c1, e1, c2, e2, hash);
    HexInjective(seed1, seed2);
    JsInjective(c1.commitment, c2.commitment);
    JsInjective(c1.issuer, c2.issuer);
    JsInjective(c1.subject, c2.subject);
    JsInjective(c1.claimsDigest, c2.claimsDigest);
    JsInjective(c1.nonce, c2.nonce);
  }

  lemma JsInjective(s: string, t: string)
    ensures Js(s) == Js(t) <==> s == t
  {
    CarriesJs(s, s);
    CarriesJs(s, t);
    CarriesJs(t, t);
  }
}
