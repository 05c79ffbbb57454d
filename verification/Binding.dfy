/**
 The credential binding: a commitment over a credential and the action it was shown
 for, which the enclave recomputes from the action it decides on.
 */
module Binding {
  import opened Wrappers
  import opened Utf8
  import opened Texts
  import opened Mandates

  datatype CredentialBinding = CredentialBinding(
    issuer: string, subject: string, claimsDigest: string, nonce: string, commitment: string)

  datatype BindingError = BindingMissing | NonceEmpty | CommitmentMismatch | IssuerMismatch

  const BINDING_DOMAIN: string := "t3-gatekeeper/cred-binding/v1"

  /** SHA-256 followed by hex: any function from bytes to text. */
  type Hash = seq<Byte> -> string

  ghost predicate CollisionFree(hash: Hash) {
    forall x, y {:trigger hash(x), hash(y)} :: hash(x) == hash(y) ==> x == y
  }

  // ----- the preimage -----------------------------------------------------------------

  /** The low `k` bytes of `n`, most significant first. */
  function BigEndian(n: nat, k: nat): (b: seq<Byte>)
    ensures |b| == k
  {
    if k == 0 then [] else BigEndian(n / 0x100, k - 1) + [n % 0x100]
  }

  function Power256(k: nat): nat {
    if k == 0 then 1 else 0x100 * Power256(k - 1)
  }

  /** The number a sequence of bytes denotes, its first byte being the most significant. */
  function Denoted(b: seq<Byte>): nat {
    if b == [] then 0 else b[0] * Power256(|b| - 1) + Denoted(b[1..])
  }

  lemma {:induction false} DenotedAppend(b: seq<Byte>, x: Byte)
    ensures Denoted(b + [x]) == 0x100 * Denoted(b) + x
  {
    if b == [] {
      assert b + [x] == [x];
    } else {
      assert (b + [x])[1..] == b[1..] + [x];
      DenotedAppend(b[1..], x);
      var k := Power256(|b| - 1);
      assert b[0] * (0x100 * k) == 0x100 * (b[0] * k);
    }
  }

  lemma {:induction false} BigEndianDenotes(n: nat, k: nat)
    requires n < Power256(k)
    ensures Denoted(BigEndian(n, k)) == n
  {
    if k > 0 {
      BigEndianDenotes(n / 0x100, k - 1);
      DenotedAppend(BigEndian(n / 0x100, k - 1), n % 0x100);
    }
  }

  /** `(p.len() as u64).to_be_bytes()`. */
  function LengthPrefix(part: seq<Byte>): (b: seq<Byte>)
    ensures |b| == 8
  {
    BigEndian(|part|, 8)
  }

  function Preimage(parts: seq<seq<Byte>>): seq<Byte> {
    if parts == [] then [] else LengthPrefix(parts[0]) + parts[0] + Preimage(parts[1..])
  }

  /** Every part fits an address space of 64 bits. */
  predicate Addressable(parts: seq<seq<Byte>>) {
    forall i :: 0 <= i < |parts| ==> |parts[i]| <= MAX_U64
  }

  lemma SplitsAlike(p: seq<Byte>, q: seq<Byte>, x: seq<Byte>, y: seq<Byte>)
    requires |p| <= MAX_U64 && |q| <= MAX_U64
    requires LengthPrefix(p) + p + x == LengthPrefix(q) + q + y
    ensures p == q && x == y
  {
    var a, b := LengthPrefix(p) + p + x, LengthPrefix(q) + q + y;
    assert LengthPrefix(p) == a[..8] && LengthPrefix(q) == b[..8];
    assert Power256(8) == MAX_U64 + 1;
    BigEndianDenotes(|p|, 8);
    BigEndianDenotes(|q|, 8);
    assert p == a[8..8 + |p|] && q == b[8..8 + |q|];
    assert x == a[8 + |p|..] && y == b[8 + |q|..];
  }

  /** The length prefixes make the preimage determine the parts, however many there are. */
  lemma {:induction false} PreimageInjective(ps: seq<seq<Byte>>, qs: seq<seq<Byte>>)
    requires Addressable(ps) && Addressable(qs)
    ensures Preimage(ps) == Preimage(qs) <==> ps == qs
  {
    if Preimage(ps) == Preimage(qs) && ps != [] && qs != [] {
      SplitsAlike(ps[0], qs[0], Preimage(ps[1..]), Preimage(qs[1..]));
      PreimageInjective(ps[1..], qs[1..]);
      assert ps == [ps[0]] + ps[1..] && qs == [qs[0]] + qs[1..];
    }
  }

  lemma {:induction false} PreimageAppend(ps: seq<seq<Byte>>, q: seq<Byte>)
    ensures Preimage(ps + [q]) == Preimage(ps) + LengthPrefix(q) + q
  {
    if ps == [] {
      assert ps + [q] == [q];
    } else {
      assert (ps + [q])[1..] == ps[1..] + [q];
      PreimageAppend(ps[1..], q);
    }
  }

  function AllBytes(parts: seq<string>): (bs: seq<seq<Byte>>)
    ensures |bs| == |parts| && forall i :: 0 <= i < |parts| ==> bs[i] == StringBytes(parts[i])
  {
    seq(|parts|, i requires 0 <= i < |parts| => StringBytes(parts[i]))
  }

  function Sha256Hex(parts: seq<string>, hash: Hash): string {
    hash(Preimage(AllBytes(parts)))
  }

  /** `sha256_hex`: the hasher is fed part by part; its state stands for the bytes fed so far. */
  method FeedAndHash(parts: seq<string>, hash: Hash) returns (digest: string)
    ensures digest == Sha256Hex(parts, hash)
  {
    var fed: seq<Byte> := [];
    var i := 0;
    while i < |parts|
      invariant 0 <= i <= |parts|
      invariant fed == Preimage(AllBytes(parts[..i]))
    {
      var bytes := StringBytes(parts[i]);
      assert AllBytes(parts[..i + 1]) == AllBytes(parts[..i]) + [bytes];
      PreimageAppend(AllBytes(parts[..i]), bytes);
      fed := fed + LengthPrefix(bytes);
      fed := fed + bytes;
      i := i + 1;
    }
    assert parts[..i] == parts;
    digest := hash(fed);
  }

  // ----- digests and commitments ----------------------------------------------------------

  function CounterpartyText(a: Action): string {
    match a.counterparty
    case Some(cp) => cp
    case None => ""
  }

  function ActionParts(a: Action): seq<string> {
    [a.kind, a.asset, ToDecimal(a.amountCents), CounterpartyText(a)]
  }

  function ActionDigest(a: Action, hash: Hash): string {
    Sha256Hex(ActionParts(a), hash)
  }

  function CommitmentParts(b: CredentialBinding, a: Action, hash: Hash): seq<string> {
    [BINDING_DOMAIN, b.issuer, b.subject, b.claimsDigest, ActionDigest(a, hash), b.nonce]
  }

  function ExpectedCommitment(b: CredentialBinding, a: Action, hash: Hash): string {
    Sha256Hex(CommitmentParts(b, a, hash), hash)
  }

  /** `check_binding`. */
  function CheckBinding(binding: Option<CredentialBinding>, a: Action, required: bool, hash: Hash)
    : (r: Result<(), BindingError>)
    ensures r == Err(BindingMissing) <==> binding == None && required
    ensures binding.Some? && r.Ok? ==>
              binding.value.commitment == ExpectedCommitment(binding.value, a, hash)
              && (a.issuer.Some? ==> a.issuer.value == binding.value.issuer)
  {
    match binding
    case None => if required then Err(BindingMissing) else Ok(())
    case Some(b) =>
      if b.nonce == "" then Err(NonceEmpty)
      else if ExpectedCommitment(b, a, hash) != b.commitment then Err(CommitmentMismatch)
      else if a.issuer.Some? && a.issuer.value != b.issuer then Err(IssuerMismatch)
      else Ok(())
  }

  // ----- what a commitment pins ----------------------------------------------------------------

  /** What `check_binding` answers in every case. */
  lemma BindingExact(binding: Option<CredentialBinding>, a: Action, required: bool, hash: Hash)
    ensures var r := CheckBinding(binding, a, required, hash);
            if binding == None then r == if required then Err(BindingMissing) else Ok(())
            else
              var b := binding.value;
              && (r == Err(NonceEmpty) <==> b.nonce == "")
              && (r == Err(CommitmentMismatch) <==> b.nonce != "" && b.commitment != ExpectedCommitment(b, a, hash))
              && (r == Err(IssuerMismatch) <==>
                    && b.nonce != "" && b.commitment == ExpectedCommitment(b, a, hash)
                    && a.issuer != None && a.issuer != Some(b.issuer))
              && (r == Ok(()) <==>
                    && b.nonce != "" && b.commitment == ExpectedCommitment(b, a, hash)
                    && (a.issuer == None || a.issuer == Some(b.issuer)))
  {
    hide ExpectedCommitment;
  }

  /** The terms a commitment covers: a missing counterparty counts as an empty one. */
  predicate SameTerms(a1: Action, a2: Action) {
    a1.kind == a2.kind && a1.asset == a2.asset && a1.amountCents == a2.amountCents
    && CounterpartyText(a1) == CounterpartyText(a2)
  }

  /** Strings in memory have addressable bytes. */
  predicate Stored(parts: seq<string>) {
    Addressable(AllBytes(parts))
  }

  lemma DigestsPinParts(ps: seq<string>, qs: seq<string>, hash: Hash)
    requires CollisionFree(hash) && Stored(ps) && Stored(qs)
    ensures Sha256Hex(ps, hash) == Sha256Hex(qs, hash) <==> ps == qs
  {
    if Sha256Hex(ps, hash) == Sha256Hex(qs, hash) {
      var bs, cs := AllBytes(ps), AllBytes(qs);
      PreimageInjective(bs, cs);
      forall i | 0 <= i < |ps| ensures i < |qs| && ps[i] == qs[i] {
        assert bs[i] == cs[i];
        StringBytesInjective(ps[i], qs[i]);
      }
      assert |ps| == |qs|;
    }
  }

  /** The action digest pins kind, asset, amount and counterparty, and nothing else. */
  lemma ActionDigestPins(a1: Action, a2: Action, hash: Hash)
    requires CollisionFree(hash) && Stored(ActionParts(a1)) && Stored(ActionParts(a2))
    ensures ActionDigest(a1, hash) == ActionDigest(a2, hash) <==> SameTerms(a1, a2)
  {
    var ps, qs := ActionParts(a1), ActionParts(a2);
    DigestsPinParts(ps, qs, hash);
    ToDecimalInjective(a1.amountCents, a2.amountCents);
    if ps == qs {
      assert ps[0] == qs[0] && ps[1] == qs[1] && ps[2] == qs[2] && ps[3] == qs[3];
    }
  }

  /** All the text a commitment is computed from is in memory. */
  predicate InMemory(b: CredentialBinding, a: Action, hash: Hash) {
    Stored(CommitmentParts(b, a, hash)) && Stored(ActionParts(a))
  }

  /** Two commitments agree exactly when the credentials and the terms do. */
  lemma CommitmentPins(b1: CredentialBinding, a1: Action, b2: CredentialBinding, a2: Action, hash: Hash)
    requires CollisionFree(hash) && InMemory(b1, a1, hash) && InMemory(b2, a2, hash)
    ensures ExpectedCommitment(b1, a1, hash) == ExpectedCommitment(b2, a2, hash)
            <==> b1.(commitment := "") == b2.(commitment := "") && SameTerms(a1, a2)
  {
    var ps, qs := CommitmentParts(b1, a1, hash), CommitmentParts(b2, a2, hash);
    DigestsPinParts(ps, qs, hash);
    ActionDigestPins(a1, a2, hash);
    if ps == qs {
      assert ps[1] == qs[1] && ps[2] == qs[2] && ps[3] == qs[3] && ps[4] == qs[4] && ps[5] == qs[5];
    }
  }

  /**
   A binding accepted for one action is accepted for another exactly when the terms are
   the same and the other action names no other issuer.
   */
  lemma OneBindingOneAction(b: CredentialBinding, a1: Action, a2: Action, required: bool, hash: Hash)
    requires CollisionFree(hash) && InMemory(b, a1, hash) && InMemory(b, a2, hash)
    requires CheckBinding(Some(b), a1, required, hash).Ok?
    ensures CheckBinding(Some(b), a2, required, hash).Ok?
            <==> SameTerms(a1, a2) && (a2.issuer == None || a2.issuer == Some(b.issuer))
  {
    CommitmentPins(b, a1, b, a2, hash);
  }

  /** A commitment cannot be presented with another issuer, subject, claims or nonce. */
  lemma CommitmentNotTransferable(b: CredentialBinding, c: CredentialBinding, a1: Action, a2: Action,
                                  required: bool, hash: Hash)
    requires CollisionFree(hash) && InMemory(b, a1, hash) && InMemory(c, a2, hash) && b.commitment == c.commitment
    requires CheckBinding(Some(b), a1, required, hash).Ok? && CheckBinding(Some(c), a2, required, hash).Ok?
    ensures b == c && SameTerms(a1, a2)
  {
    CommitmentPins(b, a1, c, a2, hash);
  }
}
