/**
 The policy (`decide`): which actions a mandate allows, and the reasons given when it
 does not.
 */
module Mandates {
  import opened Wrappers

  const MAX_U64: nat := 0xFFFF_FFFF_FFFF_FFFF

  /** Rust's `u64`. */
  type U64 = n: nat | n <= MAX_U64

  datatype Action = Action(kind: string, asset: string, amountCents: U64, counterparty: Option<string>,
                           issuer: Option<string>)

  datatype Mandate = Mandate(
    maxAmountCents: U64,
    allowedAssets: seq<string>,
    allowedKinds: seq<string>,
    allowedCounterparties: seq<string>,
    allowedIssuers: seq<string>,
    counterpartyLimits: map<string, U64>,
    expiresAtSecs: U64,
    validAfterSecs: U64,
    credentialKey: string,
    requireCredential: bool,
    requireIdempotencyKey: bool)

  /** One tag for each message `decide` can give. */
  datatype Reason =
    | NotActiveUntil(t: U64)
    | ExpiredAt(t: U64)
    | KindNotPermitted(kind: string)
    | AssetNotPermitted(asset: string)
    | CounterpartyNotPermitted(counterparty: string)
    | CounterpartyMissing
    | IssuerNotTrusted(issuer: string)
    | IssuerMissing
    | AmountExceedsMax(max: U64)
    | AmountExceedsSubLimit(limit: U64, counterparty: string)

  /** An empty list allows nothing, `"*"` anything. */
  function ListAllows(list: seq<string>, value: string): (allowed: bool)
    ensures allowed <==> "*" in list || value in list
  {
    list != [] && (list[0] == "*" || list[0] == value || ListAllows(list[1..], value))
  }

  // ----- the rules --------------------------------------------------------------------

  /** The eight rules, in the order `decide` reports them. */
  datatype Rule =
    | NotBefore
    | NotAfter
    | KindListed
    | AssetListed
    | PayeeListed
    | IssuerListed
    | WithinMax
    | WithinSubLimit

  const RULES: seq<Rule> :=
    [NotBefore, NotAfter, KindListed, AssetListed, PayeeListed, IssuerListed, WithinMax, WithinSubLimit]

  /** An opt-in list: empty means any value, or none, will do. */
  predicate OptInAllows(list: seq<string>, value: Option<string>) {
    list == [] || (value.Some? && ListAllows(list, value.value))
  }

  predicate Obeys(rule: Rule, a: Action, m: Mandate, now: U64) {
    match rule
    case NotBefore => m.validAfterSecs <= now
    case NotAfter => m.expiresAtSecs == 0 || now <= m.expiresAtSecs
    case KindListed => ListAllows(m.allowedKinds, a.kind)
    case AssetListed => ListAllows(m.allowedAssets, a.asset)
    case PayeeListed => OptInAllows(m.allowedCounterparties, a.counterparty)
    case IssuerListed => OptInAllows(m.allowedIssuers, a.issuer)
    case WithinMax => a.amountCents <= m.maxAmountCents
    case WithinSubLimit =>
      a.counterparty.Some? && a.counterparty.value in m.counterpartyLimits ==>
        a.amountCents <= m.counterpartyLimits[a.counterparty.value]
  }

  /** The reason given when `rule` fails. */
  function Complaint(rule: Rule, a: Action, m: Mandate): Reason {
    match rule
    case NotBefore => NotActiveUntil(m.validAfterSecs)
    case NotAfter => ExpiredAt(m.expiresAtSecs)
    case KindListed => KindNotPermitted(a.kind)
    case AssetListed => AssetNotPermitted(a.asset)
    case PayeeListed =>
      (match a.counterparty case Some(cp) => CounterpartyNotPermitted(cp) case None => CounterpartyMissing)
    case IssuerListed => (match a.issuer case Some(i) => IssuerNotTrusted(i) case None => IssuerMissing)
    case WithinMax => AmountExceedsMax(m.maxAmountCents)
    case WithinSubLimit =>
      var cp := if a.counterparty.Some? then a.counterparty.value else "";
      AmountExceedsSubLimit(if cp in m.counterpartyLimits then m.counterpartyLimits[cp] else 0, cp)
  }

  /** The rules of `rules` that fail, in order. */
  function Broken(rules: seq<Rule>, a: Action, m: Mandate, now: U64): (broken: seq<Rule>)
    ensures forall r :: r in broken <==> r in rules && !Obeys(r, a, m, now)
  {
    if rules == [] then []
    else
      assert rules == [rules[0]] + rules[1..];
      (if Obeys(rules[0], a, m, now) then [] else [rules[0]]) + Broken(rules[1..], a, m, now)
  }

  function Complaints(rules: seq<Rule>, a: Action, m: Mandate): (reasons: seq<Reason>)
    ensures |reasons| == |rules| && forall i :: 0 <= i < |rules| ==> reasons[i] == Complaint(rules[i], a, m)
  {
    seq(|rules|, i requires 0 <= i < |rules| => Complaint(rules[i], a, m))
  }

  predicate Approves(m: Mandate, a: Action, now: U64) {
    forall r :: r in RULES ==> Obeys(r, a, m, now)
  }

  /** The reasons due to the first `k` rules. */
  ghost function Reasons(k: nat, a: Action, m: Mandate, now: U64): seq<Reason>
    requires k <= |RULES|
  {
    Complaints(Broken(RULES[..k], a, m, now), a, m)
  }

  lemma {:induction false} BrokenAppend(rules: seq<Rule>, rule: Rule, a: Action, m: Mandate, now: U64)
    ensures Broken(rules + [rule], a, m, now) == Broken(rules, a, m, now)
            + if Obeys(rule, a, m, now) then [] else [rule]
  {
    if rules == [] {
      assert rules + [rule] == [rule];
    } else {
      assert (rules + [rule])[1..] == rules[1..] + [rule];
      BrokenAppend(rules[1..], rule, a, m, now);
    }
  }

  lemma NextReason(k: nat, a: Action, m: Mandate, now: U64)
    requires k < |RULES|
    ensures Reasons(k + 1, a, m, now) ==
            Reasons(k, a, m, now) + if Obeys(RULES[k], a, m, now) then [] else [Complaint(RULES[k], a, m)]
  {
    assert RULES[..k + 1] == RULES[..k] + [RULES[k]];
    BrokenAppend(RULES[..k], RULES[k], a, m, now);
  }

  /** `decide`: approved exactly when all rules hold, and one reason for each rule that fails, in order. */
  method Decide(a: Action, m: Mandate, now: U64) returns (approved: bool, reasons: seq<Reason>)
    ensures reasons == Complaints(Broken(RULES, a, m, now), a, m)
    ensures approved <==> Approves(m, a, now)
  {
    NoReasons(a, m, now);
    hide Broken, Complaints, Reasons;
    reasons := DecideTerms(a, m, now);
    reasons := DecideParties(a, m, now, reasons);
    reasons := DecideAmount(a, m, now, reasons);
    approved := |reasons| == 0;
  }

  /** The window and the deny-by-default lists. */
  method DecideTerms(a: Action, m: Mandate, now: U64) returns (reasons: seq<Reason>)
    ensures reasons == Reasons(4, a, m, now)
  {
    hide Broken, Complaints, Reasons, ListAllows;
    reasons := [];
    NoReasonYet(a, m, now);
    NextReason(0, a, m, now);
    if m.validAfterSecs != 0 && now < m.validAfterSecs {
      reasons := reasons + [NotActiveUntil(m.validAfterSecs)];
    }
    assert reasons == Reasons(1, a, m, now);
    NextReason(1, a, m, now);
    if m.expiresAtSecs != 0 && now > m.expiresAtSecs {
      reasons := reasons + [ExpiredAt(m.expiresAtSecs)];
    }
    assert reasons == Reasons(2, a, m, now);
    NextReason(2, a, m, now);
    if !ListAllows(m.allowedKinds, a.kind) {
      reasons := reasons + [KindNotPermitted(a.kind)];
    }
    assert reasons == Reasons(3, a, m, now);
    NextReason(3, a, m, now);
    if !ListAllows(m.allowedAssets, a.asset) {
      reasons := reasons + [AssetNotPermitted(a.asset)];
    }
  }

  /** The opt-in lists. */
  method DecideParties(a: Action, m: Mandate, now: U64, before: seq<Reason>) returns (reasons: seq<Reason>)
    requires before == Reasons(4, a, m, now)
    ensures reasons == Reasons(6, a, m, now)
  {
    hide Broken, Complaints, Reasons, ListAllows;
    reasons := before;
    NextReason(4, a, m, now);
    if |m.allowedCounterparties| != 0 {
      match a.counterparty {
        case Some(cp) =>
          if !ListAllows(m.allowedCounterparties, cp) {
            reasons := reasons + [CounterpartyNotPermitted(cp)];
          }
        case None =>
          reasons := reasons + [CounterpartyMissing];
      }
    }
    assert reasons == Reasons(5, a, m, now);
    NextReason(5, a, m, now);
    if |m.allowedIssuers| != 0 {
      match a.issuer {
        case Some(iss) =>
          if !ListAllows(m.allowedIssuers, iss) {
            reasons := reasons + [IssuerNotTrusted(iss)];
          }
        case None =>
          reasons := reasons + [IssuerMissing];
      }
    }
  }

  /** The global cap, and the sub-limit in addition to it. */
  method DecideAmount(a: Action, m: Mandate, now: U64, before: seq<Reason>) returns (reasons: seq<Reason>)
    requires before == Reasons(6, a, m, now)
    ensures reasons == Reasons(8, a, m, now)
  {
    hide Broken, Complaints, Reasons, ListAllows;
    reasons := before;
    NextReason(6, a, m, now);
    if a.amountCents > m.maxAmountCents {
      reasons := reasons + [AmountExceedsMax(m.maxAmountCents)];
    }
    assert reasons == Reasons(7, a, m, now);
    NextReason(7, a, m, now);
    if a.counterparty.Some? {
      var cp := a.counterparty.value;
      if cp in m.counterpartyLimits {
        var limit := m.counterpartyLimits[cp];
        if a.amountCents > limit {
          reasons := reasons + [AmountExceedsSubLimit(limit, cp)];
        }
      }
    }
  }

  lemma NoReasonYet(a: Action, m: Mandate, now: U64)
    ensures Reasons(0, a, m, now) == []
  {
  }

  lemma NoReasons(a: Action, m: Mandate, now: U64)
    ensures Reasons(8, a, m, now) == Complaints(Broken(RULES, a, m, now), a, m)
    ensures |Reasons(8, a, m, now)| == 0 <==> Approves(m, a, now)
  {
    assert RULES[..8] == RULES;
    var broken := Broken(RULES, a, m, now);
    assert broken != [] ==> broken[0] in broken;
  }

  function Position(r: Rule): nat {
    match r
    case NotBefore => 0 case NotAfter => 1 case KindListed => 2 case AssetListed => 3
    case PayeeListed => 4 case IssuerListed => 5 case WithinMax => 6 case WithinSubLimit => 7
  }

  predicate InOrder(rules: seq<Rule>) {
    forall i, j :: 0 <= i < j < |rules| ==> Position(rules[i]) < Position(rules[j])
  }

  /** The failing rules are reported in the order of the rules, each once. */
  lemma ReasonsOrdered(a: Action, m: Mandate, now: U64)
    ensures InOrder(Broken(RULES, a, m, now))
  {
    BrokenOrdered(RULES, a, m, now);
  }

  lemma {:induction false} BrokenOrdered(rules: seq<Rule>, a: Action, m: Mandate, now: U64)
    requires InOrder(rules)
    ensures InOrder(Broken(rules, a, m, now))
  {
    if rules != [] {
      var rest := Broken(rules[1..], a, m, now);
      TailInOrder(rules, rest);
      BrokenOrdered(rules[1..], a, m, now);
      Prepend(rules[0], rest);
    }
  }

  lemma TailInOrder(rules: seq<Rule>, rest: seq<Rule>)
    requires InOrder(rules) && rules != [] && forall r :: r in rest ==> r in rules[1..]
    ensures InOrder(rules[1..]) && forall k :: 0 <= k < |rest| ==> Position(rules[0]) < Position(rest[k])
  {
    hide Position;
    var tail := rules[1..];
    forall k | 0 <= k < |rest| ensures Position(rules[0]) < Position(rest[k]) {
      assert rest[k] in rest;
      var j :| 0 <= j < |tail| && tail[j] == rest[k];
      assert tail[j] == rules[j + 1];
    }
  }

  lemma Prepend(r: Rule, rest: seq<Rule>)
    requires InOrder(rest) && forall k :: 0 <= k < |rest| ==> Position(r) < Position(rest[k])
    ensures InOrder([r] + rest) && [] + rest == rest
  {
    hide Position;
    var all := [r] + rest;
    assert forall k :: 1 <= k < |all| ==> all[k] == rest[k - 1];
  }

  // ----- the policy in the open -------------------------------------------------------

  /** A value on an allow-list. */
  predicate Listed(list: seq<string>, value: string) {
    "*" in list || value in list
  }

  /** When an action is allowed, in terms of the fields alone. */
  lemma ApprovesExact(m: Mandate, a: Action, now: U64)
    ensures Approves(m, a, now) <==>
            && (m.validAfterSecs == 0 || now >= m.validAfterSecs) && (m.expiresAtSecs == 0 || now <= m.expiresAtSecs)
            && Listed(m.allowedKinds, a.kind) && Listed(m.allowedAssets, a.asset)
            && (m.allowedCounterparties == []
                || (a.counterparty != None && Listed(m.allowedCounterparties, a.counterparty.value)))
            && (m.allowedIssuers == [] || (a.issuer != None && Listed(m.allowedIssuers, a.issuer.value)))
            && a.amountCents <= m.maxAmountCents
            && (a.counterparty != None && a.counterparty.value in m.counterpartyLimits ==>
                  a.amountCents <= m.counterpartyLimits[a.counterparty.value])
  {
    ApprovesIff(m, a, now);
  }

  /** Where a reason stands among those `decide` gives. */
  function Rank(why: Reason): nat {
    match why
    case NotActiveUntil(_) => 0
    case ExpiredAt(_) => 1
    case KindNotPermitted(_) => 2
    case AssetNotPermitted(_) => 3
    case CounterpartyNotPermitted(_) => 4
    case CounterpartyMissing => 4
    case IssuerNotTrusted(_) => 5
    case IssuerMissing => 5
    case AmountExceedsMax(_) => 6
    case AmountExceedsSubLimit(_, _) => 7
  }

  /** The reasons stand in this order, and none of them twice. */
  lemma ReasonsRanked(a: Action, m: Mandate, now: U64)
    ensures var reasons := Complaints(Broken(RULES, a, m, now), a, m);
            forall i, j :: 0 <= i < j < |reasons| ==> Rank(reasons[i]) < Rank(reasons[j])
  {
    ReasonsOrdered(a, m, now);
    var broken := Broken(RULES, a, m, now);
    forall i | 0 <= i < |broken| ensures Rank(Complaint(broken[i], a, m)) == Position(broken[i]) {
    }
    hide Complaint, Broken, Rank, Position;
  }

  /** The condition on which each reason is given. */
  predicate Due(why: Reason, a: Action, m: Mandate, now: U64) {
    match why
    case NotActiveUntil(t) => t == m.validAfterSecs && now < t
    case ExpiredAt(t) => t == m.expiresAtSecs && t != 0 && t < now
    case KindNotPermitted(k) => k == a.kind && !Listed(m.allowedKinds, k)
    case AssetNotPermitted(s) => s == a.asset && !Listed(m.allowedAssets, s)
    case CounterpartyNotPermitted(cp) =>
      a.counterparty == Some(cp) && m.allowedCounterparties != [] && !Listed(m.allowedCounterparties, cp)
    case CounterpartyMissing => a.counterparty == None && m.allowedCounterparties != []
    case IssuerNotTrusted(i) => a.issuer == Some(i) && m.allowedIssuers != [] && !Listed(m.allowedIssuers, i)
    case IssuerMissing => a.issuer == None && m.allowedIssuers != []
    case AmountExceedsMax(max) => max == m.maxAmountCents && max < a.amountCents
    case AmountExceedsSubLimit(limit, cp) =>
      a.counterparty == Some(cp) && cp in m.counterpartyLimits && limit == m.counterpartyLimits[cp]
      && limit < a.amountCents
  }

  /** `decide` gives exactly the reasons that are due. */
  lemma ReasonsExact(a: Action, m: Mandate, now: U64, why: Reason)
    ensures why in Complaints(Broken(RULES, a, m, now), a, m) <==> Due(why, a, m, now)
  {
    hide Due, Complaint, Obeys, Rank, RULES;
    var broken := Broken(RULES, a, m, now);
    var reasons := Complaints(broken, a, m);
    if why in reasons {
      var i :| 0 <= i < |reasons| && reasons[i] == why;
      assert broken[i] in broken;
      ComplaintDue(broken[i], a, m, now);
    }
    if Due(why, a, m, now) {
      DueComplaint(why, a, m, now);
      var rule := RuleOf(why);
      assert rule in broken;
      var i :| 0 <= i < |broken| && broken[i] == rule;
      assert reasons[i] == why;
    }
  }

  /** The rule a reason belongs to. */
  ghost function RuleOf(why: Reason): Rule {
    RULES[Rank(why)]
  }

  lemma ComplaintDue(rule: Rule, a: Action, m: Mandate, now: U64)
    requires !Obeys(rule, a, m, now)
    ensures Due(Complaint(rule, a, m), a, m, now)
  {
  }

  lemma DueComplaint(why: Reason, a: Action, m: Mandate, now: U64)
    requires Due(why, a, m, now)
    ensures RuleOf(why) in RULES && !Obeys(RuleOf(why), a, m, now) && Complaint(RuleOf(why), a, m) == why
  {
  }

  // ----- comparing actions and times --------------------------------------------------

  /** Asking for less never turns an approval into a rejection. */
  lemma MonotoneInAmount(m: Mandate, a: Action, lower: U64, now: U64)
    requires lower <= a.amountCents && Approves(m, a, now)
    ensures Approves(m, a.(amountCents := lower), now)
  {
    forall r | r in RULES ensures Obeys(r, a.(amountCents := lower), m, now) {
      assert Obeys(r, a, m, now);
    }
  }

  /** The last second at which the mandate can be used; `0` means there is none. */
  function LastSecond(m: Mandate): U64 {
    if m.expiresAtSecs == 0 then MAX_U64 else m.expiresAtSecs
  }

  /** The payees and amounts a mandate accepts, apart from the other rules. */
  function Cap(m: Mandate, counterparty: Option<string>): U64 {
    if counterparty.Some? && counterparty.value in m.counterpartyLimits
       && m.counterpartyLimits[counterparty.value] < m.maxAmountCents
    then m.counterpartyLimits[counterparty.value]
    else m.maxAmountCents
  }

  /** The same policy as one conjunction over independent parts of the action and the time. */
  lemma ApprovesIff(m: Mandate, a: Action, now: U64)
    ensures Approves(m, a, now) <==>
            && m.validAfterSecs <= now <= LastSecond(m)
            && ListAllows(m.allowedKinds, a.kind) && ListAllows(m.allowedAssets, a.asset)
            && OptInAllows(m.allowedCounterparties, a.counterparty) && OptInAllows(m.allowedIssuers, a.issuer)
            && a.amountCents <= Cap(m, a.counterparty)
  {
    assert Approves(m, a, now) <==>
           && Obeys(RULES[0], a, m, now) && Obeys(RULES[1], a, m, now) && Obeys(RULES[2], a, m, now)
           && Obeys(RULES[3], a, m, now) && Obeys(RULES[4], a, m, now) && Obeys(RULES[5], a, m, now)
           && Obeys(RULES[6], a, m, now) && Obeys(RULES[7], a, m, now);
  }

  /** The times at which an action is accepted form one interval, with known ends. */
  lemma AcceptedTimes(m: Mandate, a: Action, at: U64)
    requires Approves(m, a, at)
    ensures forall now: U64 :: Approves(m, a, now) <==> m.validAfterSecs <= now <= LastSecond(m)
  {
    ApprovesIff(m, a, at);
    forall now: U64 ensures Approves(m, a, now) <==> m.validAfterSecs <= now <= LastSecond(m) {
      ApprovesIff(m, a, now);
    }
  }

  // ----- comparing mandates -------------------------------------------------------------

  /** Every value the list `inner` allows, `outer` allows. */
  predicate Covers(outer: seq<string>, inner: seq<string>) {
    "*" in outer || ("*" !in inner && forall x :: x in inner ==> x in outer)
  }

  function TotalLength(list: seq<string>): nat {
    if list == [] then 0 else |list[0]| + TotalLength(list[1..])
  }

  lemma {:induction false} TotalBounds(list: seq<string>, x: string)
    requires x in list
    ensures |x| <= TotalLength(list)
  {
    if x != list[0] {
      TotalBounds(list[1..], x);
    }
  }

  /** A value that is on no list of `list`. */
  function Unlisted(list: seq<string>): (s: string)
    ensures s !in list && s != "*"
  {
    var s := seq(TotalLength(list) + 2, _ => 'a');
    assert s !in list by {
      if s in list { TotalBounds(list, s); }
    }
    s
  }

  ghost predicate AllowsNoMore(inner: seq<string>, outer: seq<string>) {
    forall v {:trigger ListAllows(inner, v)} :: ListAllows(inner, v) ==> ListAllows(outer, v)
  }

  /** `Covers` is exact. */
  lemma CoversIff(outer: seq<string>, inner: seq<string>)
    ensures Covers(outer, inner) <==> AllowsNoMore(inner, outer)
  {
    if !Covers(outer, inner) {
      if "*" in inner {
        var v := Unlisted(outer);
        assert ListAllows(inner, v) && !ListAllows(outer, v);
      } else {
        var v :| v in inner && v !in outer;
        assert ListAllows(inner, v) && !ListAllows(outer, v);
      }
    }
  }

  predicate OptInCovers(outer: seq<string>, inner: seq<string>) {
    outer == [] || (inner != [] && Covers(outer, inner))
  }

  lemma OptInCoversIff(outer: seq<string>, inner: seq<string>)
    ensures OptInCovers(outer, inner) <==> forall v :: OptInAllows(inner, v) ==> OptInAllows(outer, v)
  {
    CoversIff(outer, inner);
    if !OptInCovers(outer, inner) {
      if inner == [] {
        assert OptInAllows(inner, None) && !OptInAllows(outer, None);
      } else {
        var v :| ListAllows(inner, v) && !ListAllows(outer, v);
        assert OptInAllows(inner, Some(v)) && !OptInAllows(outer, Some(v));
      }
    }
  }

  /** For every payee `inner` accepts, its cap is at most that of `outer`. */
  ghost predicate CapsCover(outer: Mandate, inner: Mandate) {
    forall cp {:trigger Cap(inner, cp)} ::
      OptInAllows(inner.allowedCounterparties, cp) ==> Cap(inner, cp) <= Cap(outer, cp)
  }

  /**
   `inner` is at least as strict as `outer` in every dimension: time, kinds, assets,
   payees with their caps, issuers.  Wildcards, deny-by-default lists and opt-in lists
   count for what they allow.
   */
  ghost predicate Tighter(inner: Mandate, outer: Mandate) {
    && outer.validAfterSecs <= inner.validAfterSecs && LastSecond(inner) <= LastSecond(outer)
    && Covers(outer.allowedKinds, inner.allowedKinds) && Covers(outer.allowedAssets, inner.allowedAssets)
    && OptInCovers(outer.allowedCounterparties, inner.allowedCounterparties)
    && OptInCovers(outer.allowedIssuers, inner.allowedIssuers)
    && CapsCover(outer, inner)
  }

  ghost predicate Implies(inner: Mandate, outer: Mandate) {
    forall a, now {:trigger Approves(inner, a, now)} :: Approves(inner, a, now) ==> Approves(outer, a, now)
  }

  /** A tighter mandate never approves an action that the looser one rejects. */
  lemma TighterIsSafe(inner: Mandate, outer: Mandate)
    requires Tighter(inner, outer)
    ensures Implies(inner, outer)
  {
    CoversIff(outer.allowedKinds, inner.allowedKinds);
    CoversIff(outer.allowedAssets, inner.allowedAssets);
    OptInCoversIff(outer.allowedCounterparties, inner.allowedCounterparties);
    OptInCoversIff(outer.allowedIssuers, inner.allowedIssuers);
    forall a, now | Approves(inner, a, now) ensures Approves(outer, a, now) {
      ApprovesIff(inner, a, now);
      ApprovesIff(outer, a, now);
    }
  }

  /** For a mandate that approves anything at all, "tighter" is exactly what safety needs. */
  lemma TighterIsExact(inner: Mandate, outer: Mandate, a: Action, now: U64)
    requires Approves(inner, a, now)
    ensures Tighter(inner, outer) <==> Implies(inner, outer)
  {
    if Tighter(inner, outer) {
      TighterIsSafe(inner, outer);
    } else if Implies(inner, outer) {
      Times(inner, outer, a, now);
      Lists(inner, outer, a, now);
      Payees(inner, outer, a, now);
    }
  }

  lemma Times(inner: Mandate, outer: Mandate, a: Action, now: U64)
    requires Approves(inner, a, now) && Implies(inner, outer)
    ensures outer.validAfterSecs <= inner.validAfterSecs && LastSecond(inner) <= LastSecond(outer)
  {
    ApprovesIff(inner, a, now);
    ApprovesIff(inner, a, inner.validAfterSecs);
    ApprovesIff(outer, a, inner.validAfterSecs);
    ApprovesIff(inner, a, LastSecond(inner));
    ApprovesIff(outer, a, LastSecond(inner));
  }

  lemma Lists(inner: Mandate, outer: Mandate, a: Action, now: U64)
    requires Approves(inner, a, now) && Implies(inner, outer)
    ensures Covers(outer.allowedKinds, inner.allowedKinds) && Covers(outer.allowedAssets, inner.allowedAssets)
    ensures OptInCovers(outer.allowedIssuers, inner.allowedIssuers)
  {
    ApprovesIff(inner, a, now);
    CoversIff(outer.allowedKinds, inner.allowedKinds);
    CoversIff(outer.allowedAssets, inner.allowedAssets);
    OptInCoversIff(outer.allowedIssuers, inner.allowedIssuers);
    forall v | ListAllows(inner.allowedKinds, v) ensures ListAllows(outer.allowedKinds, v) {
      ApprovesIff(inner, a.(kind := v), now);
      ApprovesIff(outer, a.(kind := v), now);
    }
    forall v | ListAllows(inner.allowedAssets, v) ensures ListAllows(outer.allowedAssets, v) {
      ApprovesIff(inner, a.(asset := v), now);
      ApprovesIff(outer, a.(asset := v), now);
    }
    forall v | OptInAllows(inner.allowedIssuers, v) ensures OptInAllows(outer.allowedIssuers, v) {
      ApprovesIff(inner, a.(issuer := v), now);
      ApprovesIff(outer, a.(issuer := v), now);
    }
  }

  lemma Payees(inner: Mandate, outer: Mandate, a: Action, now: U64)
    requires Approves(inner, a, now) && Implies(inner, outer)
    ensures OptInCovers(outer.allowedCounterparties, inner.allowedCounterparties) && CapsCover(outer, inner)
  {
    ApprovesIff(inner, a, now);
    OptInCoversIff(outer.allowedCounterparties, inner.allowedCounterparties);
    forall cp | OptInAllows(inner.allowedCounterparties, cp)
      ensures OptInAllows(outer.allowedCounterparties, cp) && Cap(inner, cp) <= Cap(outer, cp)
    {
      var b := a.(counterparty := cp, amountCents := Cap(inner, cp));
      ApprovesIff(inner, b, now);
      ApprovesIff(outer, b, now);
    }
  }
}
