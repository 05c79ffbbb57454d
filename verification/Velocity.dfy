/**
 The cumulative spend gate (`spend_wasm`): a running total per UTC day, kept as decimal
 text in a key-value map that may refuse to read or write.
 */
module Velocity {
  import opened Wrappers
  import opened Utf8
  import opened Texts
  import opened Mandates

  /** The UTC day of a time in seconds. */
  function Day(t: nat): nat {
    t / 86_400
  }

  type KvMap = map<seq<Byte>, seq<Byte>>

  /** How the host's `put` ends; a write may take effect although an error is reported. */
  datatype PutOutcome = PutOk | PutLost | PutStoredButFailed

  /** One call, with the clock and the outcomes of the host calls it makes. */
  datatype SpendCall = SpendCall(now: U64, amountCents: U64, dailyLimitCents: U64, window: string, getOk: bool,
                                 put: PutOutcome)

  datatype SpendError = KvGet | KvPut

  datatype Response = Response(
    approved: bool, spentBefore: U64, spentAfter: U64, dailyLimitCents: U64, remaining: U64,
    window: string, windowRequested: string)

  // ----- one call ---------------------------------------------------------------------

  function DayBucket(now: U64): string {
    "d" + ToDecimal(Day(now))
  }

  /** Two times share a bucket exactly when they fall on the same day. */
  lemma DayBucketIff(s: U64, t: U64)
    ensures DayBucket(s) == DayBucket(t) <==> s / 86_400 == t / 86_400
    ensures Key(s) == Key(t) <==> s / 86_400 == t / 86_400
    ensures DayBucket(s) == "d" + ToDecimal(s / 86_400)
  {
    ToDecimalInjective(Day(s), Day(t));
    StringBytesInjective(DayBucket(s), DayBucket(t));
    assert DayBucket(s)[1..] == ToDecimal(Day(s)) && DayBucket(t)[1..] == ToDecimal(Day(t));
  }

  function Key(now: U64): seq<Byte> {
    StringBytes(DayBucket(now))
  }

  /** Text that does not parse counts as no spending yet. */
  function Total(kv: KvMap, key: seq<Byte>): U64 {
    if key !in kv then 0
    else
      match FromUtf8(kv[key])
      case None => 0
      case Some(text) => (match ParseU64(text) case Some(n) => n case None => 0)
  }

  function SaturatingAdd(a: U64, b: U64): U64 {
    if a + b > MAX_U64 then MAX_U64 else a + b
  }

  function SaturatingSub(a: U64, b: U64): U64 {
    if a < b then 0 else a - b
  }

  /** The total now counts the amount of the call. */
  predicate Admits(kv: KvMap, c: SpendCall) {
    c.getOk && SaturatingAdd(Total(kv, Key(c.now)), c.amountCents) <= c.dailyLimitCents && c.put != PutLost
  }

  function After(kv: KvMap, c: SpendCall): KvMap {
    if !Admits(kv, c) then kv
    else kv[Key(c.now) := StringBytes(ToDecimal(SaturatingAdd(Total(kv, Key(c.now)), c.amountCents)))]
  }

  function Answer(kv: KvMap, c: SpendCall): Result<Response, SpendError> {
    var before := Total(kv, Key(c.now));
    var after := SaturatingAdd(before, c.amountCents);
    var approved := after <= c.dailyLimitCents;
    if !c.getOk then Err(KvGet)
    else if approved && c.put != PutOk then Err(KvPut)
    else
      var settled := if approved then after else before;
      Ok(Response(approved, before, settled, c.dailyLimitCents, SaturatingSub(c.dailyLimitCents, settled),
                  DayBucket(c.now), c.window))
  }

  class SpendGate {
    var spent: KvMap

    constructor ()
      ensures spent == map[]
    {
      spent := map[];
    }

    /** `kv_store::put`. */
    method Put(key: seq<Byte>, value: seq<Byte>, outcome: PutOutcome) returns (ok: bool)
      modifies this
      ensures ok == (outcome == PutOk)
      ensures spent == if outcome == PutLost then old(spent) else old(spent)[key := value]
    {
      if outcome != PutLost {
        spent := spent[key := value];
      }
      return outcome == PutOk;
    }

    method Spend(c: SpendCall) returns (r: Result<Response, SpendError>)
      modifies this
      ensures spent == After(old(spent), c) && r == Answer(old(spent), c)
    {
      var window := DayBucket(c.now);
      var key := StringBytes(window);
      if !c.getOk {
        return Err(KvGet);
      }
      var before: U64 := 0;
      if key in spent {
        var text := FromUtf8(spent[key]);
        if text.Some? {
          var parsed := ParseU64(text.value);
          if parsed.Some? {
            before := parsed.value;
          }
        }
      }
      var after := SaturatingAdd(before, c.amountCents);
      var approved := after <= c.dailyLimitCents;
      if approved {
        var stored := Put(key, StringBytes(ToDecimal(after)), c.put);
        if !stored {
          return Err(KvPut);
        }
      }
      var settled := if approved then after else before;
      return Ok(Response(approved, before, settled, c.dailyLimitCents, SaturatingSub(c.dailyLimitCents, settled),
                         window, c.window));
    }
  }

  /** What was stored is read back. */
  lemma TotalStored(kv: KvMap, key: seq<Byte>, n: U64)
    ensures Total(kv[key := StringBytes(ToDecimal(n))], key) == n
  {
    FromUtf8Exact(StringBytes(ToDecimal(n)), ToDecimal(n));
    ParsePrinted(n);
  }

  /** A call counts its amount on its own day when it is admitted, and touches no other day. */
  lemma TotalAfter(kv: KvMap, c: SpendCall, day: U64)
    ensures Total(After(kv, c), Key(day)) ==
            if Admits(kv, c) && Day(c.now) == Day(day) then SaturatingAdd(Total(kv, Key(day)), c.amountCents)
            else Total(kv, Key(day))
    ensures Day(c.now) != Day(day) ==> (Key(day) in After(kv, c) <==> Key(day) in kv)
                                         && (Key(day) in kv ==> After(kv, c)[Key(day)] == kv[Key(day)])
  {
    DayBucketIff(c.now, day);
    if Admits(kv, c) {
      TotalStored(kv, Key(c.now), SaturatingAdd(Total(kv, Key(c.now)), c.amountCents));
    }
  }

  /** An approval means the amount was counted and the total stays within the limit of the call. */
  lemma ApprovalCounts(kv: KvMap, c: SpendCall)
    requires Answer(kv, c).Ok? && Answer(kv, c).value.approved
    ensures Admits(kv, c) && Total(After(kv, c), Key(c.now)) <= c.dailyLimitCents
    ensures Answer(kv, c).value.spentAfter == Total(After(kv, c), Key(c.now))
  {
    TotalAfter(kv, c, c.now);
  }

  /** A rejection reports the total it found and changes nothing; it means the amount would not have fitted. */
  lemma RejectionIsFree(kv: KvMap, c: SpendCall)
    requires Answer(kv, c).Ok? && !Answer(kv, c).value.approved
    ensures var r, total := Answer(kv, c).value, Total(kv, Key(c.now));
            && After(kv, c) == kv && r.spentBefore == r.spentAfter == total
            && (total + c.amountCents > c.dailyLimitCents)
            && r.remaining == (if total > c.dailyLimitCents then 0 else c.dailyLimitCents - total)
  {
  }

  /** What a response says, in terms of the stored total alone. */
  lemma AnswerExact(kv: KvMap, c: SpendCall)
    ensures var total, r := Total(kv, Key(c.now)), Answer(kv, c);
            var after := if total + c.amountCents > MAX_U64 then MAX_U64 else total + c.amountCents;
            && (r == Err(KvGet) <==> !c.getOk)
            && (r == Err(KvPut) <==> c.getOk && after <= c.dailyLimitCents && c.put != PutOk)
            && (r.Ok? <==> c.getOk && (after <= c.dailyLimitCents ==> c.put == PutOk))
            && (r.Ok? ==>
                  && (r.value.approved <==> after <= c.dailyLimitCents)
                  && r.value.spentBefore == total && r.value.spentAfter == (if r.value.approved then after else total)
                  && r.value.dailyLimitCents == c.dailyLimitCents
                  && r.value.remaining == (if c.dailyLimitCents < r.value.spentAfter then 0
                                           else c.dailyLimitCents - r.value.spentAfter)
                  && r.value.window == DayBucket(c.now) && r.value.windowRequested == c.window)
  {
    hide Total, Key, DayBucket;
  }

  /** What the stored bytes are read as: a parsable text its number, everything else nothing spent. */
  lemma TotalExact(kv: KvMap, key: seq<Byte>, text: string)
    ensures key !in kv ==> Total(kv, key) == 0
    ensures key in kv && kv[key] == StringBytes(text) ==>
              Total(kv, key) == if ParseU64(text).Some? then ParseU64(text).value else 0
    ensures key in kv && (forall s :: kv[key] != StringBytes(s)) ==> Total(kv, key) == 0
  {
    if key in kv {
      FromUtf8Exact(kv[key], text);
      if FromUtf8(kv[key]).Some? {
        FromUtf8Exact(kv[key], FromUtf8(kv[key]).value);
      }
    }
  }

  /** The window the caller asks for has no effect but its echo. */
  lemma WindowIgnored(kv: KvMap, c: SpendCall, window: string)
    ensures After(kv, c.(window := window)) == After(kv, c)
    ensures match (Answer(kv, c), Answer(kv, c.(window := window)))
            case (Ok(r), Ok(s)) => s == r.(windowRequested := window) && r.window == DayBucket(c.now)
            case (Err(e), Err(f)) => e == f
            case _ => false
  {
  }

  // ----- runs ------------------------------------------------------------------------------

  function Run(kv: KvMap, cs: seq<SpendCall>): KvMap {
    if cs == [] then kv else After(Run(kv, cs[..|cs| - 1]), cs[|cs| - 1])
  }

  /** The calls of a run whose amounts were counted; among them are all that were approved. */
  function Admitted(kv: KvMap, cs: seq<SpendCall>): seq<SpendCall> {
    if cs == [] then []
    else
      var before, c := cs[..|cs| - 1], cs[|cs| - 1];
      Admitted(kv, before) + if Admits(Run(kv, before), c) then [c] else []
  }

  predicate Approves(kv: KvMap, c: SpendCall) {
    Answer(kv, c).Ok? && Answer(kv, c).value.approved
  }

  /** The calls of a run that were answered with an approval. */
  function Approved(kv: KvMap, cs: seq<SpendCall>): seq<SpendCall> {
    if cs == [] then []
    else
      var before, c := cs[..|cs| - 1], cs[|cs| - 1];
      Approved(kv, before) + if Approves(Run(kv, before), c) then [c] else []
  }

  /** Without writes that take effect and yet fail, the calls approved are the calls counted. */
  lemma {:induction false} ApprovedIsAdmitted(kv: KvMap, cs: seq<SpendCall>)
    requires forall i :: 0 <= i < |cs| ==> cs[i].put != PutStoredButFailed
    ensures Approved(kv, cs) == Admitted(kv, cs)
  {
    if cs != [] {
      ApprovedIsAdmitted(kv, cs[..|cs| - 1]);
    }
  }

  function DaySum(cs: seq<SpendCall>, day: nat): nat {
    if cs == [] then 0
    else DaySum(cs[..|cs| - 1], day) + if Day(cs[|cs| - 1].now) == day then cs[|cs| - 1].amountCents else 0
  }

  lemma DaySumAppend(cs: seq<SpendCall>, c: SpendCall, day: nat)
    ensures DaySum(cs + [c], day) == DaySum(cs, day) + if Day(c.now) == day then c.amountCents else 0
  {
    assert (cs + [c])[..|cs|] == cs;
  }

  function Capped(n: nat): U64 {
    if n > MAX_U64 then MAX_U64 else n
  }

  /** The last call of a run. */
  lemma LastCall(kv: KvMap, cs: seq<SpendCall>)
    requires cs != []
    ensures var before, c := cs[..|cs| - 1], cs[|cs| - 1];
            && cs == before + [c] && Run(kv, cs) == After(Run(kv, before), c)
            && Admitted(kv, cs) == if Admits(Run(kv, before), c)
               then Admitted(kv, before) + [c] else Admitted(kv, before)
  {
    hide Admits, After;
  }

  lemma NothingYet(key: seq<Byte>, kv: KvMap, day: nat)
    ensures Total(map[], key) == 0 && Run(kv, []) == kv && DaySum(Admitted(kv, []), day) == 0
  {
  }

  /** The stored total of a day is the sum of all amounts counted that day, up to 2^64 - 1. */
  lemma {:induction false} TotalIsSum(kv: KvMap, cs: seq<SpendCall>, day: U64)
    ensures Total(Run(kv, cs), Key(day)) == Capped(Total(kv, Key(day)) + DaySum(Admitted(kv, cs), Day(day)))
  {
    hide After, Admits, Total, Key, Day, DaySum, Run, Admitted;
    if cs == [] {
      NothingYet(Key(day), kv, Day(day));
    } else {
      var before, c := cs[..|cs| - 1], cs[|cs| - 1];
      TotalIsSum(kv, before, day);
      LastCall(kv, cs);
      TotalAfter(Run(kv, before), c, day);
      DaySumAppend(Admitted(kv, before), c, Day(day));
    }
  }

  /** Every stored entry is the decimal text of its total. */
  ghost predicate Canonical(kv: KvMap) {
    forall key :: key in kv ==> kv[key] == StringBytes(ToDecimal(Total(kv, key)))
  }

  /** From an empty map, the text of a day always parses, and says the sum. */
  lemma TextIsSum(cs: seq<SpendCall>, day: U64)
    requires Key(day) in Run(map[], cs)
    ensures FromUtf8(Run(map[], cs)[Key(day)]) == Some(ToDecimal(Capped(DaySum(Admitted(map[], cs), Day(day)))))
  {
    hide Run, Admitted, DaySum, ToDecimal, StringBytes, FromUtf8, Key, Day, Total;
    CanonicalRun(cs);
    TotalIsSum(map[], cs, day);
    var kv, n := Run(map[], cs), Capped(DaySum(Admitted(map[], cs), Day(day)));
    NothingYet(Key(day), kv, Day(day));
    assert kv[Key(day)] == StringBytes(ToDecimal(n));
    FromUtf8Exact(kv[Key(day)], ToDecimal(n));
  }

  lemma {:induction false} CanonicalRun(cs: seq<SpendCall>)
    ensures Canonical(Run(map[], cs))
  {
    if cs != [] {
      var kv, c := Run(map[], cs[..|cs| - 1]), cs[|cs| - 1];
      CanonicalRun(cs[..|cs| - 1]);
      TotalStored(kv, Key(c.now), SaturatingAdd(Total(kv, Key(c.now)), c.amountCents));
      forall key | key in After(kv, c) ensures After(kv, c)[key] == StringBytes(ToDecimal(Total(After(kv, c), key))) {
        assert key != Key(c.now) ==> Total(After(kv, c), key) == Total(kv, key);
      }
    }
  }

  // ----- a fixed limit --------------------------------------------------------------------

  predicate LimitedBy(cs: seq<SpendCall>, limit: U64) {
    forall i :: 0 <= i < |cs| ==> cs[i].dailyLimitCents == limit
  }

  /** With a limit below 2^64 - 1, what is counted in a day never exceeds it. */
  lemma {:induction false} DailyCap(cs: seq<SpendCall>, limit: U64, day: U64)
    requires LimitedBy(cs, limit) && limit < MAX_U64
    ensures DaySum(Admitted(map[], cs), Day(day)) <= limit
  {
    hide Total, Key, DaySum, Run, Admitted, Day;
    NothingYet([], map[], Day(day));
    if cs != [] {
      var before, c := cs[..|cs| - 1], cs[|cs| - 1];
      DailyCap(before, limit, day);
      TotalIsSum(map[], before, c.now);
      NothingYet(Key(c.now), map[], 0);
      LastCall(map[], cs);
      DaySumAppend(Admitted(map[], before), c, Day(day));
    }
  }

  /** No more is approved on a day than is counted. */
  lemma {:induction false} ApprovedDay(kv: KvMap, cs: seq<SpendCall>, day: nat)
    ensures DaySum(Approved(kv, cs), day) <= DaySum(Admitted(kv, cs), day)
  {
    if cs != [] {
      hide *;
      var before, c := cs[..|cs| - 1], cs[|cs| - 1];
      ApprovedDay(kv, before, day);
      LastCall(kv, cs);
      LastApproval(kv, cs);
      DaySumAppend(Approved(kv, before), c, day);
      DaySumAppend(Admitted(kv, before), c, day);
    }
  }

  /** So the amounts approved on a day stay within the limit too. */
  lemma ApprovedCap(cs: seq<SpendCall>, limit: U64, day: U64)
    requires LimitedBy(cs, limit) && limit < MAX_U64
    ensures DaySum(Approved(map[], cs), Day(day)) <= limit
  {
    ApprovedDay(map[], cs, Day(day));
    DailyCap(cs, limit, day);
  }

  /** Every response then accounts for the whole limit. */
  lemma NothingLost(cs: seq<SpendCall>, c: SpendCall, limit: U64)
    requires LimitedBy(cs + [c], limit) && limit < MAX_U64
    ensures var r := Answer(Run(map[], cs), c);
            r.Ok? ==> r.value.spentAfter + r.value.remaining == limit
  {
    hide Total, Key, DaySum, Run, Admitted, Day, DayBucket;
    assert forall i :: 0 <= i < |cs| ==> cs[i] == (cs + [c])[i];
    assert c == (cs + [c])[|cs|];
    NothingYet(Key(c.now), map[], 0);
    DailyCap(cs, limit, c.now);
    TotalIsSum(map[], cs, c.now);
  }

  /** At the limit 2^64 - 1 the cap does not bind: the total saturates and any amount is approved. */
  lemma CapNeedsHeadroom(limit: U64)
    ensures limit < MAX_U64 <==>
            forall cs, day: U64 {:trigger Admitted(map[], cs), Key(day)} ::
              LimitedBy(cs, limit) ==> DaySum(Admitted(map[], cs), Day(day)) <= limit
  {
    if limit < MAX_U64 {
      forall cs, day: U64 | LimitedBy(cs, limit) ensures DaySum(Admitted(map[], cs), Day(day)) <= limit {
        DailyCap(cs, limit, day);
      }
    } else {
      var c := SpendCall(0, MAX_U64, MAX_U64, "", true, PutOk);
      var cs := [c, c];
      assert cs[..1] == [c] && [c][..0] == [];
      assert Admitted(map[], []) == [] && Admitted(map[], [c]) == [c];
      assert Admitted(map[], cs) == [c, c];
      DaySumAppend([], c, 0);
      DaySumAppend([c], c, 0);
      assert [] + [c] == [c] && [c] + [c] == cs;
      assert LimitedBy(cs, limit) && DaySum(Admitted(map[], cs), Day(0)) > limit && Key(0) == Key(0);
    }
  }

  // ----- renewal --------------------------------------------------------------------------------

  lemma DayIs(t: nat)
    ensures Day(t) == t / 86_400
  {
  }

  lemma {:induction false} AdmittedFrom(kv: KvMap, cs: seq<SpendCall>, c: SpendCall)
    requires c in Admitted(kv, cs)
    ensures c in cs
  {
    var before, last := cs[..|cs| - 1], cs[|cs| - 1];
    LastCall(kv, cs);
    if c in Admitted(kv, before) {
      AdmittedFrom(kv, before, c);
    }
  }

  lemma {:induction false} OtherDays(cs: seq<SpendCall>, day: nat)
    requires forall i :: 0 <= i < |cs| ==> cs[i].now / 86_400 != day
    ensures DaySum(cs, day) == 0
  {
    if cs != [] {
      OtherDays(cs[..|cs| - 1], day);
    }
  }

  /** The limit renews: the first call of a UTC day that fits into it is approved, with nothing spent before. */
  lemma NewDayRenews(cs: seq<SpendCall>, c: SpendCall)
    requires forall i :: 0 <= i < |cs| ==> cs[i].now / 86_400 != c.now / 86_400
    requires c.getOk && c.put == PutOk && c.amountCents <= c.dailyLimitCents
    ensures var r := Answer(Run(map[], cs), c);
            && r.Ok? && r.value.approved && r.value.spentBefore == 0 && r.value.spentAfter == c.amountCents
            && r.value.remaining == c.dailyLimitCents - c.amountCents
  {
    hide Total, Key, DayBucket, Run, Admitted, Answer, DaySum;
    DayIs(c.now);
    var a := Admitted(map[], cs);
    forall i | 0 <= i < |a| ensures a[i].now / 86_400 != c.now / 86_400 {
      AdmittedFrom(map[], cs, a[i]);
    }
    OtherDays(a, c.now / 86_400);
    NothingYet(Key(c.now), map[], 0);
    TotalIsSum(map[], cs, c.now);
    AnswerExact(Run(map[], cs), c);
  }

  // ----- sliding windows -------------------------------------------------------------------

  /** What was counted at times in `[from, from + width)`. */
  function WindowSum(cs: seq<SpendCall>, from: nat, width: nat): nat {
    if cs == [] then 0
    else
      var c := cs[|cs| - 1];
      WindowSum(cs[..|cs| - 1], from, width) + if from <= c.now < from + width then c.amountCents else 0
  }

  lemma WindowSumAppend(cs: seq<SpendCall>, c: SpendCall, from: nat, width: nat)
    ensures WindowSum(cs + [c], from, width) ==
            WindowSum(cs, from, width) + if from <= c.now < from + width then c.amountCents else 0
  {
    assert (cs + [c])[..|cs|] == cs;
  }

  lemma LastApproval(kv: KvMap, cs: seq<SpendCall>)
    requires cs != []
    ensures var before, c := cs[..|cs| - 1], cs[|cs| - 1];
            && (Approves(Run(kv, before), c) ==> Admits(Run(kv, before), c))
            && Approved(kv, cs) == if Approves(Run(kv, before), c)
               then Approved(kv, before) + [c] else Approved(kv, before)
  {
    hide Run, Total, Key;
  }

  /** No more is approved than is counted. */
  lemma {:induction false} ApprovedWithin(kv: KvMap, cs: seq<SpendCall>, from: nat, width: nat)
    ensures WindowSum(Approved(kv, cs), from, width) <= WindowSum(Admitted(kv, cs), from, width)
  {
    if cs != [] {
      hide *;
      var before, c := cs[..|cs| - 1], cs[|cs| - 1];
      ApprovedWithin(kv, before, from, width);
      LastCall(kv, cs);
      LastApproval(kv, cs);
      WindowSumAppend(Approved(kv, before), c, from, width);
      WindowSumAppend(Admitted(kv, before), c, from, width);
    }
  }

  /** What was counted on `n` days from day `first` on. */
  function DaysSum(cs: seq<SpendCall>, first: nat, n: nat): nat {
    if n == 0 then 0 else DaysSum(cs, first, n - 1) + DaySum(cs, first + n - 1)
  }

  lemma {:induction false} DaysSumAppend(cs: seq<SpendCall>, c: SpendCall, first: nat, n: nat)
    ensures DaysSum(cs + [c], first, n) ==
            DaysSum(cs, first, n) + if first <= Day(c.now) < first + n then c.amountCents else 0
  {
    if n > 0 {
      DaysSumAppend(cs, c, first, n - 1);
      DaySumAppend(cs, c, first + n - 1);
    }
  }

  lemma {:induction false} NoCallsNoSum(first: nat, n: nat)
    ensures DaysSum([], first, n) == 0
  {
    if n > 0 {
      NoCallsNoSum(first, n - 1);
    }
  }

  /** An interval of `width` seconds meets at most `(width - 1) / 86_400 + 2` days. */
  lemma DaysMet(from: nat, width: nat, t: nat)
    requires width >= 1
    ensures from <= t < from + width ==> Day(from) <= Day(t) < Day(from) + ((width - 1) / 86_400 + 2)
  {
  }

  lemma {:induction false} WindowWithinDays(cs: seq<SpendCall>, from: nat, width: nat)
    requires width >= 1
    ensures WindowSum(cs, from, width) <= DaysSum(cs, Day(from), (width - 1) / 86_400 + 2)
  {
    var n := (width - 1) / 86_400 + 2;
    if cs == [] {
      NoCallsNoSum(Day(from), n);
    } else {
      var before, c := cs[..|cs| - 1], cs[|cs| - 1];
      WindowWithinDays(before, from, width);
      assert cs == before + [c];
      DaysSumAppend(before, c, Day(from), n);
      DaysMet(from, width, c.now);
    }
  }

  lemma {:induction false} DaysCapped(cs: seq<SpendCall>, first: nat, n: nat, limit: nat)
    requires forall day {:trigger DaySum(cs, day)} :: first <= day < first + n ==> DaySum(cs, day) <= limit
    ensures DaysSum(cs, first, n) <= limit * n
  {
    if n > 0 {
      DaysCapped(cs, first, n - 1, limit);
      assert limit * n == limit * (n - 1) + limit;
    }
  }

  /** Days after the last that a clock can show have no calls. */
  lemma {:induction false} DayBeyondClock(cs: seq<SpendCall>, day: nat)
    requires day > Day(MAX_U64)
    ensures DaySum(cs, day) == 0
  {
    if cs != [] {
      DayBeyondClock(cs[..|cs| - 1], day);
    }
  }

  /**
   With a fixed limit, what is approved in any interval of `width` seconds, aligned with
   the days or not, under any clock, is at most `(width - 1) / 86_400 + 2` times the limit.
   */
  lemma SlidingWindowCap(cs: seq<SpendCall>, limit: U64, from: nat, width: nat)
    requires LimitedBy(cs, limit) && limit < MAX_U64 && width >= 1
    ensures WindowSum(Admitted(map[], cs), from, width) <= limit * ((width - 1) / 86_400 + 2)
    ensures WindowSum(Approved(map[], cs), from, width) <= limit * ((width - 1) / 86_400 + 2)
  {
    ApprovedWithin(map[], cs, from, width);
    var a, n := Admitted(map[], cs), (width - 1) / 86_400 + 2;
    forall day {:trigger DaySum(a, day)} | Day(from) <= day < Day(from) + n ensures DaySum(a, day) <= limit {
      if day > Day(MAX_U64) {
        DayBeyondClock(a, day);
      } else {
        assert Day(day * 86_400) == day;
        DailyCap(cs, limit, day * 86_400);
      }
    }
    WindowWithinDays(a, from, width);
    DaysCapped(a, Day(from), n, limit);
  }

  /** Hence at most twice the limit in any 24 hours. */
  lemma TwiceTheLimitInADay(cs: seq<SpendCall>, limit: U64, from: nat)
    requires LimitedBy(cs, limit) && limit < MAX_U64
    ensures WindowSum(Approved(map[], cs), from, 86_400) <= 2 * limit
  {
    hide *;
    SlidingWindowCap(cs, limit, from, 86_400);
  }
}
