/**
 Rust strings as bytes, and unsigned integers as decimal text.
 */
module Texts {
  import opened Wrappers
  import opened Utf8
  import opened Mandates

  // ----- strings and bytes --------------------------------------------------------------

  function ToScalars(s: string): (cs: seq<Scalar>)
    ensures |cs| == |s| && forall i :: 0 <= i < |s| ==> cs[i] == s[i] as int
  {
    seq(|s|, i requires 0 <= i < |s| => s[i] as int as Scalar)
  }

  function FromScalars(cs: seq<Scalar>): (s: string)
    ensures |s| == |cs| && forall i :: 0 <= i < |s| ==> s[i] as int == cs[i]
  {
    seq(|cs|, i requires 0 <= i < |cs| => cs[i] as char)
  }

  /** `as_bytes`. */
  function StringBytes(s: string): seq<Byte> {
    EncodeScalars(ToScalars(s))
  }

  /** `String::from_utf8`: the string these bytes encode, if there is one. */
  function FromUtf8(b: seq<Byte>): Option<string> {
    var cs := DecodeScalars(b);
    if EncodeScalars(cs) == b then Some(FromScalars(cs)) else None
  }

  /** `from_utf8` inverts `as_bytes`, and accepts nothing else. */
  lemma FromUtf8Exact(b: seq<Byte>, s: string)
    ensures FromUtf8(b) == Some(s) <==> b == StringBytes(s)
  {
    DecodeEncodeScalars(ToScalars(s));
    assert FromScalars(ToScalars(s)) == s;
    assert ToScalars(FromScalars(DecodeScalars(b))) == DecodeScalars(b);
  }

  lemma StringBytesInjective(s: string, t: string)
    ensures StringBytes(s) == StringBytes(t) <==> s == t
  {
    FromUtf8Exact(StringBytes(s), s);
    FromUtf8Exact(StringBytes(s), t);
  }

  // ----- decimal text -----------------------------------------------------------------------

  const DIGITS: string := "0123456789"

  function ToDecimal(n: nat): (s: string)
    ensures s != []
  {
    if n < 10 then [DIGITS[n]] else ToDecimal(n / 10) + [DIGITS[n % 10]]
  }

  predicate IsDigit(c: char) {
    '0' <= c <= '9'
  }

  function DigitValue(c: char): nat
    requires IsDigit(c)
  {
    c as int - '0' as int
  }

  /** The value of a run of digits, or nothing. */
  function ParseDigits(s: string): Option<nat> {
    if s == [] then Some(0)
    else
      var last := s[|s| - 1];
      match ParseDigits(s[..|s| - 1])
      case Some(n) => if IsDigit(last) then Some(10 * n + DigitValue(last)) else None
      case None => None
  }

  /** `str::parse::<u64>`: an optional plus sign, at least one digit, no overflow. */
  function ParseU64(s: string): Option<U64> {
    var digits := if s != [] && s[0] == '+' then s[1..] else s;
    if digits == [] then None
    else
      match ParseDigits(digits)
      case Some(n) => if n <= MAX_U64 then Some(n) else None
      case None => None
  }

  lemma DigitText(d: nat)
    requires d < 10
    ensures IsDigit(DIGITS[d]) && DigitValue(DIGITS[d]) == d
  {
  }

  lemma {:induction false} ParseDecimal(n: nat)
    ensures ParseDigits(ToDecimal(n)) == Some(n) && IsDigit(ToDecimal(n)[0])
  {
    DigitText(n % 10);
    hide DigitValue, IsDigit;
    if n < 10 {
      assert ToDecimal(n)[..0] == [];
    } else {
      ParseDecimal(n / 10);
      var s := ToDecimal(n);
      assert s[..|s| - 1] == ToDecimal(n / 10);
    }
  }

  /** Parsing gives back every number that was printed. */
  lemma ParsePrinted(n: U64)
    ensures ParseU64(ToDecimal(n)) == Some(n)
  {
    ParseDecimal(n);
  }

  function Zeros(k: nat): (s: string)
    ensures |s| == k && forall i :: 0 <= i < k ==> s[i] == '0'
  {
    seq(k, _ => '0')
  }

  lemma {:induction false} ParseZeros(k: nat, s: string)
    ensures ParseDigits(Zeros(k) + s) == ParseDigits(s)
  {
    if s == [] {
      assert Zeros(k) + s == Zeros(k);
      ParseOnlyZeros(k);
    } else {
      assert (Zeros(k) + s)[..|Zeros(k) + s| - 1] == Zeros(k) + s[..|s| - 1];
      ParseZeros(k, s[..|s| - 1]);
    }
  }

  lemma {:induction false} ParseOnlyZeros(k: nat)
    ensures ParseDigits(Zeros(k)) == Some(0)
  {
    if k > 0 {
      assert Zeros(k)[..k - 1] == Zeros(k - 1);
      ParseOnlyZeros(k - 1);
    }
  }

  /** Texts that denote `n` are its decimal text, perhaps after zeros. */
  lemma {:induction false} ParsedForm(s: string, n: nat)
    requires s != [] && ParseDigits(s) == Some(n)
    ensures |s| >= |ToDecimal(n)| && s == Zeros(|s| - |ToDecimal(n)|) + ToDecimal(n)
  {
    var init, last := s[..|s| - 1], s[|s| - 1];
    assert s == init + [last];
    var m := ParseDigits(init).value;
    var d := DigitValue(last);
    DigitBack(last);
    assert n == 10 * m + d && n / 10 == m && n % 10 == d;
    if init == [] {
      assert s == Zeros(0) + ToDecimal(n);
    } else {
      ParsedForm(init, m);
      if m == 0 {
        assert ToDecimal(0) == "0";
        assert init == Zeros(|init|);
        assert s == Zeros(|init|) + ToDecimal(n);
      } else {
        assert ToDecimal(n) == ToDecimal(m) + [last];
        assert s == Zeros(|init| - |ToDecimal(m)|) + ToDecimal(n);
      }
    }
  }

  lemma DigitBack(c: char)
    requires IsDigit(c)
    ensures DigitValue(c) < 10 && DIGITS[DigitValue(c)] == c
  {
  }

  /** The spellings of `n`: its decimal text after `k` zeros, perhaps after a plus sign. */
  function Spelled(n: nat, k: nat, plus: bool): string {
    (if plus then "+" else "") + (Zeros(k) + ToDecimal(n))
  }

  /** `parse` accepts every spelling of a number below 2^64. */
  lemma ParseAccepts(n: nat, k: nat, plus: bool)
    ensures ParseU64(Spelled(n, k, plus)) == if n < 18446744073709551616 then Some(n) else None
  {
    var digits, s := Zeros(k) + ToDecimal(n), Spelled(n, k, plus);
    ParseDecimal(n);
    ParseZeros(k, ToDecimal(n));
    assert digits != [] && IsDigit(digits[0]);
    assert plus ==> s[0] == '+' && s[1..] == digits;
    assert !plus ==> s == digits;
    hide ParseDigits, ToDecimal, Zeros;
  }

  /** And nothing else. */
  lemma ParseOnly(s: string, n: U64)
    requires ParseU64(s) == Some(n)
    ensures exists k, plus :: s == Spelled(n, k, plus)
  {
    hide ParseDigits, ToDecimal, Zeros;
    var plus := s != [] && s[0] == '+';
    var digits := if plus then s[1..] else s;
    ParsedForm(digits, n);
    var k := |digits| - |ToDecimal(n)|;
    assert s == (if plus then "+" else "") + digits;
    assert s == Spelled(n, k, plus);
  }

  /** The value of a text read from its first digit on. */
  function Horner(s: string, acc: nat): nat
    requires forall i :: 0 <= i < |s| ==> IsDigit(s[i])
  {
    if s == [] then acc else Horner(s[1..], 10 * acc + DigitValue(s[0]))
  }

  lemma {:induction false} HornerAppend(s: string, c: char, acc: nat)
    requires (forall i :: 0 <= i < |s| ==> IsDigit(s[i])) && IsDigit(c)
    ensures (forall i :: 0 <= i < |s + [c]| ==> IsDigit((s + [c])[i]))
    ensures Horner(s + [c], acc) == 10 * Horner(s, acc) + DigitValue(c)
  {
    if s == [] {
      assert s + [c] == [c];
    } else {
      assert (s + [c])[1..] == s[1..] + [c];
      HornerAppend(s[1..], c, 10 * acc + DigitValue(s[0]));
    }
  }

  /** Decimal text has its most significant digit first, and no zero in front of a longer number. */
  lemma {:induction false} DecimalDenotes(n: nat)
    ensures forall i :: 0 <= i < |ToDecimal(n)| ==> IsDigit(ToDecimal(n)[i])
    ensures Horner(ToDecimal(n), 0) == n && (n > 0 ==> ToDecimal(n)[0] != '0')
  {
    DigitText(n % 10);
    if n < 10 {
      assert ToDecimal(n) == [] + [DIGITS[n]];
      HornerAppend([], DIGITS[n], 0);
    } else {
      DecimalDenotes(n / 10);
      HornerAppend(ToDecimal(n / 10), DIGITS[n % 10], 0);
    }
  }

  lemma ToDecimalInjective(m: nat, n: nat)
    ensures ToDecimal(m) == ToDecimal(n) <==> m == n
  {
    ParseDecimal(m);
    ParseDecimal(n);
  }
}
