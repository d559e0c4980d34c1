/** Decimal amounts: services/api/core/validation.go, the amount loop of policy_engine.go and
    the two library parsers the service applies to a stored amount. A string is a sequence of
    code points; int64 arithmetic wraps, as Go's does. */
module Decimal {
  import opened Wrappers
  import Bytes

  const MAX_INT64: int := 0x7FFF_FFFF_FFFF_FFFF
  const TWO_63: int := 0x8000_0000_0000_0000
  const TWO_64: int := 0x1_0000_0000_0000_0000

  /** The int64 that an unbounded result is stored as. */
  function Wrap64(v: int): (r: int)
    ensures -TWO_63 <= r <= MAX_INT64
  {
    (v + TWO_63) % TWO_64 - TWO_63
  }

  predicate IsDigit(c: char) {
    '0' <= c <= '9'
  }

  function DigitValue(c: char): (d: nat)
    requires IsDigit(c)
    ensures d <= 9
  {
    c as int - '0' as int
  }

  predicate AllDigits(s: string) {
    forall i :: 0 <= i < |s| ==> IsDigit(s[i])
  }

  /** The number a digit string denotes. */
  function Value(s: string): nat
    requires AllDigits(s)
  {
    if |s| == 0 then 0 else Value(s[..|s| - 1]) * 10 + DigitValue(s[|s| - 1])
  }

  lemma ValueAppend(s: string, c: char)
    requires AllDigits(s) && IsDigit(c)
    ensures AllDigits(s + [c]) && Value(s + [c]) == Value(s) * 10 + DigitValue(c)
  {
    assert (s + [c])[..|s|] == s;
  }

  // --------------------------------------------------- parseIntentAmount

  /** The digits of a string, everything else dropped. */
  function DigitsOf(s: string): (r: string)
    ensures AllDigits(r)
  {
    if |s| == 0 then ""
    else DigitsOf(s[..|s| - 1]) + (if IsDigit(s[|s| - 1]) then [s[|s| - 1]] else "")
  }

  /** The int64 that the policy engine reads out of an amount string. */
  function IntentAmount(s: string): int {
    Wrap64(Value(DigitsOf(s)))
  }

  lemma WrapStep(v: int, d: int)
    ensures Wrap64(Wrap64(v) * 10 + d) == Wrap64(v * 10 + d)
  {
    var q := (v + TWO_63) / TWO_64;
    assert Wrap64(v) == v - q * TWO_64;
    WrapPeriod(v * 10 + d, -10 * q);
  }

  lemma WrapPeriod(v: int, k: int)
    ensures Wrap64(v + k * TWO_64) == Wrap64(v)
  {
    var q, r := (v + TWO_63) / TWO_64, (v + TWO_63) % TWO_64;
    assert v + k * TWO_64 + TWO_63 == (q + k) * TWO_64 + r;
    DivModUnique(v + k * TWO_64 + TWO_63, q + k, r);
  }

  lemma DivModUnique(a: int, q: int, r: int)
    requires a == q * TWO_64 + r && 0 <= r < TWO_64
    ensures a % TWO_64 == r
  {
  }

  lemma DigitsOfSnoc(s: string, i: nat)
    requires i < |s|
    ensures DigitsOf(s[..i + 1]) == DigitsOf(s[..i]) + (if IsDigit(s[i]) then [s[i]] else "")
  {
    assert s[..i + 1][..i] == s[..i];
  }

  method ParseIntentAmount(s: string) returns (v: int)
    ensures v == IntentAmount(s)
  {
    v := 0;
    var i := 0;
    while i < |s|
      invariant 0 <= i <= |s|
      invariant v == IntentAmount(s[..i])
    {
      DigitsOfSnoc(s, i);
      assert DigitsOf(s[..i]) + "" == DigitsOf(s[..i]);
      if IsDigit(s[i]) {
        ValueAppend(DigitsOf(s[..i]), s[i]);
        WrapStep(Value(DigitsOf(s[..i])), DigitValue(s[i]));
        v := Wrap64(v * 10 + DigitValue(s[i]));
      }
      i := i + 1;
    }
    assert s[..i] == s;
  }

  lemma {:induction false} DigitsOfDigits(s: string)
    requires AllDigits(s)
    ensures DigitsOf(s) == s
  {
    if |s| == 0 {
    } else {
      DigitsOfDigits(s[..|s| - 1]);
      assert s == s[..|s| - 1] + [s[|s| - 1]];
    }
  }

  /** On a digit string the result is the number reduced modulo 2^64 and read as an int64. */
  lemma AmountIsValueModulo(s: string)
    requires AllDigits(s)
    ensures (IntentAmount(s) - Value(s)) % 0x1_0000_0000_0000_0000 == 0
    ensures -0x8000_0000_0000_0000 <= IntentAmount(s) < 0x8000_0000_0000_0000
    ensures Value(s) < 0x8000_0000_0000_0000 <==> IntentAmount(s) == Value(s)
  {
    DigitsOfDigits(s);
    WrapIsCongruent(Value(s));
  }

  lemma WrapIsCongruent(v: nat)
    ensures (Wrap64(v) - v) % TWO_64 == 0
    ensures v <= MAX_INT64 <==> Wrap64(v) == v
  {
    var q := (v + TWO_63) / TWO_64;
    assert Wrap64(v) - v == (-q) * TWO_64 + 0;
    DivModUnique(Wrap64(v) - v, -q, 0);
  }

  /** Characters that are no digits make no difference. */
  lemma OnlyDigitsCount(a: string, c: char, b: string)
    requires !('0' <= c <= '9')
    ensures IntentAmount(a + [c] + b) == IntentAmount(a + b)
  {
    DigitsOfConcat(a + [c], b);
    DigitsOfConcat(a, [c]);
    DigitsOfConcat(a, b);
    assert [c][..0] == "";
    assert DigitsOf(a) + "" == DigitsOf(a);
  }

  lemma {:induction false} DigitsOfConcat(a: string, b: string)
    ensures DigitsOf(a + b) == DigitsOf(a) + DigitsOf(b)
  {
    if |b| == 0 {
      assert a + b == a && DigitsOf(a) + "" == DigitsOf(a);
    } else {
      assert (a + b)[..|a + b| - 1] == a + b[..|b| - 1];
      DigitsOfConcat(a, b[..|b| - 1]);
    }
  }

  // ------------------------------------------------ ValidateAmountString

  datatype AmountError = AmountRequired | NotNumeric | AmountOverflow

  /** Left-to-right scan with the int64 accumulator of the source. */
  function Scan(s: string): Result<int, AmountError> {
    if |s| == 0 then Ok(0)
    else
      match Scan(s[..|s| - 1])
      case Err(e) => Err(e)
      case Ok(v) =>
        var c := s[|s| - 1];
        if !IsDigit(c) then Err(NotNumeric)
        else
          var w := Wrap64(v * 10 + DigitValue(c));
          if w < 0 then Err(AmountOverflow) else Ok(w)
  }

  function Validate(s: string): Result<int, AmountError> {
    if s == "" then Err(AmountRequired) else Scan(s)
  }

  lemma {:induction false} ScanStopsAtFirstError(s: string, k: nat)
    requires k <= |s| && Scan(s[..k]).Err?
    ensures Scan(s) == Scan(s[..k])
    decreases |s|
  {
    if k == |s| {
      assert s[..k] == s;
    } else {
      assert s[..|s| - 1][..k] == s[..k];
      ScanStopsAtFirstError(s[..|s| - 1], k);
    }
  }

  method ValidateAmountString(amount: string) returns (r: Result<int, AmountError>)
    ensures r == Validate(amount)
  {
    if amount == "" {
      return Err(AmountRequired);
    }
    var v, i := 0, 0;
    while i < |amount|
      invariant 0 <= i <= |amount|
      invariant Scan(amount[..i]) == Ok(v)
    {
      assert amount[..i + 1][..i] == amount[..i];
      if amount[i] < '0' || amount[i] > '9' {
        ScanStopsAtFirstError(amount, i + 1);
        return Err(NotNumeric);
      }
      v := Wrap64(v * 10 + DigitValue(amount[i]));
      if v < 0 {
        ScanStopsAtFirstError(amount, i + 1);
        return Err(AmountOverflow);
      }
      i := i + 1;
    }
    assert amount[..i] == amount;
    r := Ok(v);
  }

  lemma {:induction false} ScanIsIntentAmount(s: string)
    requires Scan(s).Ok?
    ensures AllDigits(s) && Scan(s).value == IntentAmount(s) && Scan(s).value >= 0
  {
    if |s| > 0 {
      var front, c := s[..|s| - 1], s[|s| - 1];
      ScanIsIntentAmount(front);
      assert s == front + [c];
      DigitsOfDigits(front);
      DigitsOfDigits(s);
      ValueAppend(front, c);
      WrapStep(Value(front), DigitValue(c));
    } else {
      DigitsOfDigits(s);
    }
  }

  /** Whenever validation accepts, it returns exactly what the policy engine will later read,
      and that is the denoted number precisely when the number fits an int64. */
  lemma AcceptedAmountsAgree(s: string)
    requires Validate(s).Ok?
    ensures AllDigits(s) && Validate(s) == Ok(IntentAmount(s))
    ensures Validate(s) == Ok(Value(s)) <==> Value(s) <= MAX_INT64
  {
    ScanIsIntentAmount(s);
    AmountIsValueModulo(s);
  }

  lemma PrefixValue(s: string, k: nat)
    requires AllDigits(s) && k <= |s|
    ensures AllDigits(s[..k]) && Value(s[..k]) <= Value(s)
    decreases |s|
  {
    if k == |s| {
      assert s[..k] == s;
    } else {
      PrefixValue(s[..|s| - 1], k);
      assert s[..|s| - 1][..k] == s[..k];
    }
  }

  lemma WrapSign(v: nat)
    ensures Wrap64(v) >= 0 <==> (v / TWO_63) % 2 == 0
  {
    var q, r := v / TWO_63, v % TWO_63;
    assert v == q * TWO_63 + r;
    if q % 2 == 0 {
      assert v + TWO_63 == (q / 2) * TWO_64 + (r + TWO_63);
      DivModUnique(v + TWO_63, q / 2, r + TWO_63);
    } else {
      assert v + TWO_63 == (q / 2 + 1) * TWO_64 + r;
      DivModUnique(v + TWO_63, q / 2 + 1, r);
    }
  }

  /** Bit 63 of the number denoted by the first `k` digits. */
  predicate Bit63Clear(s: string, k: nat)
    requires AllDigits(s) && k <= |s|
  {
    (Value(s[..k]) / TWO_63) % 2 == 0
  }

  lemma Bit63OfPrefix(s: string, n: nat, k: nat)
    requires AllDigits(s) && k <= n <= |s|
    ensures Bit63Clear(s[..n], k) <==> Bit63Clear(s, k)
  {
    assert s[..n][..k] == s[..k];
  }

  lemma ScanEmpty(s: string)
    requires s == ""
    ensures Scan(s) == Ok(0) && Bit63Clear(s, 0)
  {
    assert s[..0] == "";
  }

  lemma ScanFront(s: string)
    requires |s| > 0 && Scan(s[..|s| - 1]).Err?
    ensures Scan(s) == Scan(s[..|s| - 1])
  {
  }

  /** The exact acceptance condition on digit strings, free of machine arithmetic: no prefix
      denotes a number with bit 63 set. Otherwise the answer is an overflow. */
  lemma ScanAcceptsIff(s: string)
    requires AllDigits(s)
    ensures Scan(s).Ok? <==> forall k :: 0 <= k <= |s| ==> Value(s[..k]) / 0x8000_0000_0000_0000 % 2 == 0
    ensures Scan(s).Err? ==> Scan(s) == Err(AmountOverflow)
  {
    ScanAcceptsPrefixes(s);
    assert forall k :: 0 <= k <= |s| ==> (Bit63Clear(s, k) <==> Value(s[..k]) / 0x8000_0000_0000_0000 % 2 == 0);
  }

  lemma {:induction false} ScanAcceptsPrefixes(s: string)
    requires AllDigits(s)
    ensures Scan(s).Ok? <==> forall k :: 0 <= k <= |s| ==> Bit63Clear(s, k)
    ensures Scan(s).Err? ==> Scan(s) == Err(AmountOverflow)
  {
    hide Wrap64, Scan, Bit63Clear;
    if |s| == 0 {
      ScanEmpty(s);
    } else {
      var front := s[..|s| - 1];
      ScanAcceptsPrefixes(front);
      forall k | 0 <= k <= |front| ensures Bit63Clear(front, k) <==> Bit63Clear(s, k) {
        Bit63OfPrefix(s, |front|, k);
      }
      if Scan(front).Ok? {
        ScanLastDigit(s);
      } else {
        ScanFront(s);
        var k :| 0 <= k <= |front| && !Bit63Clear(front, k);
        assert !Bit63Clear(s, k);
      }
    }
  }

  lemma ScanAppend(front: string, c: char, v: int)
    requires IsDigit(c) && Scan(front) == Ok(v)
    ensures Scan(front + [c])
         == var w := Wrap64(v * 10 + DigitValue(c)); if w < 0 then Err(AmountOverflow) else Ok(w)
  {
    assert (front + [c])[..|front|] == front;
  }

  lemma ScanLastDigit(s: string)
    requires AllDigits(s) && |s| > 0 && Scan(s[..|s| - 1]).Ok?
    ensures Scan(s).Ok? <==> Bit63Clear(s, |s|)
    ensures Scan(s).Err? ==> Scan(s) == Err(AmountOverflow)
  {
    hide Wrap64, Scan, Value, DigitsOf, Bit63Clear;
    var front, c := s[..|s| - 1], s[|s| - 1];
    ScanIsIntentAmount(front);
    DigitsOfDigits(front);
    assert s == front + [c];
    ScanAppend(front, c, Scan(front).value);
    ValueAppend(front, c);
    WrapStep(Value(front), DigitValue(c));
    LastBit63(s);
  }

  lemma LastBit63(s: string)
    requires AllDigits(s)
    ensures Bit63Clear(s, |s|) <==> Wrap64(Value(s)) >= 0
  {
    hide Wrap64, Value;
    assert s[..|s|] == s;
    WrapSign(Value(s));
  }

  /** On any other string the scan ends at the first character that is no digit, or at an overflow before
      it; the empty string is an error of its own. */
  lemma NonDigitsAreRefused(digits: string, c: char, rest: string)
    requires AllDigits(digits) && !('0' <= c <= '9')
    ensures Validate("") == Err(AmountRequired)
    ensures Validate(digits + [c] + rest) == if Scan(digits).Ok? then Err(NotNumeric) else Err(AmountOverflow)
  {
    var s, k := digits + [c] + rest, |digits|;
    assert s[..k] == digits && s[..k + 1] == digits + [c] && s[..k + 1][..k] == digits;
    ScanAcceptsIff(digits);
    ScanStopsAtFirstError(s, if Scan(digits).Ok? then k + 1 else k);
  }

  /** An overflow report is never spurious. */
  lemma OverflowIsGenuine(s: string)
    requires AllDigits(s) && Validate(s) == Err(AmountOverflow)
    ensures Value(s) > 0x7FFF_FFFF_FFFF_FFFF
  {
    ScanAcceptsPrefixes(s);
    var k :| 0 <= k <= |s| && !Bit63Clear(s, k);
    PrefixValue(s, k);
  }

  function SignificantDigits(s: string): nat {
    if |s| > 0 && s[0] == '0' then SignificantDigits(s[1..]) else |s|
  }

  function Pow10(n: nat): (p: nat)
    ensures p > 0
  {
    if n == 0 then 1 else 10 * Pow10(n - 1)
  }

  lemma {:induction false} ValueBelowPow10(s: string)
    requires AllDigits(s)
    ensures Value(s) < Pow10(|s|)
  {
    if |s| == 0 {
    } else {
      ValueBelowPow10(s[..|s| - 1]);
    }
  }

  lemma {:induction false} LeadingZero(s: string)
    requires AllDigits(s) && |s| > 0 && s[0] == '0'
    ensures Value(s) == Value(s[1..])
  {
    if |s| > 1 {
      LeadingZero(s[..|s| - 1]);
      assert s[..|s| - 1][1..] == s[1..][..|s[1..]| - 1];
    } else {
      assert s[1..] == "" && s[..0] == "";
    }
  }

  lemma {:induction false} SignificantDigitsBound(s: string)
    requires AllDigits(s)
    ensures Value(s) < Pow10(SignificantDigits(s))
  {
    if |s| > 0 && s[0] == '0' {
      LeadingZero(s);
      SignificantDigitsBound(s[1..]);
    } else {
      ValueBelowPow10(s);
    }
  }

  lemma Pow10Monotone(m: nat, n: nat)
    requires m <= n
    ensures Pow10(m) <= Pow10(n)
  {
    if m < n {
      Pow10Monotone(m, n - 1);
    }
  }

  lemma Pow10Nineteen()
    ensures Pow10(19) == 10_000_000_000_000_000_000
  {
    assert Pow10(10) == 10_000_000_000;
  }

  /** Up to 19 significant digits: accepted iff the number fits, and then returned exactly. */
  lemma NineteenDigitsAreExact(s: string)
    requires AllDigits(s) && s != "" && SignificantDigits(s) <= 19
    ensures Value(s) <= 0x7FFF_FFFF_FFFF_FFFF ==> Validate(s) == Ok(Value(s))
    ensures Value(s) > 0x7FFF_FFFF_FFFF_FFFF ==> Validate(s) == Err(AmountOverflow)
  {
    SignificantDigitsBound(s);
    Pow10Monotone(SignificantDigits(s), 19);
    Pow10Nineteen();
    FittingAmountsAreExact(s);
    ScanAcceptsPrefixes(s);
    assert s[..|s|] == s;
    if Value(s) > MAX_INT64 {
      assert Value(s) / TWO_63 == 1;
      assert !Bit63Clear(s, |s|);
    }
  }

  /** With no bound on the length, every number that fits is accepted and returned exactly. */
  lemma FittingAmountsAreExact(s: string)
    requires AllDigits(s) && s != ""
    ensures Value(s) <= 0x7FFF_FFFF_FFFF_FFFF <==> Validate(s) == Ok(Value(s))
  {
    ScanAcceptsPrefixes(s);
    if Value(s) <= MAX_INT64 {
      forall k | 0 <= k <= |s| ensures Bit63Clear(s, k) {
        PrefixValue(s, k);
      }
    }
    if Validate(s).Ok? {
      AcceptedAmountsAgree(s);
    }
  }

  // ------------------------------------------------------ AmountToString

  function DigitChar(d: nat): (c: char)
    requires d <= 9
    ensures IsDigit(c) && DigitValue(c) == d
  {
    ('0' as int + d) as char
  }

  function ToDecimal(n: nat): (s: string)
    ensures AllDigits(s) && s != ""
  {
    if n < 10 then [DigitChar(n)] else ToDecimal(n / 10) + [DigitChar(n % 10)]
  }

  /** `fmt.Sprintf("%d", amount)`. */
  function AmountToString(amount: int): string {
    if amount < 0 then "-" + ToDecimal(-amount) else ToDecimal(amount)
  }

  lemma {:induction false} ToDecimalValue(n: nat)
    ensures Value(ToDecimal(n)) == n
  {
    if n < 10 {
      assert Value("") == 0;
      ValueAppend("", DigitChar(n));
      assert "" + [DigitChar(n)] == ToDecimal(n);
    } else {
      ToDecimalValue(n / 10);
      ValueAppend(ToDecimal(n / 10), DigitChar(n % 10));
    }
  }

  /** Decimal notation, last digit first. */
  lemma DecimalNotation(q: nat, d: nat)
    requires d <= 9
    ensures AmountToString(d) == ["0123456789"[d]]
    ensures q > 0 ==> AmountToString(10 * q + d) == AmountToString(q) + ["0123456789"[d]]
    ensures q > 0 ==> AmountToString(0 - q) == "-" + AmountToString(q)
  {
    assert DigitChar(d) == "0123456789"[d];
    if q > 0 {
      assert (10 * q + d) / 10 == q && (10 * q + d) % 10 == d;
    }
  }

  /** And the number that a string in that notation denotes. */
  lemma ValueOfNext(s: string, c: char)
    requires AllDigits(s) && '0' <= c <= '9'
    ensures Value("") == 0 && AllDigits(s + [c]) && Value(s + [c]) == 10 * Value(s) + (c as int - '0' as int)
  {
    ValueAppend(s, c);
  }

  // ------------------------------------------------- library int parsers

  /** The optional sign that both library parsers accept. */
  function Unsigned(s: string): string {
    if |s| > 0 && (s[0] == '+' || s[0] == '-') then s[1..] else s
  }

  /** `new(big.Int).SetString(s, 10)`. */
  function ParseBig(s: string): Option<int> {
    var digits := Unsigned(s);
    if digits == "" || !AllDigits(digits) then None
    else
      var v: int := Value(digits);
      Some(if s[0] == '-' then -v else v)
  }

  datatype ParseIntError = Syntax | Range

  /** `strconv.ParseInt(s, 10, 64)`. */
  function ParseInt64(s: string): Result<int, ParseIntError> {
    match ParseBig(s)
    case None => Err(Syntax)
    case Some(v) => if -TWO_63 <= v <= MAX_INT64 then Ok(v) else Err(Range)
  }

  lemma BigReads(digits: string)
    requires digits != "" && AllDigits(digits)
    ensures ParseBig(digits) == Some(Value(digits)) && ParseBig("+" + digits) == Some(Value(digits))
    ensures ParseBig("-" + digits) == Some(0 - Value(digits))
  {
    assert IsDigit(digits[0]);
    assert ("+" + digits)[1..] == digits && ("-" + digits)[1..] == digits;
  }

  lemma BigReadsOnly(s: string)
    requires ParseBig(s).Some?
    ensures exists digits :: digits != "" && AllDigits(digits) && (s == digits || s == "+" + digits || s == "-" + digits)
  {
    var digits := Unsigned(s);
    assert digits != "" && AllDigits(digits);
    assert s == digits || s == [s[0]] + digits;
  }

  /** What the two library parsers read: digits with at most one sign before them, and nothing else; the
      int64 parser only within its range. */
  lemma ParsersReadIff(s: string)
    ensures ParseBig(s).Some? <==>
      exists digits :: digits != "" && AllDigits(digits) && (s == digits || s == "+" + digits || s == "-" + digits)
    ensures forall digits :: digits != "" && AllDigits(digits) ==>
      && ParseBig(digits) == Some(Value(digits)) && ParseBig("+" + digits) == Some(Value(digits))
      && ParseBig("-" + digits) == Some(0 - Value(digits))
    ensures ParseInt64(s) == (if ParseBig(s).None? then Err(Syntax)
                              else if -0x8000_0000_0000_0000 <= ParseBig(s).value < 0x8000_0000_0000_0000 then
                                Ok(ParseBig(s).value)
                              else Err(Range))
  {
    hide ParseBig, Value;
    forall digits | digits != "" && AllDigits(digits)
      ensures ParseBig(digits) == Some(Value(digits)) && ParseBig("+" + digits) == Some(Value(digits))
      ensures ParseBig("-" + digits) == Some(0 - Value(digits))
    {
      BigReads(digits);
    }
    if ParseBig(s).Some? {
      BigReadsOnly(s);
    }
  }

  /** Every non-negative int64 that the service writes as a string is read back unchanged by the
      policy engine, by validation, by the simulator and by the proof generator. */
  lemma StoredAmountsReadBack(n: nat)
    requires n <= MAX_INT64
    ensures IntentAmount(AmountToString(n)) == n
    ensures Validate(AmountToString(n)) == Ok(n)
    ensures ParseInt64(AmountToString(n)) == Ok(n)
    ensures ParseBig(AmountToString(n)) == Some(n)
  {
    var s := ToDecimal(n);
    ToDecimalValue(n);
    AmountIsValueModulo(s);
    FittingAmountsAreExact(s);
    assert IsDigit(s[0]);
  }

  /** The converse of OverflowIsGenuine fails from 20 digits on: each of these 2^63 numbers is
      accepted as a number that is 2^64 smaller. */
  lemma LongAmountsCanBeMisread(n: nat)
    requires TWO_64 <= n < TWO_64 + TWO_63
    ensures Validate(ToDecimal(n)) == Ok(n - TWO_64)
  {
    hide Scan, ToDecimal, AllDigits, IsDigit, Wrap64;
    ToDecimalLast(n);
    MisreadDigit(n / 10, n % 10);
  }

  lemma ToDecimalLast(n: nat)
    requires n >= 10
    ensures ToDecimal(n) == ToDecimal(n / 10) + [DigitChar(n % 10)] && n == n / 10 * 10 + n % 10
  {
  }

  lemma MisreadDigit(q: nat, d: nat)
    requires d <= 9 && TWO_64 <= q * 10 + d < TWO_64 + TWO_63
    ensures Scan(ToDecimal(q) + [DigitChar(d)]) == Ok(q * 10 + d - TWO_64)
  {
    hide Scan, Value, Bit63Clear, Wrap64, ToDecimal;
    ToDecimalValue(q);
    FittingAmountsAreExact(ToDecimal(q));
    ScanAppend(ToDecimal(q), DigitChar(d), q);
    WrapOnce(q * 10 + d);
  }

  lemma WrapOnce(n: nat)
    requires TWO_64 <= n < TWO_64 + TWO_63
    ensures Wrap64(n) == n - TWO_64
  {
    DivModUnique(n + TWO_63, 1, n + TWO_63 - TWO_64);
  }

  lemma AmountToStringInjective(a: nat, b: nat)
    requires AmountToString(a) == AmountToString(b)
    ensures a == b
  {
    ToDecimalValue(a);
    ToDecimalValue(b);
  }

  // ------------------------------------------------- ValidateIntentInput

  datatype FieldError =
    WalletRequired | DestinationTooLong | TokenTooLong | CreatorTooLong | BadChain
    | AmountNotPositive | AmountTooLarge

  /** `len` of a Go string counts UTF-8 bytes. */
  function ByteLength(s: string): nat {
    |Bytes.Utf8(s)|
  }

  function LowerChar(c: char): char {
    if 'A' <= c <= 'Z' then (c as int + 32) as char else c
  }

  function ToLower(s: string): string {
    seq(|s|, i requires 0 <= i < |s| => LowerChar(s[i]))
  }

  predicate ValidateChain(chain: string) {
    ToLower(chain) in {"solana", "ethereum", "polygon"}
  }

  /** The name, letter by letter, some letters perhaps in upper case. */
  predicate Spells(chain: string, name: string) {
    && |chain| == |name|
    && forall i :: 0 <= i < |name| ==>
         chain[i] == name[i] || ('A' <= chain[i] <= 'Z' && chain[i] as int + 32 == name[i] as int)
  }

  lemma LowerSpells(chain: string, name: string)
    requires forall i :: 0 <= i < |name| ==> 'a' <= name[i] <= 'z'
    ensures ToLower(chain) == name <==> Spells(chain, name)
  {
    var lower := ToLower(chain);
    if lower == name {
      forall i | 0 <= i < |name|
        ensures chain[i] == name[i] || ('A' <= chain[i] <= 'Z' && chain[i] as int + 32 == name[i] as int)
      {
        assert lower[i] == LowerChar(chain[i]);
      }
    }
    if Spells(chain, name) {
      forall i | 0 <= i < |name| ensures lower[i] == name[i] {
        assert lower[i] == LowerChar(chain[i]);
      }
    }
  }

  /** The three chains, in any case. */
  lemma ValidateChainIff(chain: string)
    ensures ValidateChain(chain) <==> Spells(chain, "solana") || Spells(chain, "ethereum") || Spells(chain, "polygon")
  {
    LowerSpells(chain, "solana");
    LowerSpells(chain, "ethereum");
    LowerSpells(chain, "polygon");
  }

  /** What the creation route demands of a decoded request. */
  predicate AcceptableInput(walletId: string, destination: string, token: string, chain: string, creator: string,
                            amount: int) {
    && walletId != ""
    && ByteLength(destination) <= 64 && ByteLength(token) <= 64 && ByteLength(creator) <= 128
    && ValidateChain(chain)
    && 0 < amount <= MAX_INT64 / 2
  }

  /** Exactly the errors that hold, in the order of the checks: the route answers with the first. */
  method ValidateIntentInput(walletId: string, destination: string, token: string, chain: string, creator: string,
                             amount: int) returns (errs: seq<FieldError>)
    ensures errs ==
      (if walletId == "" then [WalletRequired] else [])
      + (if |Bytes.Utf8(destination)| > 64 then [DestinationTooLong] else [])
      + (if |Bytes.Utf8(token)| > 64 then [TokenTooLong] else [])
      + (if |Bytes.Utf8(creator)| > 128 then [CreatorTooLong] else [])
      + (if Spells(chain, "solana") || Spells(chain, "ethereum") || Spells(chain, "polygon") then [] else [BadChain])
      + (if amount <= 0 then [AmountNotPositive] else if amount > 0x3FFF_FFFF_FFFF_FFFF then [AmountTooLarge] else [])
    ensures errs == [] <==> AcceptableInput(walletId, destination, token, chain, creator, amount)
  {
    hide ByteLength, ValidateChain, Bytes.Utf8, Spells;
    ValidateChainIff(chain);
    ByteLengthIs(destination);
    ByteLengthIs(token);
    ByteLengthIs(creator);
    ghost var wallet := if walletId == "" then [WalletRequired] else [];
    ghost var long1 := if |Bytes.Utf8(destination)| > 64 then [DestinationTooLong] else [];
    ghost var long2 := if |Bytes.Utf8(token)| > 64 then [TokenTooLong] else [];
    ghost var long3 := if |Bytes.Utf8(creator)| > 128 then [CreatorTooLong] else [];
    ghost var bad := if ValidateChain(chain) then [] else [BadChain];
    errs := [];
    if walletId == "" {
      errs := errs + [WalletRequired];
    }
    assert errs == wallet;
    if ByteLength(destination) > 64 {
      errs := errs + [DestinationTooLong];
    }
    assert errs == wallet + long1;
    if ByteLength(token) > 64 {
      errs := errs + [TokenTooLong];
    }
    assert errs == wallet + long1 + long2;
    if ByteLength(creator) > 128 {
      errs := errs + [CreatorTooLong];
    }
    assert errs == wallet + long1 + long2 + long3;
    if !ValidateChain(chain) {
      errs := errs + [BadChain];
    }
    assert errs == wallet + long1 + long2 + long3 + bad;
    if amount <= 0 {
      errs := errs + [AmountNotPositive];
    }
    if amount > MAX_INT64 / 2 {
      errs := errs + [AmountTooLarge];
    }
  }

  lemma ByteLengthIs(s: string)
    ensures ByteLength(s) == |Bytes.Utf8(s)|
  {
  }
}
