/** Amounts on the command line (`src/bin/gcob/commands/invoice.rs` and `xpay.rs`): exact
    decimal text to a `u64` number of millisatoshi. */
module Amounts {
  import opened Wrappers
  import opened Decimal

  datatype AmountError = InvalidMsat | InvalidSat | InvalidBtc | InvalidDigits | TooLarge | InvalidAmount

  /** One millisatoshi is 10^-11 BTC. */
  const BTC_DECIMALS: nat := 11
  const MSAT_PER_BTC: nat := 100_000_000_000

  // ---- text ----

  /** Unicode `White_Space`, which `trim` removes. */
  predicate IsSpace(c: char) {
    || '\U{9}' <= c <= '\U{D}' || c == ' ' || c == '\U{85}' || c == '\U{A0}' || c == '\U{1680}'
    || '\U{2000}' <= c <= '\U{200A}' || c == '\U{2028}' || c == '\U{2029}' || c == '\U{202F}'
    || c == '\U{205F}' || c == '\U{3000}'
  }

  predicate AllSpace(s: string) {
    forall i :: 0 <= i < |s| ==> IsSpace(s[i])
  }

  function TrimStart(s: string): string {
    if s != [] && IsSpace(s[0]) then TrimStart(s[1..]) else s
  }

  function TrimEnd(s: string): string {
    if s != [] && IsSpace(s[|s| - 1]) then TrimEnd(s[..|s| - 1]) else s
  }

  function Trim(s: string): string {
    TrimEnd(TrimStart(s))
  }

  function LowerChar(c: char): char {
    if 'A' <= c <= 'Z' then (c as int + 32) as char else c
  }

  function Lower(s: string): (r: string)
    ensures |r| == |s| && forall i :: 0 <= i < |s| ==> r[i] == LowerChar(s[i])
  {
    if s == [] then [] else [LowerChar(s[0])] + Lower(s[1..])
  }

  function StripSuffix(s: string, suffix: string): Option<string> {
    if |suffix| <= |s| && s[|s| - |suffix|..] == suffix then Some(s[..|s| - |suffix|]) else None
  }

  /** `split_once`: around the first occurrence. */
  function SplitOnce(s: string, c: char): Option<(string, string)> {
    if s == [] then None
    else if s[0] == c then Some(([], s[1..]))
    else
      match SplitOnce(s[1..], c)
      case None => None
      case Some((a, b)) => Some(([s[0]] + a, b))
  }

  // ---- parsing ----

  function Times1000(sats: nat): Result<nat, AmountError> {
    if sats * 1000 <= U64_MAX then Ok(sats * 1000) else Err(TooLarge)
  }

  function ParseOr(s: string, e: AmountError): Result<nat, AmountError> {
    match ParseU64(s) case None => Err(e) case Some(n) => Ok(n)
  }

  function ParseSat(s: string): Result<nat, AmountError> {
    match ParseU64(s) case None => Err(InvalidSat) case Some(n) => Times1000(n)
  }

  function BtcParts(value: string): (string, string) {
    match SplitOnce(value, '.') case None => (value, "") case Some(parts) => parts
  }

  /** What the code's `parse_btc_to_msat` computes, with the padding loop as arithmetic. */
  function ParseBtc(value: string): Result<nat, AmountError> {
    if value == [] || value[0] == '-' || value[0] == '+' then Err(InvalidBtc)
    else
      var (whole, frac) := BtcParts(value);
      if |frac| > BTC_DECIMALS || !AllDigits(whole) || !AllDigits(frac) then Err(InvalidDigits)
      else if Value(whole) > U64_MAX then Err(InvalidBtc)
      else
        var msat := Value(whole) * MSAT_PER_BTC + Value(frac) * Pow10(BTC_DECIMALS - |frac|);
        if msat > U64_MAX then Err(TooLarge) else Ok(msat)
  }

  function ParseAmount(text: string): Result<nat, AmountError> {
    var s := Lower(Trim(text));
    if StripSuffix(s, "msat").Some? then ParseOr(Trim(StripSuffix(s, "msat").value), InvalidMsat)
    else if StripSuffix(s, "sat").Some? then ParseSat(Trim(StripSuffix(s, "sat").value))
    else if StripSuffix(s, "btc").Some? then ParseBtc(Trim(StripSuffix(s, "btc").value))
    else ParseOr(s, InvalidAmount)
  }

  function ParseMsat(text: string): Result<nat, AmountError> {
    var s := Lower(Trim(text));
    if StripSuffix(s, "msat").Some? then ParseOr(Trim(StripSuffix(s, "msat").value), InvalidMsat)
    else if StripSuffix(s, "sat").Some? then ParseSat(Trim(StripSuffix(s, "sat").value))
    else ParseOr(s, InvalidAmount)
  }

  // ---- the padding loop ----

  function Zeros(n: nat): (s: string)
    ensures |s| == n && AllDigits(s)
  {
    if n == 0 then [] else Zeros(n - 1) + ['0']
  }

  lemma {:induction false} ZerosAreZero(n: nat)
    ensures Value(Zeros(n)) == 0
  {
    if n > 0 {
      ZerosAreZero(n - 1);
      assert Zeros(n)[..n - 1] == Zeros(n - 1);
    }
  }

  /** Zeros at the end of a fraction shift its value. */
  lemma PaddedValue(frac: string, n: nat)
    requires AllDigits(frac)
    ensures AllDigits(frac + Zeros(n)) && Value(frac + Zeros(n)) == Value(frac) * Pow10(n)
  {
    ValueConcat(frac, Zeros(n));
    ZerosAreZero(n);
  }

  lemma FractionFits(frac: string)
    requires AllDigits(frac) && |frac| <= BTC_DECIMALS
    ensures Value(frac + Zeros(BTC_DECIMALS - |frac|)) < MSAT_PER_BTC
  {
    ValueBound(frac + Zeros(BTC_DECIMALS - |frac|));
    PowersOfTen();
  }

  lemma PowersOfTen()
    ensures Pow10(BTC_DECIMALS) == MSAT_PER_BTC
  {
    assert Pow10(4) == 10_000;
    assert Pow10(8) == 100_000_000;
  }

  lemma DigitsParse(s: string)
    requires AllDigits(s) && s != []
    ensures ParseU64(s) == if Value(s) <= U64_MAX then Some(Value(s)) else None
  {
    assert IsDigit(s[0]);
  }

  /** The whole coins of an amount. */
  lemma WholePart(whole: string)
    requires AllDigits(whole)
    ensures whole == [] ==> Value(whole) == 0
    ensures whole != [] ==> ParseU64(whole) == if Value(whole) <= U64_MAX then Some(Value(whole)) else None
  {
    if whole != [] { DigitsParse(whole); }
  }

  lemma FractionPart(frac: string)
    requires AllDigits(frac) && |frac| <= BTC_DECIMALS
    ensures frac == [] ==> Value(frac) * Pow10(BTC_DECIMALS) == 0
    ensures frac != [] ==>
        ParseU64(frac + Zeros(BTC_DECIMALS - |frac|)) == Some(Value(frac) * Pow10(BTC_DECIMALS - |frac|))
  {
    hide Value, Pow10, Zeros, ParseU64, AllDigits;
    if frac == [] {
      EmptyIsZero(frac);
    } else {
      PaddedParses(frac);
    }
  }

  lemma PaddedParses(frac: string)
    requires AllDigits(frac) && frac != [] && |frac| <= BTC_DECIMALS
    ensures ParseU64(frac + Zeros(BTC_DECIMALS - |frac|)) == Some(Value(frac) * Pow10(BTC_DECIMALS - |frac|))
  {
    hide Value, Pow10, Zeros, ParseU64, AllDigits;
    PaddedValue(frac, BTC_DECIMALS - |frac|);
    FractionFits(frac);
    DigitsParse(frac + Zeros(BTC_DECIMALS - |frac|));
  }

  lemma EmptyIsZero(frac: string)
    requires frac == []
    ensures Value(frac) * Pow10(BTC_DECIMALS) == 0
  {
    hide Pow10;
  }

  /** `parse_btc_to_msat`. */
  method ParseBtcToMsat(value: string) returns (r: Result<nat, AmountError>)
    ensures r == ParseBtc(value)
  {
    hide Value, Pow10, ParseU64, BtcParts, AllDigits;
    if value == [] || value[0] == '-' || value[0] == '+' {
      return Err(InvalidBtc);
    }
    var (whole, frac) := BtcParts(value);
    if |frac| > BTC_DECIMALS || !AllDigits(whole) || !AllDigits(frac) {
      return Err(InvalidDigits);
    }
    WholePart(whole);
    FractionPart(frac);

    var wholeBtc := 0;
    if whole != [] {
      var parsed := ParseU64(whole);
      if parsed.None? {
        return Err(InvalidBtc);
      }
      wholeBtc := parsed.value;
    }
    if wholeBtc * MSAT_PER_BTC > U64_MAX {
      return Err(TooLarge);
    }

    var fracMsat := 0;
    if frac != [] {
      var padded := frac;
      while |padded| < BTC_DECIMALS
        invariant |frac| <= |padded| <= BTC_DECIMALS
        invariant padded == frac + Zeros(|padded| - |frac|)
      {
        padded := padded + ['0'];
      }
      var parsed := ParseU64(padded);
      if parsed.None? {
        return Err(InvalidBtc);
      }
      fracMsat := parsed.value;
    }
    if wholeBtc * MSAT_PER_BTC + fracMsat > U64_MAX {
      return Err(TooLarge);
    }
    return Ok(wholeBtc * MSAT_PER_BTC + fracMsat);
  }

  // ---- what a BTC amount denotes ----

  /** `value` is written as digits with an optional decimal point. */
  ghost predicate Spells(value: string, whole: string, frac: string) {
    && AllDigits(whole) && AllDigits(frac)
    && (value == whole + "." + frac || (value == whole && frac == "" && whole != ""))
  }

  /** `msat` is exactly the number `whole.frac` in units of 10^-11. */
  ghost predicate Exactly(whole: string, frac: string, msat: nat)
    requires AllDigits(whole) && AllDigits(frac)
  {
    ValueConcat(whole, frac);
    msat * Pow10(|frac|) == Value(whole + frac) * Pow10(BTC_DECIMALS)
  }

  ghost predicate Denotes(value: string, msat: nat) {
    exists whole, frac :: Spells(value, whole, frac) && |frac| <= BTC_DECIMALS && Exactly(whole, frac, msat)
  }

  lemma {:induction false} SplitFirst(whole: string, c: char, frac: string)
    requires c !in whole
    ensures SplitOnce(whole + [c] + frac, c) == Some((whole, frac))
  {
    var s := whole + [c] + frac;
    if whole == [] {
      assert s[1..] == frac;
    } else {
      assert s[1..] == whole[1..] + [c] + frac;
      SplitFirst(whole[1..], c, frac);
      assert s[0] == whole[0] && [whole[0]] + whole[1..] == whole;
    }
  }

  lemma {:induction false} SplitNone(s: string, c: char)
    requires c !in s
    ensures SplitOnce(s, c) == None
  {
    if s != [] { SplitNone(s[1..], c); }
  }

  lemma {:induction false} SplitJoins(s: string, c: char)
    ensures SplitOnce(s, c).Some? ==>
      var (a, b) := SplitOnce(s, c).value;
      s == a + [c] + b && c !in a
    ensures SplitOnce(s, c).None? ==> c !in s
  {
    if s != [] && s[0] != c { SplitJoins(s[1..], c); }
  }

  /** The spelling of an amount is unique, and is what the parser splits it into. */
  lemma SpellingIsUnique(value: string, whole: string, frac: string)
    requires Spells(value, whole, frac)
    ensures BtcParts(value) == (whole, frac)
    ensures value != [] && value[0] != '-' && value[0] != '+'
  {
    if value == whole + "." + frac {
      SplitFirst(whole, '.', frac);
    } else {
      SplitNone(value, '.');
    }
    assert whole != [] ==> IsDigit(whole[0]) && value[0] == whole[0];
  }

  lemma PartsSpell(value: string)
    requires value != [] && AllDigits(BtcParts(value).0) && AllDigits(BtcParts(value).1)
    ensures Spells(value, BtcParts(value).0, BtcParts(value).1)
  {
    SplitJoins(value, '.');
  }

  lemma {:induction false} Pow10Add(m: nat, n: nat)
    ensures Pow10(m + n) == Pow10(m) * Pow10(n)
  {
    if m > 0 {
      Pow10Add(m - 1, n);
      assert Pow10(m) == 10 * Pow10(m - 1);
      Assoc(10, Pow10(m - 1), Pow10(n));
    }
  }

  lemma Assoc(a: nat, b: nat, c: nat)
    ensures a * (b * c) == a * b * c
  {
  }

  lemma Spread(x: nat, f: nat, y: nat, g: nat)
    ensures (x * (f * g) + y * g) * f == (x * f + y) * (f * g)
  {
    assert (x * (f * g) + y * g) * f == x * (f * g) * f + y * g * f;
    assert (x * f + y) * (f * g) == x * f * (f * g) + y * (f * g);
  }

  lemma CancelFactor(a: nat, b: nat, c: nat)
    requires c > 0 && a * c == b * c
    ensures a == b
  {
  }

  /** The parser's sum is the exact value. */
  lemma SumIsExact(whole: string, frac: string, msat: nat)
    requires AllDigits(whole) && AllDigits(frac) && |frac| <= BTC_DECIMALS
    ensures Exactly(whole, frac, msat) <==>
            msat == Value(whole) * MSAT_PER_BTC + Value(frac) * Pow10(BTC_DECIMALS - |frac|)
  {
    hide Value, Pow10;
    ValueConcat(whole, frac);
    PowersOfTen();
    Pow10Add(|frac|, BTC_DECIMALS - |frac|);
    ScaledSum(Value(whole), Value(frac), Pow10(|frac|), Pow10(BTC_DECIMALS - |frac|), msat);
  }

  lemma ScaledSum(x: nat, y: nat, f: nat, g: nat, msat: nat)
    requires f > 0
    ensures msat * f == (x * f + y) * (f * g) <==> msat == x * (f * g) + y * g
  {
    Spread(x, f, y, g);
    if msat * f == (x * f + y) * (f * g) {
      CancelFactor(msat, x * (f * g) + y * g, f);
    }
  }

  lemma ParsedDenotes(value: string, msat: nat)
    requires ParseBtc(value) == Ok(msat)
    ensures Denotes(value, msat) && msat <= U64_MAX
  {
    hide Value, Pow10, Spells, Exactly, BtcParts;
    var (whole, frac) := BtcParts(value);
    PartsSpell(value);
    SumIsExact(whole, frac, msat);
  }

  lemma DenotedParses(value: string, msat: nat)
    requires Denotes(value, msat) && msat <= U64_MAX
    ensures ParseBtc(value) == Ok(msat)
  {
    hide Value, Pow10, Exactly, BtcParts;
    var whole, frac :| Spells(value, whole, frac) && |frac| <= BTC_DECIMALS && Exactly(whole, frac, msat);
    SpellingIsUnique(value, whole, frac);
    SumIsExact(whole, frac, msat);
    hide Spells;
    assert Value(whole) <= Value(whole) * MSAT_PER_BTC;
  }

  /** The parser accepts exactly the decimal spellings with at most eleven decimals whose
      exact value fits into a u64, and returns that value. */
  lemma ParseBtcExact(value: string, msat: nat)
    ensures ParseBtc(value) == Ok(msat) <==> Denotes(value, msat) && msat <= U64_MAX
  {
    hide ParseBtc, Denotes;
    if ParseBtc(value) == Ok(msat) { ParsedDenotes(value, msat); }
    if Denotes(value, msat) && msat <= U64_MAX { DenotedParses(value, msat); }
  }

  /** If what follows the first point is all digits, there is no other point. */
  lemma OnePoint(whole: string, frac: string)
    ensures var (w, f) := BtcParts(whole + "." + frac);
            AllDigits(f) ==> w == whole && f == frac
  {
    var a := whole + "." + frac;
    assert a[|whole|] == '.';
    SplitJoins(a, '.');
    var (w, f) := BtcParts(a);
    assert a == w + ['.'] + f && a[|w|] == '.';
    if |w| < |whole| {
      assert f[|whole| - |w| - 1] == '.';
    } else {
      assert forall i :: 0 <= i < |w| ==> a[i] == w[i] && w[i] != '.';
      assert w == a[..|w|] && f == a[|w| + 1..];
      assert whole == a[..|whole|] && frac == a[|whole| + 1..];
    }
  }

  lemma ShiftedValue(f: string)
    requires AllDigits(f) && |f| < BTC_DECIMALS
    ensures AllDigits(f + "0")
    ensures Value(f + "0") * Pow10(BTC_DECIMALS - |f + "0"|) == Value(f) * Pow10(BTC_DECIMALS - |f|)
  {
    assert (f + "0")[..|f|] == f;
    Shift(Value(f), BTC_DECIMALS - |f|);
  }

  lemma NotAllDigits(f: string)
    requires !AllDigits(f)
    ensures !AllDigits(f + "0")
  {
    var i :| 0 <= i < |f| && !IsDigit(f[i]);
    assert (f + "0")[i] == f[i];
  }

  /** More zeros at the end of the fraction, as long as they fit, change nothing. */
  lemma TrailingZero(whole: string, frac: string)
    requires |frac| < BTC_DECIMALS
    ensures ParseBtc(whole + "." + frac + "0") == ParseBtc(whole + "." + frac)
  {
    var a := whole + "." + frac;
    assert a[|whole|] == '.' && (a + "0")[0] == a[0];
    SplitAppend(a, '.', "0");
    OnePoint(whole, frac);
    var (w, f) := BtcParts(a);
    assert BtcParts(a + "0") == (w, f + "0");
    hide SplitOnce, Value, Pow10, BtcParts;
    if AllDigits(f) {
      ShiftedValue(f);
    } else {
      NotAllDigits(f);
    }
  }

  lemma {:induction false} SplitAppend(s: string, c: char, t: string)
    requires c in s
    ensures SplitOnce(s, c).Some? && SplitOnce(s + t, c) == Some((SplitOnce(s, c).value.0, SplitOnce(s, c).value.1 + t))
  {
    if s[0] == c {
      assert (s + t)[1..] == s[1..] + t;
    } else {
      assert (s + t)[1..] == s[1..] + t;
      SplitAppend(s[1..], c, t);
    }
  }

  lemma Shift(x: nat, n: nat)
    requires n > 0
    ensures x * 10 * Pow10(n - 1) == x * Pow10(n)
  {
    Assoc(x, 10, Pow10(n - 1));
  }

  /** Zeros in front of the number change nothing. */
  lemma LeadingZero(value: string)
    requires value != []
    ensures ParseBtc("0" + value).Ok? <==> ParseBtc(value).Ok?
    ensures ParseBtc(value).Ok? ==> ParseBtc("0" + value) == ParseBtc(value)
  {
    var (whole, frac) := BtcParts(value);
    assert ("0" + value)[1..] == value;
    assert BtcParts("0" + value) == ("0" + whole, frac);
    assert value[0] != '.' ==> whole != [] && whole[0] == value[0];
    if AllDigits(whole) {
      assert value[0] != '-' && value[0] != '+' by { assert whole != [] ==> IsDigit(whole[0]); }
      ValueConcat("0", whole);
      assert Value("0") == 0 by { assert "0"[..0] == ""; }
    } else {
      var i :| 0 <= i < |whole| && !IsDigit(whole[i]);
      assert ("0" + whole)[i + 1] == whole[i];
    }
  }

  // ---- whole amounts ----

  /** Characters that neither `trim` nor `to_lowercase` touches. */
  predicate Settled(s: string) {
    forall i :: 0 <= i < |s| ==> !IsSpace(s[i]) && LowerChar(s[i]) == s[i]
  }

  lemma SettledStays(s: string)
    requires Settled(s)
    ensures Trim(s) == s && Lower(s) == s
  {
  }

  lemma EndsWith(body: string, unit: string)
    requires Settled(body) && Settled(unit)
    ensures Lower(Trim(body + unit)) == body + unit
    ensures StripSuffix(body + unit, unit) == Some(body)
    ensures Trim(body) == body
  {
    SettledStays(body);
    SettledStays(body + unit);
    assert (body + unit)[|body|..] == unit && (body + unit)[..|body|] == body;
  }

  /** Another unit of the same last letter, or one that ends otherwise. */
  lemma OtherEnd(s: string, unit: string, k: nat)
    requires 0 < k <= |unit| && k <= |s| && s[|s| - k] != unit[|unit| - k]
    ensures StripSuffix(s, unit) == None
  {
    if |unit| <= |s| { assert s[|s| - |unit|..][|unit| - k] == s[|s| - k]; }
  }

  lemma MsatIsSettled()
    ensures Settled("msat") && Settled("sat") && Settled("btc")
  {
  }

  /** An amount with a unit goes to the parser of that unit. */
  lemma WithMsat(body: string)
    requires Settled(body)
    ensures ParseAmount(body + "msat") == ParseOr(body, InvalidMsat)
  {
    hide Trim, Lower, StripSuffix, ParseOr, ParseU64, Settled;
    MsatIsSettled();
    EndsWith(body, "msat");
  }

  lemma WithSat(body: string)
    requires Settled(body) && (body == [] || body[|body| - 1] != 'm')
    ensures ParseAmount(body + "sat") == ParseSat(body)
  {
    MsatIsSettled();
    EndsWith(body, "sat");
    if body != [] { OtherEnd(body + "sat", "msat", 4); }
    hide Trim, Lower, ParseSat, ParseU64, Settled;
  }

  lemma WithBtc(body: string)
    requires Settled(body)
    ensures ParseAmount(body + "btc") == ParseBtc(body)
  {
    hide Trim, Lower, StripSuffix, ParseBtc, ParseSat, ParseOr, Settled;
    MsatIsSettled();
    EndsWith(body, "btc");
    OtherEnd(body + "btc", "msat", 1);
    OtherEnd(body + "btc", "sat", 1);
  }

  lemma DigitsAreSettled(s: string)
    requires forall i :: 0 <= i < |s| ==> IsDigit(s[i]) || s[i] == '.'
    ensures Settled(s)
  {
  }

  lemma {:induction false} PrintLength(n: nat, k: nat)
    requires 1 <= k && n < Pow10(k)
    ensures |Print(n)| <= k
  {
    if n >= 10 {
      assert k > 1;
      PrintLength(n / 10, k - 1);
    }
  }

  /** `n` with leading zeros up to eleven digits. */
  function Digits11(n: nat): string {
    if |Print(n)| <= BTC_DECIMALS then Zeros(BTC_DECIMALS - |Print(n)|) + Print(n) else Print(n)
  }

  lemma Digits11Value(n: nat)
    requires n < MSAT_PER_BTC
    ensures |Digits11(n)| == BTC_DECIMALS && AllDigits(Digits11(n)) && Value(Digits11(n)) == n
  {
    PowersOfTen();
    PrintLength(n, BTC_DECIMALS);
    ValuePrint(n);
    ZerosAreZero(BTC_DECIMALS - |Print(n)|);
    ValueConcat(Zeros(BTC_DECIMALS - |Print(n)|), Print(n));
  }

  /** A number of millisatoshi written in BTC with all eleven decimals. */
  function PrintBtc(msat: nat): string {
    Print(msat / MSAT_PER_BTC) + "." + Digits11(msat % MSAT_PER_BTC)
  }

  lemma PrintBtcParses(msat: nat)
    requires msat <= U64_MAX
    ensures ParseBtc(PrintBtc(msat)) == Ok(msat)
  {
    var whole, frac := Print(msat / MSAT_PER_BTC), Digits11(msat % MSAT_PER_BTC);
    ValuePrint(msat / MSAT_PER_BTC);
    Digits11Value(msat % MSAT_PER_BTC);
    hide Value, Print, Digits11;
    SpellingIsUnique(PrintBtc(msat), whole, frac);
    assert Pow10(0) == 1;
  }

  /** Every amount survives being written out, in any unit that can express it. */
  lemma RoundTrip(n: nat)
    requires n <= U64_MAX
    ensures ParseAmount(Print(n)) == Ok(n)
    ensures ParseAmount(Print(n) + "msat") == Ok(n)
    ensures ParseAmount(PrintBtc(n) + "btc") == Ok(n)
    ensures ParseAmount(Print(n) + "sat") == if n * 1000 <= U64_MAX then Ok(n * 1000) else Err(TooLarge)
  {
    ParsePrint(n);
    PrintBtcParses(n);
    BtcTextIsSettled(n);
    var s := Print(n);
    DigitsAreSettled(s);
    SettledStays(s);
    WithMsat(s);
    WithSat(s);
    WithBtc(PrintBtc(n));
    NoUnit(s);
  }

  lemma BtcTextIsSettled(n: nat)
    ensures Settled(PrintBtc(n))
  {
    var whole, frac := Print(n / MSAT_PER_BTC), Digits11(n % MSAT_PER_BTC);
    assert AllDigits(frac);
    forall i | 0 <= i < |PrintBtc(n)| ensures IsDigit(PrintBtc(n)[i]) || PrintBtc(n)[i] == '.' {
      if i < |whole| {
        assert PrintBtc(n)[i] == whole[i];
      } else if i > |whole| {
        assert PrintBtc(n)[i] == frac[i - |whole| - 1];
      }
    }
    DigitsAreSettled(PrintBtc(n));
  }

  lemma NoUnit(s: string)
    requires AllDigits(s) && s != []
    ensures StripSuffix(s, "msat").None? && StripSuffix(s, "sat").None? && StripSuffix(s, "btc").None?
  {
    assert IsDigit(s[|s| - 1]);
    OtherEnd(s, "msat", 1);
    OtherEnd(s, "sat", 1);
    OtherEnd(s, "btc", 1);
  }

  lemma NotANumber(s: string)
    requires s != [] && !IsDigit(s[|s| - 1])
    ensures ParseU64(s) == None
  {
    var digits := if s[0] == '+' then s[1..] else s;
    assert digits != [] ==> digits[|digits| - 1] == s[|s| - 1];
    hide Value;
  }

  lemma BtcIsNotMsat(s: string)
    requires StripSuffix(s, "btc").Some?
    ensures StripSuffix(s, "msat").None? && StripSuffix(s, "sat").None? && ParseU64(s) == None
  {
    assert s[|s| - 3..][2] == 'c';
    NotANumber(s);
    OtherEnd(s, "msat", 1);
    OtherEnd(s, "sat", 1);
  }

  /** The two parsers agree on everything except amounts in BTC, which only one of them
      knows. */
  lemma ParsersAgree(text: string)
    ensures var btc := StripSuffix(Lower(Trim(text)), "btc").Some?;
            && (btc ==> ParseMsat(text) == Err(InvalidAmount))
            && (!btc ==> ParseMsat(text) == ParseAmount(text))
  {
    hide StripSuffix, Trim, Lower, ParseU64, ParseBtc, ParseSat;
    if StripSuffix(Lower(Trim(text)), "btc").Some? {
      BtcIsNotMsat(Lower(Trim(text)));
    }
  }

  lemma {:induction false} TrimStartSpace(a: string, s: string)
    requires AllSpace(a)
    ensures TrimStart(a + s) == TrimStart(s)
  {
    if a == [] {
      assert a + s == s;
    } else {
      assert (a + s)[1..] == a[1..] + s;
      TrimStartSpace(a[1..], s);
    }
  }

  lemma {:induction false} TrimEndSpace(s: string, b: string)
    requires AllSpace(b)
    ensures TrimEnd(s + b) == TrimEnd(s)
  {
    if b == [] {
      assert s + b == s;
    } else {
      var b' := b[..|b| - 1];
      assert (s + b)[..|s + b| - 1] == s + b' && IsSpace(b[|b| - 1]);
      TrimEndSpace(s, b');
    }
  }

  lemma {:induction false} TrimSpaceAfter(s: string, b: string)
    requires AllSpace(b)
    ensures Trim(s + b) == Trim(s)
  {
    if s == [] {
      assert s + b == b && b + [] == b;
      TrimStartSpace(b, []);
    } else if IsSpace(s[0]) {
      assert (s + b)[1..] == s[1..] + b;
      TrimSpaceAfter(s[1..], b);
    } else {
      TrimEndSpace(s, b);
    }
  }

  /** Space around an amount does not matter. */
  lemma SpaceAround(a: string, s: string, b: string)
    requires AllSpace(a) && AllSpace(b)
    ensures ParseAmount(a + s + b) == ParseAmount(s) && ParseMsat(a + s + b) == ParseMsat(s)
  {
    assert a + s + b == a + (s + b);
    TrimStartSpace(a, s + b);
    TrimSpaceAfter(s, b);
  }
}
