/** What `parse_amount` (`src/bin/gcob/commands/invoice.rs`) accepts as a whole, and what it
    makes of it, without reference to how it goes about it. */
module AmountsExact {
  import opened Wrappers
  import opened Decimal
  import opened Amounts

  /** Digits, with a plus in front or not. */
  ghost predicate Counts(number: string, n: nat) {
    exists digits: string :: digits != [] && AllDigits(digits) && Value(digits) == n
      && (number == digits || number == "+" + digits)
  }

  /** The number in that unit is exactly `msat` millisatoshi. */
  ghost predicate IsWorth(number: string, unit: string, msat: nat) {
    if unit == "btc" then Denotes(number, msat)
    else if unit == "sat" then exists k: nat :: Counts(number, k) && msat == k * 1000
    else (unit == "msat" || unit == "") && Counts(number, msat)
  }

  /** A number, white space if a unit follows, and the unit in capitals, small letters or both;
      white space around it all. */
  ghost predicate Written(text: string, a: string, number: string, b: string, u: string, c: string) {
    && text == a + (number + b + u) + c
    && AllSpace(a) && AllSpace(b) && AllSpace(c) && (u == "" ==> b == "")
  }

  ghost predicate Means(text: string, msat: nat) {
    exists a, number, b, u, c :: Written(text, a, number, b, u, c) && IsWorth(number, Lower(u), msat)
  }

  // ---- text ----

  predicate IsNumberChar(c: char) {
    IsDigit(c) || c == '+' || c == '.'
  }

  predicate IsNumberText(s: string) {
    s != [] && forall i :: 0 <= i < |s| ==> IsNumberChar(s[i])
  }

  /** No white space at either end. */
  predicate Tight(s: string) {
    s == [] || (!IsSpace(s[0]) && !IsSpace(s[|s| - 1]))
  }

  lemma LowerConcat(x: string, y: string)
    ensures Lower(x + y) == Lower(x) + Lower(y)
  {
  }

  lemma LowerKeeps(s: string)
    requires AllSpace(s) || IsNumberText(s)
    ensures Lower(s) == s
  {
  }

  lemma LowerFrom(s: string)
    ensures AllSpace(Lower(s)) ==> AllSpace(s)
    ensures IsNumberText(Lower(s)) ==> Lower(s) == s
  {
    forall i | 0 <= i < |s|
      ensures IsSpace(Lower(s)[i]) ==> IsSpace(s[i])
      ensures IsNumberChar(Lower(s)[i]) ==> Lower(s)[i] == s[i]
    {
      assert Lower(s)[i] == LowerChar(s[i]);
    }
  }

  lemma TightStays(s: string)
    requires Tight(s)
    ensures Trim(s) == s
  {
  }

  lemma {:induction false} StartSplits(s: string) returns (a: string)
    ensures s == a + TrimStart(s) && AllSpace(a)
    ensures TrimStart(s) == [] || !IsSpace(TrimStart(s)[0])
  {
    a := [];
    if s != [] && IsSpace(s[0]) {
      var b := StartSplits(s[1..]);
      a := [s[0]] + b;
    }
  }

  lemma {:induction false} EndSplits(s: string) returns (c: string)
    ensures s == TrimEnd(s) + c && AllSpace(c)
    ensures TrimEnd(s) == [] || (!IsSpace(TrimEnd(s)[|TrimEnd(s)| - 1]) && TrimEnd(s)[0] == s[0])
  {
    c := [];
    if s != [] && IsSpace(s[|s| - 1]) {
      var b := EndSplits(s[..|s| - 1]);
      c := b + [s[|s| - 1]];
    }
  }

  /** What `trim` takes off. */
  lemma TrimSplits(s: string) returns (a: string, c: string)
    ensures s == a + Trim(s) + c && AllSpace(a) && AllSpace(c) && Tight(Trim(s))
  {
    a := StartSplits(s);
    c := EndSplits(TrimStart(s));
  }

  lemma TrimsTo(number: string, b: string)
    requires IsNumberText(number) && AllSpace(b)
    ensures Trim(number + b) == number
  {
    TrimSpaceAfter(number, b);
    TightStays(number);
  }

  // ---- numbers ----

  lemma CountsParses(number: string, n: nat)
    ensures Counts(number, n) && n <= U64_MAX <==> ParseU64(number) == Some(n)
  {
    if Counts(number, n) {
      var digits: string :| digits != [] && AllDigits(digits) && Value(digits) == n
        && (number == digits || number == "+" + digits);
      assert IsDigit(digits[0]) && ("+" + digits)[1..] == digits;
    }
    if ParseU64(number) == Some(n) {
      var digits := if number != [] && number[0] == '+' then number[1..] else number;
      assert number == digits || number == "+" + digits;
    }
  }

  lemma CountsText(number: string, n: nat)
    requires Counts(number, n)
    ensures IsNumberText(number) && IsDigit(number[|number| - 1])
  {
  }

  lemma DenotesText(number: string, n: nat)
    requires Denotes(number, n)
    ensures IsNumberText(number)
  {
    var whole, frac :| Spells(number, whole, frac) && |frac| <= BTC_DECIMALS && Exactly(whole, frac, n);
    hide Exactly, Value;
  }

  lemma WorthText(number: string, unit: string, msat: nat)
    requires IsWorth(number, unit, msat)
    ensures IsNumberText(number) && (unit == "" ==> IsDigit(number[|number| - 1]))
  {
    if unit == "btc" {
      DenotesText(number, msat);
    } else if unit == "sat" {
      var k: nat :| Counts(number, k) && msat == k * 1000;
      CountsText(number, k);
    } else {
      CountsText(number, msat);
    }
  }

  /** What the parser of a unit makes of a number. */
  function ParseUnit(number: string, unit: string): Result<nat, AmountError> {
    if unit == "btc" then ParseBtc(number)
    else if unit == "sat" then ParseSat(number)
    else if unit == "msat" then ParseOr(number, InvalidMsat)
    else ParseOr(number, InvalidAmount)
  }

  lemma UnitExact(number: string, unit: string, msat: nat)
    requires unit in {"btc", "sat", "msat", ""}
    ensures ParseUnit(number, unit) == Ok(msat) <==> IsWorth(number, unit, msat) && msat <= U64_MAX
  {
    if unit == "btc" {
      ParseBtcExact(number, msat);
    } else if unit == "sat" {
      SatExact(number, msat);
    } else {
      CountsParses(number, msat);
    }
  }

  lemma SatExact(number: string, msat: nat)
    ensures ParseSat(number) == Ok(msat) <==>
            (exists k: nat :: Counts(number, k) && msat == k * 1000) && msat <= U64_MAX
  {
    hide ParseU64, Counts;
    if ParseSat(number) == Ok(msat) {
      CountsParses(number, ParseU64(number).value);
    }
    if k: nat :| Counts(number, k) && msat == k * 1000 {
      if msat <= U64_MAX { CountsParses(number, k); }
    }
  }

  // ---- the parser ----

  /** Which unit the parser finds at the end of trimmed small letters. */
  function UnitOf(s: string): string {
    if StripSuffix(s, "msat").Some? then "msat"
    else if StripSuffix(s, "sat").Some? then "sat"
    else if StripSuffix(s, "btc").Some? then "btc"
    else ""
  }

  lemma ByUnit(text: string)
    ensures var s := Lower(Trim(text)); var unit := UnitOf(s);
            && |unit| <= |s| && s[|s| - |unit|..] == unit
            && ParseAmount(text) == ParseUnit(if unit == "" then s else Trim(s[..|s| - |unit|]), unit)
  {
    hide Trim, Lower, ParseBtc, ParseSat, ParseOr;
  }

  lemma UnitAtEnd(s: string, x: string, unit: string)
    requires unit in {"btc", "sat", "msat"} && s == x + unit && x != [] && x[|x| - 1] != 'm'
    ensures UnitOf(s) == unit
  {
    assert s[|x|..] == unit && s[..|x|] == x;
    if unit == "btc" {
      OtherEnd(s, "msat", 1);
      OtherEnd(s, "sat", 1);
    } else if unit == "sat" {
      OtherEnd(s, "msat", 4);
    }
  }

  lemma NoUnitAtEnd(s: string)
    requires s != [] && IsDigit(s[|s| - 1])
    ensures UnitOf(s) == ""
  {
    OtherEnd(s, "msat", 1);
    OtherEnd(s, "sat", 1);
    OtherEnd(s, "btc", 1);
  }

  lemma UnitText(u: string)
    requires Lower(u) in {"btc", "sat", "msat"}
    ensures u != [] && !IsSpace(u[|u| - 1])
  {
    assert Lower(u)[|u| - 1] == LowerChar(u[|u| - 1]);
  }

  lemma LastOf(number: string, b: string)
    requires IsNumberText(number) && AllSpace(b)
    ensures number + b != [] && (number + b)[|number + b| - 1] != 'm'
  {
    if b != [] { assert (number + b)[|number + b| - 1] == b[|b| - 1]; }
  }

  lemma CoreIsTight(number: string, b: string, u: string)
    requires IsNumberText(number) && AllSpace(b) && (if u == "" then b == "" else !IsSpace(u[|u| - 1]))
    ensures Trim(number + b + u) == number + b + u
  {
    var t := number + b + u;
    assert t[0] == number[0];
    assert t[|t| - 1] == if u == "" then number[|number| - 1] else u[|u| - 1];
    TightStays(t);
  }

  /** A text that is written so is read so. */
  lemma MeantIsRead(text: string, msat: nat)
    requires Means(text, msat) && msat <= U64_MAX
    ensures ParseAmount(text) == Ok(msat)
  {
    hide Trim, Lower, IsWorth, ParseAmount, UnitOf, ParseUnit, IsNumberText;
    var a, number, b, u, c :| Written(text, a, number, b, u, c) && IsWorth(number, Lower(u), msat);
    var unit, t := Lower(u), number + b + u;
    UnitIsKnown(number, unit, msat);
    WorthText(number, unit, msat);
    if u != "" { UnitText(u); } else { EmptyUnit(); }
    CoreIsTight(number, b, u);
    SpaceAround(a, t, c);
    ByUnit(t);
    LowerOfCore(number, b, u);
    UnitExact(number, unit, msat);
    if unit == "" {
      LastIsDigit(number, unit, msat);
      NoUnitAtEnd(number);
      assert number + b + unit == number;
    } else {
      LastOf(number, b);
      UnitAtEnd(number + b + unit, number + b, unit);
      assert (number + b + unit)[..|number + b|] == number + b;
      TrimsTo(number, b);
    }
  }

  lemma UnitIsKnown(number: string, unit: string, msat: nat)
    requires IsWorth(number, unit, msat)
    ensures unit in {"btc", "sat", "msat", ""}
  {
  }

  lemma EmptyUnit()
    ensures Lower("") == ""
  {
  }

  lemma LastIsDigit(number: string, unit: string, msat: nat)
    requires IsWorth(number, unit, msat) && unit == ""
    ensures number != [] && IsDigit(number[|number| - 1])
  {
    WorthText(number, unit, msat);
  }

  lemma LowerOfCore(number: string, b: string, u: string)
    requires IsNumberText(number) && AllSpace(b)
    ensures Lower(number + b + u) == number + b + Lower(u)
  {
    LowerConcat(number + b, u);
    LowerConcat(number, b);
    LowerKeeps(number);
    LowerKeeps(b);
  }

  /** And only such a text is. */
  lemma ReadIsMeant(text: string, msat: nat)
    requires ParseAmount(text) == Ok(msat)
    ensures Means(text, msat) && msat <= U64_MAX
  {
    hide Trim, Lower, IsWorth, ParseAmount, UnitOf, ParseUnit;
    var t := Trim(text);
    var s := Lower(t);
    var unit := UnitOf(s);
    var a, c := TrimSplits(text);
    ByUnit(text);
    UnitRange(s);
    var number := if unit == "" then s else Trim(s[..|s| - |unit|]);
    UnitExact(number, unit, msat);
    WorthText(number, unit, msat);
    var b, u := CoreSplits(t, unit, number);
    assert Written(text, a, number, b, u, c);
  }

  lemma UnitRange(s: string)
    ensures UnitOf(s) in {"btc", "sat", "msat", ""}
  {
  }

  /** The trimmed text is the number, white space and the unit. */
  lemma CoreSplits(t: string, unit: string, number: string) returns (b: string, u: string)
    requires Tight(t) && |unit| <= |Lower(t)| && Lower(t)[|t| - |unit|..] == unit && IsNumberText(number)
    requires number == if unit == "" then Lower(t) else Trim(Lower(t)[..|t| - |unit|])
    ensures t == number + b + u && AllSpace(b) && Lower(u) == unit && (u == "" ==> b == "")
  {
    var n := |t| - |unit|;
    var x := t[..n];
    u := t[n..];
    assert t == x + u;
    LowerConcat(x, u);
    assert Lower(t)[..n] == Lower(x) && Lower(t)[n..] == Lower(u);
    if unit == "" {
      b := "";
      LowerFrom(t);
      assert u == [] && x == t;
    } else {
      var front, back := TrimSplits(Lower(x));
      NothingInFront(t, x, u, front, number, back);
      hide Lower, Trim;
      b := NumberInFront(x, number, back);
    }
  }

  lemma NumberInFront(x: string, number: string, back: string) returns (b: string)
    requires Lower(x) == number + back && IsNumberText(number) && AllSpace(back)
    ensures x == number + b && AllSpace(b)
  {
    b := x[|number|..];
    var y := x[..|number|];
    assert x == y + b;
    LowerConcat(y, b);
    assert Lower(y) == (number + back)[..|number|] == number && Lower(b) == (number + back)[|number|..] == back;
    LowerFrom(y);
    LowerFrom(b);
  }

  lemma NothingInFront(t: string, x: string, u: string, front: string, number: string, back: string)
    requires Tight(t) && t == x + u && IsNumberText(number) && Lower(x) == front + number + back && AllSpace(front)
    ensures front == [] && Lower(x) == number + back && |number| <= |x|
  {
    assert [] + number == number;
  }

  /** The parser accepts a text exactly when it is a number with a unit that is worth a whole
      number of millisatoshi that fits into a u64, and returns that number: digits with an
      optional plus for msat, sat and no unit, a decimal with at most eleven places for btc, the
      unit in any case, white space around and before the unit. */
  lemma ParseAmountExact(text: string, msat: nat)
    ensures ParseAmount(text) == Ok(msat) <==> Means(text, msat) && msat <= U64_MAX
  {
    if ParseAmount(text) == Ok(msat) { ReadIsMeant(text, msat); }
    if Means(text, msat) && msat <= U64_MAX { MeantIsRead(text, msat); }
  }
}
