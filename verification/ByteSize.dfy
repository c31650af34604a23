/** Human-written sizes such as "8GB", "8.5 GiB" or "512". */
module ByteSize {
  import opened Arithmetic
  import opened Text
  import opened Wrappers

  const U128_MODULUS: nat := 0x1_0000_0000_0000_0000_0000_0000_0000_0000
  const MAX_FRACTION_DIGITS: nat := 18

  function Power(base: nat, exponent: nat): nat { if exponent == 0 then 1 else base * Power(base, exponent - 1) }

  // ----- scanning -----

  function TrimStart(text: string): string {
    if text != [] && IsWhitespace(text[0]) then TrimStart(text[1..]) else text
  }

  function TrimEnd(text: string): string {
    if text != [] && IsWhitespace(text[|text| - 1]) then TrimEnd(text[..|text| - 1]) else text
  }

  function Trim(text: string): string { TrimEnd(TrimStart(text)) }

  predicate IsNumeral(c: char) { IsDigit(c) || c == '.' }

  /** How many characters at the front belong to the number. */
  function NumberLength(text: string): (n: nat)
    ensures n <= |text| && (forall i :: 0 <= i < n ==> IsNumeral(text[i])) && (n < |text| ==> !IsNumeral(text[n]))
  {
    if text == [] || !IsNumeral(text[0]) then 0 else 1 + NumberLength(text[1..])
  }

  /** Where the decimal point is, or the end. */
  function PointAt(text: string): (n: nat)
    ensures n <= |text| && (forall i :: 0 <= i < n ==> text[i] != '.') && (n < |text| ==> text[n] == '.')
  {
    if text == [] || text[0] == '.' then 0 else 1 + PointAt(text[1..])
  }

  function Lower(text: string): string {
    seq(|text|, i requires 0 <= i < |text| => if 'A' <= text[i] <= 'Z' then text[i] - 'A' + 'a' else text[i])
  }

  /** The unit's power of two. Units are binary however they are spelled. */
  function Shift(unit: string): (shift: Option<nat>)
    ensures shift.Some? ==> shift.value <= 40
  {
    var word := Lower(unit);
    if word == "" || word == "b" then Some(0)
    else if word == "k" || word == "kb" || word == "kib" then Some(10)
    else if word == "m" || word == "mb" || word == "mib" then Some(20)
    else if word == "g" || word == "gb" || word == "gib" then Some(30)
    else if word == "t" || word == "tb" || word == "tib" then Some(40)
    else None
  }

  predicate AllDigits(text: string) { forall i :: 0 <= i < |text| ==> IsDigit(text[i]) }

  datatype Parts = Parts(whole: string, fraction: string, shift: nat)

  /** The digits before and after the number's point. */
  function WholeOf(number: string): string { number[..PointAt(number)] }

  function FractionOf(number: string): string {
    var point := PointAt(number);
    if point < |number| then number[point + 1..] else ""
  }

  /** Number and unit, if the text is well formed. */
  function Scan(text: string): Option<Parts> {
    var body := Trim(text);
    var split := NumberLength(body);
    var number, shift := body[..split], Shift(Trim(body[split..]));
    if shift.None? then None
    else
      var whole, fraction := WholeOf(number), FractionOf(number);
      if (whole == [] && fraction == []) || !AllDigits(whole) || !AllDigits(fraction)
          || MAX_FRACTION_DIGITS < |fraction|
      then None
      else Some(Parts(whole, fraction, shift.value))
  }

  // ----- computing in 128 bits -----

  function Digits(text: string): nat
    requires AllDigits(text)
  {
    if text == [] then 0
    else Digits(text[..|text| - 1]) * 10 + (text[|text| - 1] - '0') as nat
  }

  /** The decimal digits as a 128-bit number. */
  function ParseDigits(text: string): Option<nat>
    requires AllDigits(text)
  {
    if Digits(text) < U128_MODULUS then Some(Digits(text)) else None
  }

  /** A 128-bit left shift, refused if it loses bits. */
  function ShiftExactly(value: nat, shift: nat): Option<nat> {
    var shifted := (value * Power(2, shift)) % U128_MODULUS;
    if 0 < Power(2, shift) && shifted / Power(2, shift) == value then Some(shifted) else None
  }

  /** The size in bytes, if every 128-bit step succeeds. */
  function Compute(parts: Parts): Option<U64> {
    if !AllDigits(parts.whole + parts.fraction) then None
    else
      var digits := ParseDigits(parts.whole + parts.fraction);
      if digits.None? then None
      else
        var scaled, scale := ShiftExactly(digits.value, parts.shift), Power(10, |parts.fraction|);
        if scaled.None? || scale == 0 || scaled.value % scale != 0 || U64_MAX < scaled.value / scale then None
        else Some(scaled.value / scale)
  }

  function ParseByteSize(text: string): Option<U64> {
    var parts := Scan(text);
    if parts.None? then None else Compute(parts.value)
  }

  // ----- exactness -----

  /** The text stands for `size` bytes: its decimal value times its unit. */
  predicate Denotes(parts: Parts, size: nat) {
    AllDigits(parts.whole + parts.fraction) &&
    Digits(parts.whole + parts.fraction) * Power(2, parts.shift) == size * Power(10, |parts.fraction|)
  }

  lemma {:induction false} PowersArePositive(base: nat, exponent: nat)
    requires 0 < base
    ensures 0 < Power(base, exponent)
  {
    if exponent > 0 {
      PowersArePositive(base, exponent - 1);
    }
  }

  lemma {:induction false} PowersGrow(base: nat, small: nat, large: nat)
    requires 0 < base && small <= large
    ensures Power(base, small) <= Power(base, large)
  {
    if small < large {
      PowersGrow(base, small, large - 1);
      PowersArePositive(base, large - 1);
      ProductGrows(1, base, Power(base, large - 1));
    }
  }

  /** The shift is refused exactly when the product does not fit 128 bits. */
  lemma ShiftIsExact(value: nat, shift: nat)
    ensures ShiftExactly(value, shift) ==
            if value * Power(2, shift) < U128_MODULUS then Some(value * Power(2, shift)) else None
  {
    PowersArePositive(2, shift);
    if value * Power(2, shift) < U128_MODULUS {
      ProductIsMultiple(value, Power(2, shift));
    } else {
      LessDividesLess((value * Power(2, shift)) % U128_MODULUS, value, Power(2, shift));
    }
  }

  lemma LessDividesLess(rest: nat, value: nat, factor: nat)
    requires 0 < factor && rest < value * factor
    ensures rest / factor < value
  {
    if value <= rest / factor {
      ProductGrows(value, rest / factor, factor);
    }
  }

  lemma DenotedSizesFit(parts: Parts, size: nat)
    requires Denotes(parts, size)
    requires size <= U64_MAX && |parts.fraction| <= MAX_FRACTION_DIGITS
    ensures Digits(parts.whole + parts.fraction) * Power(2, parts.shift) < U128_MODULUS
    ensures Digits(parts.whole + parts.fraction) < U128_MODULUS
  {
    var scale := Power(10, |parts.fraction|);
    PowersGrow(10, |parts.fraction|, MAX_FRACTION_DIGITS);
    TenToThe18();
    PowersArePositive(10, |parts.fraction|);
    ProductGrows(size, U64_MAX, scale);
    PowersArePositive(2, parts.shift);
    ProductGrows(1, Power(2, parts.shift), Digits(parts.whole + parts.fraction));
  }

  lemma TenToThe18()
    ensures Power(10, MAX_FRACTION_DIGITS) == 1_000_000_000_000_000_000
  {
    assert Power(10, 6) == 1_000_000;
    assert Power(10, 12) == 1_000_000 * Power(10, 6);
    assert Power(10, 18) == 1_000_000 * Power(10, 12);
  }

  /** Dividing exactly and multiplying back are the same condition. */
  lemma DividesExactly(product: nat, scale: nat, size: nat)
    requires 0 < scale
    ensures product % scale == 0 && product / scale == size <==> product == size * scale
  {
    ProductIsMultiple(size, scale);
  }

  lemma ComputingIsExact(parts: Parts, size: U64)
    requires |parts.fraction| <= MAX_FRACTION_DIGITS
    ensures Compute(parts) == Some(size) <==> Denotes(parts, size)
  {
    if AllDigits(parts.whole + parts.fraction) {
      var digits, scale := Digits(parts.whole + parts.fraction), Power(10, |parts.fraction|);
      var product := digits * Power(2, parts.shift);
      ShiftIsExact(digits, parts.shift);
      PowersArePositive(10, |parts.fraction|);
      DividesExactly(product, scale, size);
      if Denotes(parts, size) {
        DenotedSizesFit(parts, size);
      }
    }
  }

  /** A size is accepted exactly when the text is well formed and its exact value is
      a whole number of bytes below 2^64, and then that is the number returned; the
      128-bit steps in between never refuse one. */
  lemma ParsingIsExact(text: string, size: U64)
    ensures ParseByteSize(text) == Some(size) <==> Scan(text).Some? && Denotes(Scan(text).value, size)
  {
    if Scan(text).Some? {
      ComputingIsExact(Scan(text).value, size);
    }
  }

  // ----- which texts are well formed -----

  /** A number, a unit, and blanks around and between them. */
  predicate Written(text: string, lead: string, number: string, gap: string, unit: string, trail: string,
                    parts: Parts) {
    && text == lead + (number + (gap + unit)) + trail
    && IsBlank(lead) && IsBlank(gap) && IsBlank(trail)
    && Composed(number, unit, parts)
  }

  predicate Composed(number: string, unit: string, parts: Parts) {
    && AllDigits(parts.whole) && AllDigits(parts.fraction) && parts.whole + parts.fraction != []
    && |parts.fraction| <= MAX_FRACTION_DIGITS
    && (number == parts.whole + "." + parts.fraction || (number == parts.whole && parts.fraction == []))
    && Shift(unit) == Some(parts.shift)
  }

  predicate Solid(text: string) {
    text != [] ==> !IsWhitespace(text[0]) && !IsWhitespace(text[|text| - 1])
  }

  lemma {:induction false} TrimStartStrips(lead: string, core: string)
    requires IsBlank(lead) && (core != [] ==> !IsWhitespace(core[0]))
    ensures TrimStart(lead + core) == core
  {
    if lead != [] {
      assert (lead + core)[1..] == lead[1..] + core;
      TrimStartStrips(lead[1..], core);
    } else {
      assert lead + core == core;
    }
  }

  lemma {:induction false} TrimEndStrips(core: string, trail: string)
    requires IsBlank(trail) && (core != [] ==> !IsWhitespace(core[|core| - 1]))
    ensures TrimEnd(core + trail) == core
  {
    if trail != [] {
      assert (core + trail)[..|core + trail| - 1] == core + trail[..|trail| - 1];
      TrimEndStrips(core, trail[..|trail| - 1]);
    } else {
      assert core + trail == core;
    }
  }

  lemma TrimStrips(lead: string, core: string, trail: string)
    requires IsBlank(lead) && IsBlank(trail) && Solid(core)
    ensures Trim(lead + core + trail) == core
  {
    if core == [] {
      assert lead + core + trail == (lead + trail) + [];
      TrimStartStrips(lead + trail, []);
    } else {
      assert lead + core + trail == lead + (core + trail);
      TrimStartStrips(lead, core + trail);
      TrimEndStrips(core, trail);
    }
  }

  lemma {:induction false} TrimStartSplits(text: string) returns (lead: string)
    ensures text == lead + TrimStart(text) && IsBlank(lead)
    ensures TrimStart(text) != [] ==> !IsWhitespace(TrimStart(text)[0])
  {
    lead := "";
    if text != [] && IsWhitespace(text[0]) {
      lead := TrimStartSplits(text[1..]);
      lead := [text[0]] + lead;
    }
  }

  lemma {:induction false} TrimEndSplits(text: string) returns (trail: string)
    ensures text == TrimEnd(text) + trail && IsBlank(trail)
    ensures TrimEnd(text) != [] ==> !IsWhitespace(TrimEnd(text)[|TrimEnd(text)| - 1])
  {
    trail := "";
    if text != [] && IsWhitespace(text[|text| - 1]) {
      trail := TrimEndSplits(text[..|text| - 1]);
      trail := trail + [text[|text| - 1]];
    }
  }

  lemma TrimSplits(text: string) returns (lead: string, trail: string)
    ensures text == lead + Trim(text) + trail && IsBlank(lead) && IsBlank(trail) && Solid(Trim(text))
  {
    lead := TrimStartSplits(text);
    trail := TrimEndSplits(TrimStart(text));
  }

  lemma {:induction false} NumberLengthIs(number: string, rest: string)
    requires (forall i :: 0 <= i < |number| ==> IsNumeral(number[i])) && (rest != [] ==> !IsNumeral(rest[0]))
    ensures NumberLength(number + rest) == |number|
  {
    if number != [] {
      assert (number + rest)[1..] == number[1..] + rest;
      NumberLengthIs(number[1..], rest);
    }
  }

  lemma UnitsAreLetters(unit: string)
    requires Shift(unit).Some?
    ensures forall i :: 0 <= i < |unit| ==> 'A' <= unit[i] <= 'z'
  {
    var word := Lower(unit);
    forall i | 0 <= i < |unit|
      ensures 'A' <= unit[i] <= 'z'
    {
      assert 'a' <= word[i] <= 'z';
    }
  }

  /** The body of a written text once the blanks around it are gone. */
  lemma WrittenBody(text: string, lead: string, number: string, gap: string, unit: string, trail: string, parts: Parts)
    returns (rest: string)
    requires Written(text, lead, number, gap, unit, trail, parts)
    ensures Trim(text) == number + rest && Trim(rest) == unit && (rest != [] ==> !IsNumeral(rest[0]))
    ensures number != [] && forall i :: 0 <= i < |number| ==> IsNumeral(number[i])
  {
    UnitsAreLetters(unit);
    if unit == [] {
      rest := "";
      assert text == lead + number + (gap + trail);
      TrimStrips(lead, number, gap + trail);
      assert number + rest == number;
    } else {
      rest := gap + unit;
      TrimStrips(lead, number + rest, trail);
      TrimStrips(gap, unit, "");
      assert gap + unit + "" == rest;
    }
  }

  /** Every written text scans to its parts ... */
  lemma WrittenTextsScan(text: string, lead: string, number: string, gap: string, unit: string, trail: string,
                         parts: Parts)
    requires Written(text, lead, number, gap, unit, trail, parts)
    ensures Scan(text) == Some(parts)
  {
    var rest := WrittenBody(text, lead, number, gap, unit, trail, parts);
    NumberLengthIs(number, rest);
    var body := number + rest;
    assert body[..|number|] == number && body[|number|..] == rest;
    PointIs(parts.whole, number[|parts.whole|..]);
    assert number == parts.whole + number[|parts.whole|..];
    assert number != parts.whole ==> number[|parts.whole| + 1..] == parts.fraction;
  }

  lemma {:induction false} PointIs(whole: string, rest: string)
    requires AllDigits(whole) && (rest != [] ==> rest[0] == '.')
    ensures PointAt(whole + rest) == |whole|
  {
    if whole != [] {
      assert (whole + rest)[1..] == whole[1..] + rest;
      PointIs(whole[1..], rest);
    }
  }

  lemma GapAndUnit(body: string, split: nat) returns (gap: string)
    requires Solid(body) && split <= |body|
    ensures IsBlank(gap) && body[split..] == gap + Trim(body[split..])
  {
    var rest, tail := body[split..], "";
    gap, tail := TrimSplits(rest);
    assert gap + Trim(rest) + tail == gap + Trim(rest);
  }

  lemma PointSplits(number: string)
    ensures || number == WholeOf(number) + "." + FractionOf(number)
            || (number == WholeOf(number) && FractionOf(number) == [])
  {
  }

  /** The body of a text that scans is a number, a gap and a unit. */
  lemma ScannedBody(text: string) returns (number: string, gap: string, unit: string)
    requires Scan(text).Some?
    ensures Trim(text) == number + (gap + unit) && IsBlank(gap)
    ensures Composed(number, unit, Scan(text).value)
  {
    var body := Trim(text);
    var split := NumberLength(body);
    ghost var _, _ := TrimSplits(text);
    gap := GapAndUnit(body, split);
    number, unit := body[..split], Trim(body[split..]);
    ScannedParts(text);
    SplitAt(body, split);
  }

  lemma SplitAt(text: string, split: nat)
    requires split <= |text|
    ensures text == text[..split] + text[split..]
  {
  }

  lemma ScannedParts(text: string)
    requires Scan(text).Some?
    ensures
      var body := Trim(text);
      Composed(body[..NumberLength(body)], Trim(body[NumberLength(body)..]), Scan(text).value)
  {
    var body := Trim(text);
    PointSplits(body[..NumberLength(body)]);
  }

  /** ... and no other text scans. */
  lemma OnlyWrittenTextsScan(text: string)
    returns (lead: string, number: string, gap: string, unit: string, trail: string)
    requires Scan(text).Some?
    ensures Written(text, lead, number, gap, unit, trail, Scan(text).value)
  {
    number, gap, unit := ScannedBody(text);
    lead, trail := TrimSplits(text);
  }
}
