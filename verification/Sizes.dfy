/** Byte sizes on the command line: `parseSize` and `formatSize` of internal/cli/cli.go. */
module Sizes {
  import opened Common

  const KB := 1024
  const MB := 1024 * 1024
  const GB := 1024 * 1024 * 1024
  const TWO_TO_63 := 0x8000_0000_0000_0000

  /** What a 64-bit signed result keeps of a product. */
  function Wrap64(x: int): int { (x + TWO_TO_63) % (2 * TWO_TO_63) - TWO_TO_63 }

  // ----- decimal numbers ---------------------------------------------------

  predicate AllDigits(s: string) { forall i :: 0 <= i < |s| ==> '0' <= s[i] <= '9' }

  function Digits(s: string): nat
    requires AllDigits(s)
  {
    if s == "" then 0 else 10 * Digits(s[..|s| - 1]) + (s[|s| - 1] as int - '0' as int)
  }

  /** `%d` for a non-negative number. */
  function Decimal(n: nat): string {
    if n < 10 then [('0' as int + n) as char] else Decimal(n / 10) + [('0' as int + n % 10) as char]
  }

  /** `strconv.ParseInt(s, 10, 64)`: an optional sign, digits, and a value in range. */
  function ParseInt(s: string): Option<int> {
    var negative := s != "" && s[0] == '-';
    var body := if s != "" && (s[0] == '-' || s[0] == '+') then s[1..] else s;
    if body == "" || !AllDigits(body) then None
    else
      var magnitude: int := Digits(body);
      var v := if negative then -magnitude else magnitude;
      if -TWO_TO_63 <= v < TWO_TO_63 then Some(v) else None
  }

  // ----- the code ----------------------------------------------------------

  function Upper(c: char): char { if 'a' <= c <= 'z' then (c as int - 32) as char else c }

  /** `strings.HasSuffix(strings.ToUpper(s), unit)` for a unit in capitals. */
  predicate EndsWith(s: string, unit: string) {
    |unit| <= |s| && forall i :: 0 <= i < |unit| ==> Upper(s[|s| - |unit| + i]) == unit[i]
  }

  /** The multiplier a text names, and the text before its unit. */
  function SplitUnit(s: string): (int, string) {
    if EndsWith(s, "GB") then (GB, s[..|s| - 2])
    else if EndsWith(s, "MB") then (MB, s[..|s| - 2])
    else if EndsWith(s, "KB") then (KB, s[..|s| - 2])
    else if EndsWith(s, "B") then (1, s[..|s| - 1])
    else (1, s)
  }

  /** The number and the multiplier a size text stands for. */
  function Reading(input: string): Option<(int, int)> {
    var (mult, body) := SplitUnit(TrimSpace(input));
    match ParseInt(TrimSpace(body))
    case None => None
    case Some(n) => if n < 0 then None else Some((n, mult))
  }

  /** What `parseSize` returns: the product, as far as 64 bits hold it. */
  function SizeOf(input: string): Option<int> {
    match Reading(input)
    case None => None
    case Some((n, mult)) => Some(Wrap64(n * mult))
  }

  /** `parseSize`. */
  method ParseSize(input: string) returns (r: Option<int>)
    ensures r == SizeOf(input)
    ensures r.Some? ==> -TWO_TO_63 <= r.value < TWO_TO_63
  {
    var s := TrimSpace(input);
    var mult := 1;
    if EndsWith(s, "GB") {
      mult, s := GB, s[..|s| - 2];
    } else if EndsWith(s, "MB") {
      mult, s := MB, s[..|s| - 2];
    } else if EndsWith(s, "KB") {
      mult, s := KB, s[..|s| - 2];
    } else if EndsWith(s, "B") {
      s := s[..|s| - 1];
    }
    var n := ParseInt(TrimSpace(s));
    if n.None? || n.value < 0 {
      return None;
    }
    return Some(Wrap64(n.value * mult));
  }

  /** `%d`. */
  function ShowInt(n: int): string { if n < 0 then ['-'] + Decimal(-n) else Decimal(n) }

  /** The largest unit that divides a size. */
  function LargestUnit(n: int): (unit: (nat, string))
    ensures unit.0 > 0 && n % unit.0 == 0 && IsUnit(unit.1, unit.0)
    ensures forall name, mult :: IsUnit(name, mult) && mult > unit.0 ==> n % mult != 0
  {
    if n % GB == 0 then (GB, "GB")
    else if n % MB == 0 then (MB, "MB")
    else if n % KB == 0 then (KB, "KB")
    else (1, "B")
  }

  predicate IsUnit(name: string, mult: int) {
    (name == "GB" && mult == GB) || (name == "MB" && mult == MB) || (name == "KB" && mult == KB) || (name == "B" && mult == 1)
  }

  /** `formatSize`. */
  function FormatSize(n: int): string {
    if n == 0 then "unlimited"
    else
      var (mult, name) := LargestUnit(n);
      ShowInt(TruncDiv(n, mult)) + " " + name
  }

  // ----- results -----------------------------------------------------------

  lemma {:induction false} DecimalDigits(n: nat)
    ensures Decimal(n) != "" && AllDigits(Decimal(n)) && Digits(Decimal(n)) == n
  {
    if n >= 10 {
      DecimalDigits(n / 10);
      var s := Decimal(n);
      assert s[..|s| - 1] == Decimal(n / 10);
    } else {
      assert Digits(Decimal(n)[..0]) == 0;
    }
  }

  /** A number in decimal, alone, parses as itself. */
  lemma DecimalParses(n: nat)
    requires n < TWO_TO_63
    ensures ParseInt(Decimal(n)) == Some(n)
    ensures Decimal(n) != "" && '0' <= Decimal(n)[0] <= '9' && '0' <= Decimal(n)[|Decimal(n)| - 1] <= '9'
  {
    DecimalDigits(n);
  }

  /** A text without white space or letters at its ends, a space or none, and a unit split into that text and that unit. */
  lemma UnitTaken(d: string, space: string, unit: string, mult: int)
    requires d != "" && !IsSpace(d[0]) && '0' <= d[|d| - 1] <= '9'
    requires (space == "" || space == " ") && IsUnit(unit, mult)
    ensures SplitUnit(TrimSpace(d + space + unit)) == (mult, d + space)
    ensures TrimSpace(d + space) == d
  {
    UnitNamed(unit, mult);
    var mid := d + space + unit;
    assert "" + mid + "" == mid;
    UnitRead("", d, space, unit, "");
  }

  /** A decimal number, a space or none, and a unit read as that number and that unit. */
  lemma DecimalReads(n: nat, space: string, unit: string, mult: int)
    requires n < TWO_TO_63 && (space == "" || space == " ")
    requires IsUnit(unit, mult)
    ensures Reading(Decimal(n) + space + unit) == Some((n, mult))
  {
    DecimalParses(n);
    UnitTaken(Decimal(n), space, unit, mult);
  }

  lemma Whole(n: nat, unit: nat)
    requires unit > 0 && n % unit == 0 && n < TWO_TO_63
    ensures n / unit * unit == n && n / unit < TWO_TO_63
  {
    var q := n / unit;
    assert n == unit * q + n % unit;
    MulMonotone(1, unit, q, q);
  }

  lemma PositiveFactor(a: nat, b: int)
    requires a * b > 0
    ensures b > 0
  {
  }

  lemma WholeNegative(n: int, unit: nat)
    requires unit > 0 && n % unit == 0 && n < 0
    ensures (-n) / unit > 0
  {
    var q := n / unit;
    assert n == unit * q;
    assert unit * (-q) == -n;
    PositiveFactor(unit, -q);
    MulMonotone(unit, unit, 1, -q);
    assert -n >= unit;
  }

  lemma WrapFits(x: int)
    requires -TWO_TO_63 <= x < TWO_TO_63
    ensures Wrap64(x) == x
  {
  }

  /** The size of a text from its reading. */
  lemma SizeByReading(input: string, n: int, mult: int)
    requires Reading(input) == Some((n, mult))
    ensures SizeOf(input) == Some(Wrap64(n * mult))
  {
  }

  lemma DecimalSize(n: nat, space: string, unit: string, mult: int)
    requires n < TWO_TO_63 && (space == "" || space == " ") && IsUnit(unit, mult)
    ensures SizeOf(Decimal(n) + space + unit) == Some(Wrap64(n * mult))
  {
    DecimalReads(n, space, unit, mult);
    SizeByReading(Decimal(n) + space + unit, n, mult);
  }

  /** A word that starts with a letter and does not end in `b` is no size. */
  lemma WordUnparsed(s: string)
    requires s != "" && 'a' <= s[0] <= 'z' && 'a' <= s[|s| - 1] <= 'z' && s[|s| - 1] != 'b'
    ensures SizeOf(s) == None
  {
    TrimNothing(s);
    assert Upper(s[|s| - 1]) != 'B';
    LastOfUnit(s, "GB");
    LastOfUnit(s, "MB");
    LastOfUnit(s, "KB");
    LastOfUnit(s, "B");
    assert SplitUnit(s) == (1, s);
    assert !AllDigits(s);
  }

  lemma LastOfUnit(s: string, unit: string)
    requires s != "" && unit != ""
    ensures EndsWith(s, unit) ==> Upper(s[|s| - 1]) == unit[|unit| - 1]
  {
    if EndsWith(s, unit) {
      assert Upper(s[|s| - |unit| + (|unit| - 1)]) == unit[|unit| - 1];
    }
  }

  /** A number with a minus sign is no size, whatever its unit. */
  lemma NegativeUnparsed(n: nat, unit: string, mult: int)
    requires n > 0 && IsUnit(unit, mult)
    ensures SizeOf(['-'] + Decimal(n) + " " + unit) == None
  {
    var d := ['-'] + Decimal(n);
    DecimalEnds(n);
    UnitTaken(d, " ", unit, mult);
    MinusParses(n);
  }

  lemma MinusParses(n: nat)
    requires n > 0
    ensures var r := ParseInt(['-'] + Decimal(n)); r.Some? ==> r.value < 0
  {
    assert (['-'] + Decimal(n))[1..] == Decimal(n);
    DecimalDigits(n);
  }

  lemma DecimalEnds(n: nat)
    ensures Decimal(n) != "" && '0' <= Decimal(n)[|Decimal(n)| - 1] <= '9'
  {
    DecimalDigits(n);
  }

  /** Parsing what `formatSize` prints gives the size back for exactly the positive 64-bit sizes: 0 prints
      as a word, and a negative size with a sign, that do not parse. */
  lemma SizeRoundTrip(n: int)
    requires -TWO_TO_63 <= n < TWO_TO_63
    ensures SizeOf(FormatSize(n)) == if n <= 0 then None else Some(n)
  {
    if n == 0 {
      WordUnparsed("unlimited");
    } else if n < 0 {
      var (mult, name) := LargestUnit(n);
      WholeNegative(n, mult);
      NegativeUnparsed((-n) / mult, name, mult);
    } else {
      var (mult, name) := LargestUnit(n);
      Whole(n, mult);
      DecimalSize(n / mult, " ", name, mult);
      WrapFits(n);
    }
  }

  // ----- the language of sizes ---------------------------------------------

  /** A size taken apart as it is written. */
  datatype SizeText =
    SizeText(before: string, sign: string, digits: string, gap: string, unit: string, after: string)

  function Spelled(t: SizeText): string { t.before + (t.sign + t.digits + t.gap + t.unit) + t.after }

  /** The letter, in either case. */
  predicate Letter(c: char, upper: char, lower: char) { c == upper || c == lower }

  /** No unit, or bytes, kilo-, mega- or gigabytes, in letters of either case. */
  predicate UnitSpelled(unit: string) {
    || unit == ""
    || (|unit| == 1 && Letter(unit[0], 'B', 'b'))
    || (|unit| == 2 && (Letter(unit[0], 'K', 'k') || Letter(unit[0], 'M', 'm') || Letter(unit[0], 'G', 'g'))
        && Letter(unit[1], 'B', 'b'))
  }

  /** What a unit stands for. */
  function Worth(unit: string): int {
    if |unit| != 2 then 1
    else if Letter(unit[0], 'K', 'k') then 1024
    else if Letter(unit[0], 'M', 'm') then 1_048_576
    else 1_073_741_824
  }

  predicate SignSpelled(sign: string) { sign == "" || sign == "+" || sign == "-" }

  predicate WellFormed(t: SizeText) {
    && IsBlank(t.before) && IsBlank(t.gap) && IsBlank(t.after)
    && SignSpelled(t.sign) && t.digits != "" && AllDigits(t.digits) && UnitSpelled(t.unit)
  }

  /** The text is a size: that many of those units. Only zero may carry a minus sign. */
  ghost predicate Spells(t: SizeText, s: string, n: int, mult: int) {
    && WellFormed(t) && s == Spelled(t)
    && n == Digits(t.digits) && mult == Worth(t.unit)
    && n < 0x8000_0000_0000_0000 && (t.sign == "-" ==> n == 0)
  }

  ghost predicate Means(s: string, n: int, mult: int) { exists t :: Spells(t, s, n, mult) }

  /** Text that can stand for a number as far as white space and units are concerned. */
  predicate NumberLike(num: string) { num != "" && Tight(num) && '0' <= num[|num| - 1] <= '9' }

  /** A signed number by itself. */
  lemma NumberParses(sign: string, digits: string)
    requires SignSpelled(sign) && digits != "" && AllDigits(digits)
    ensures NumberLike(sign + digits)
    ensures var n: int := Digits(digits); var v := if sign == "-" then -n else n;
            ParseInt(sign + digits) == if -TWO_TO_63 <= v < TWO_TO_63 then Some(v) else None
  {
    NumberShape(sign, digits);
    if sign == "" {
      assert sign + digits == digits;
    } else {
      assert (sign + digits)[1..] == digits;
    }
  }

  /** Zeros in front change nothing. */
  lemma {:induction false} DigitsPadded(s: string)
    requires AllDigits(s)
    ensures AllDigits("0" + s) && Digits("0" + s) == Digits(s)
  {
    var t := "0" + s;
    if s == "" {
      assert t[..0] == "" && Digits(t[..0]) == 0;
    } else {
      assert t[..|t| - 1] == "0" + s[..|s| - 1];
      DigitsPadded(s[..|s| - 1]);
    }
  }

  lemma NumberShape(sign: string, digits: string)
    requires SignSpelled(sign) && digits != "" && AllDigits(digits)
    ensures NumberLike(sign + digits)
  {
    var s := sign + digits;
    assert s[0] == if sign == "" then digits[0] else sign[0];
    assert s[|s| - 1] == digits[|digits| - 1];
  }

  /** And back: what parses as a number is a signed number. */
  lemma NumberParts(s: string) returns (sign: string, digits: string)
    requires ParseInt(s).Some?
    ensures SignSpelled(sign) && digits != "" && AllDigits(digits) && s == sign + digits
  {
    if s[0] == '-' || s[0] == '+' {
      sign, digits := s[..1], s[1..];
    } else {
      sign, digits := "", s;
    }
  }

  /** A unit is split off whatever text does not end in a letter. */
  lemma AnyUnitSplits(body: string, unit: string)
    requires body != "" && !('A' <= Upper(body[|body| - 1]) <= 'Z') && UnitSpelled(unit)
    ensures SplitUnit(body + unit) == (Worth(unit), body)
  {
    var s := body + unit;
    assert s[..|body|] == body;
    LastOfUnit(s, "GB");
    LastOfUnit(s, "MB");
    LastOfUnit(s, "KB");
    LastOfUnit(s, "B");
    if unit == "" {
      assert s == body;
    } else {
      EndsWithTwo(s, "GB");
      EndsWithTwo(s, "MB");
      EndsWithTwo(s, "KB");
      assert s[|s| - 1] == unit[|unit| - 1];
      assert s[|s| - 2] == if |unit| == 1 then body[|body| - 1] else unit[0];
    }
  }

  /** What it takes to end with a unit of two letters. */
  lemma EndsWithTwo(s: string, unit: string)
    requires |s| >= 2 && |unit| == 2
    ensures EndsWith(s, unit) <==> Upper(s[|s| - 2]) == unit[0] && Upper(s[|s| - 1]) == unit[1]
  {
    assert EndsWith(s, unit) ==> Upper(s[|s| - 2 + 0]) == unit[0] && Upper(s[|s| - 2 + 1]) == unit[1];
  }

  lemma UnitNamed(unit: string, mult: int)
    requires IsUnit(unit, mult)
    ensures UnitSpelled(unit) && unit != "" && Worth(unit) == mult
  {
  }

  lemma UpperIs(c: char)
    ensures Upper(c) == 'B' <==> Letter(c, 'B', 'b')
    ensures Upper(c) == 'K' <==> Letter(c, 'K', 'k')
    ensures Upper(c) == 'M' <==> Letter(c, 'M', 'm')
    ensures Upper(c) == 'G' <==> Letter(c, 'G', 'g')
  {
  }

  /** And back: what is split off is a unit. */
  lemma UnitParts(s: string) returns (unit: string)
    ensures UnitSpelled(unit) && s == SplitUnit(s).1 + unit && SplitUnit(s).0 == Worth(unit)
  {
    unit := s[|SplitUnit(s).1|..];
    if s != "" {
      UpperIs(s[|s| - 1]);
      LastOfUnit(s, "B");
    }
    if |s| >= 2 {
      UpperIs(s[|s| - 2]);
      EndsWithTwo(s, "GB");
      EndsWithTwo(s, "MB");
      EndsWithTwo(s, "KB");
    }
  }

  /** A number, white space or none, and a unit, with white space around, come apart again. */
  lemma PartsRead(before: string, num: string, gap: string, unit: string, after: string)
    requires IsBlank(before) && IsBlank(gap) && IsBlank(after) && NumberLike(num) && UnitSpelled(unit)
    ensures var (mult, body) := SplitUnit(TrimSpace(before + (num + gap + unit) + after));
            mult == Worth(unit) && TrimSpace(body) == num
  {
    if unit == "" {
      BareRead(before, num, gap, after);
      assert num + gap + unit == num + gap;
    } else {
      UnitRead(before, num, gap, unit, after);
    }
  }

  lemma BareRead(before: string, num: string, gap: string, after: string)
    requires IsBlank(before) && IsBlank(gap) && IsBlank(after) && NumberLike(num)
    ensures SplitUnit(TrimSpace(before + (num + gap) + after)) == (1, num) && TrimSpace(num) == num
  {
    assert before + (num + gap) + after == before + num + (gap + after);
    TrimExact(before, num, gap + after);
    AnyUnitSplits(num, "");
    assert num + "" == num;
    TrimNothing(num);
  }

  lemma UnitRead(before: string, num: string, gap: string, unit: string, after: string)
    requires IsBlank(before) && IsBlank(gap) && IsBlank(after) && NumberLike(num) && UnitSpelled(unit) && unit != ""
    ensures SplitUnit(TrimSpace(before + (num + gap + unit) + after)) == (Worth(unit), num + gap)
    ensures TrimSpace(num + gap) == num
  {
    var body := num + gap;
    var mid := body + unit;
    assert mid[0] == num[0] && mid[|mid| - 1] == unit[|unit| - 1];
    TrimExact(before, mid, after);
    assert body[|body| - 1] == if gap == "" then num[|num| - 1] else gap[|gap| - 1];
    AnyUnitSplits(body, unit);
    assert body == "" + num + gap;
    TrimExact("", num, gap);
  }

  lemma MeansReads(t: SizeText, s: string, n: int, mult: int)
    requires Spells(t, s, n, mult)
    ensures Reading(s) == Some((n, mult)) && n >= 0 && mult > 0
  {
    NumberParses(t.sign, t.digits);
    PartsRead(t.before, t.sign + t.digits, t.gap, t.unit, t.after);
  }

  /** White space, a number, white space, a unit and white space, whatever is read as a size. */
  lemma PartsOf(s: string) returns (before: string, gap: string, unit: string, after: string)
    requires TrimSpace(SplitUnit(TrimSpace(s)).1) != ""
    ensures IsBlank(before) && IsBlank(gap) && IsBlank(after) && UnitSpelled(unit)
    ensures var (mult, body) := SplitUnit(TrimSpace(s));
            mult == Worth(unit) && s == before + (TrimSpace(body) + gap + unit) + after
  {
    before, after := TrimSplit(s);
    var mid := TrimSpace(s);
    unit := UnitParts(mid);
    var body := SplitUnit(mid).1;
    var lead;
    lead, gap := TrimSplit(body);
    NoLead(mid, lead, TrimSpace(body) + gap + unit);
  }

  lemma NoLead(mid: string, lead: string, rest: string)
    requires Tight(mid) && IsBlank(lead) && mid == lead + rest
    ensures lead == "" && mid == rest
  {
  }

  lemma ReadsMeans(s: string)
    requires Reading(s).Some?
    ensures Means(s, Reading(s).value.0, Reading(s).value.1)
  {
    var num := TrimSpace(SplitUnit(TrimSpace(s)).1);
    var sign, digits := NumberParts(num);
    NumberParses(sign, digits);
    var before, gap, unit, after := PartsOf(s);
    assert Spells(SizeText(before, sign, digits, gap, unit, after), s, Reading(s).value.0, Reading(s).value.1);
  }

  lemma SizeOfMeans(s: string, n: int, mult: int)
    requires Means(s, n, mult)
    ensures SizeOf(s) == Some(Wrap64(n * mult)) && n * mult >= 0
  {
    var t :| Spells(t, s, n, mult);
    MeansReads(t, s, n, mult);
    MulMonotone(0, n, 0, mult);
  }

  /** What 64 bits leave of a size. */
  ghost predicate Left64(v: int, product: int) {
    && -0x8000_0000_0000_0000 <= v < 0x8000_0000_0000_0000
    && (product - v) % 0x1_0000_0000_0000_0000 == 0
    && (0 <= product < 0x8000_0000_0000_0000 ==> v == product)
  }

  /** `parseSize` accepts exactly the texts that are sizes; and returns the product when it fits in 63 bits, and
      otherwise what 64 bits leave of it. */
  lemma SizeExact(s: string)
    ensures SizeOf(s).Some? <==> exists n, mult :: Means(s, n, mult)
    ensures forall n, mult :: Means(s, n, mult) ==> SizeOf(s).Some? && Left64(SizeOf(s).value, n * mult)
  {
    forall n, mult | Means(s, n, mult) ensures SizeOf(s).Some? && Left64(SizeOf(s).value, n * mult) {
      SizeOfMeans(s, n, mult);
      WrapModulo(n * mult);
    }
    if SizeOf(s).Some? {
      ReadsMeans(s);
    }
  }

  lemma WrapModulo(x: int)
    ensures Left64(Wrap64(x), x)
  {
    var y := x + TWO_TO_63;
    assert y == (2 * TWO_TO_63) * (y / (2 * TWO_TO_63)) + y % (2 * TWO_TO_63);
    assert x - Wrap64(x) == (2 * TWO_TO_63) * (y / (2 * TWO_TO_63));
  }

  /** Digits and a unit, and nothing else, are a size. */
  lemma PlainMeans(digits: string, unit: string)
    requires digits != "" && AllDigits(digits) && UnitSpelled(unit) && Digits(digits) < TWO_TO_63
    ensures Means(digits + unit, Digits(digits), Worth(unit))
  {
    var t := SizeText("", "", digits, "", unit, "");
    assert Spelled(t) == digits + unit;
    assert Spells(t, digits + unit, Digits(digits), Worth(unit));
  }

  /** A bare number is bytes, for every 63-bit number; so is one with a `B` in either case. */
  lemma BareBytes(n: nat)
    requires n < TWO_TO_63
    ensures SizeOf(Decimal(n)) == Some(n) && SizeOf(Decimal(n) + "b") == Some(n) && SizeOf(Decimal(n) + "B") == Some(n)
  {
    DecimalDigits(n);
    assert Decimal(n) + "" == Decimal(n);
    PlainMeans(Decimal(n), "");
    PlainMeans(Decimal(n), "b");
    PlainMeans(Decimal(n), "B");
    SizeExact(Decimal(n));
    SizeExact(Decimal(n) + "b");
    SizeExact(Decimal(n) + "B");
    assert n * 1 == n;
  }

  /** What `formatSize` prints: the number of the largest unit that divides the size, and that unit; or a word. */
  lemma FormatExact(n: int)
    ensures n == 0 ==> FormatSize(n) == "unlimited"
    ensures n != 0 ==> exists q: int, mult, name ::
              && IsUnit(name, mult) && n == q * mult && FormatSize(n) == ShowInt(q) + " " + name
              && forall other, more :: IsUnit(other, more) && more > mult ==> n % more != 0
  {
    if n != 0 {
      var (mult, name) := LargestUnit(n);
      var q := TruncDiv(n, mult);
      TruncExact(n, mult);
      assert IsUnit(name, mult) && n == q * mult && FormatSize(n) == ShowInt(q) + " " + name;
    }
  }

  lemma TruncExact(n: int, mult: nat)
    requires mult > 0 && n % mult == 0
    ensures n == TruncDiv(n, mult) * mult
  {
    assert n == mult * (n / mult);
    if n < 0 {
      var q := n / mult;
      assert -n == mult * -q;
      DivUnique(-n, mult, -q);
    }
  }

  lemma DivUnique(m: int, mult: int, q: int)
    requires mult > 0 && m == mult * q
    ensures m / mult == q
  {
    var d := q - m / mult;
    assert m == mult * (m / mult) + m % mult;
    assert mult * d == m % mult;
    assert d >= 1 ==> mult * d >= mult;
    assert d <= -1 ==> mult * d <= -mult;
  }

  /** `parseSize` is exact precisely when number times unit fits in 63 bits. */
  lemma ParseExact(input: string)
    requires Reading(input).Some?
    ensures var (n, mult) := Reading(input).value;
            SizeOf(input) == Some(n * mult) <==> n * mult < TWO_TO_63
  {
    var (n, mult) := Reading(input).value;
    WrapExact(n, mult);
  }

  lemma WrapExact(n: nat, mult: nat)
    ensures Wrap64(n * mult) == n * mult <==> n * mult < TWO_TO_63
  {
    var x := n * mult;
    assert x >= 0;
  }

  lemma GigabytesRange(n: nat)
    requires 0x2_0000_0000 <= n < 0x4_0000_0000
    ensures TWO_TO_63 <= n * GB < 2 * TWO_TO_63
  {
    assert GB == 0x4000_0000;
  }

  lemma WrapNegative(x: int)
    requires TWO_TO_63 <= x < 2 * TWO_TO_63
    ensures Wrap64(x) == x - 2 * TWO_TO_63
  {
  }

  /** Beyond that it wraps: from 2^33 gigabytes on, and short of 2^34, every size parses as a negative one. */
  lemma ParseWraps(n: nat)
    requires 0x2_0000_0000 <= n < 0x4_0000_0000
    ensures SizeOf(Decimal(n) + "" + "GB") == Some(n * GB - 2 * TWO_TO_63)
    ensures n * GB - 2 * TWO_TO_63 < 0
  {
    DecimalSize(n, "", "GB", GB);
    GigabytesRange(n);
    WrapNegative(n * GB);
  }
}
