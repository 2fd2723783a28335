/** `parseCents(from:)` of the add-transaction form: user text to a whole
    number of cents, by exact decimal arithmetic on the digit string. The
    guard that finds nothing but whitespace gives `EmptyInput`; the
    character guard and the decimal reading give `InvalidCharacter`. */
module AmountParser {
  import opened Wrappers
  import opened Text

  datatype ParseError = EmptyInput | InvalidCharacter

  /** `replacingOccurrences(of: ",", with: ".")` */
  function Normalize(s: string): (r: string)
    ensures |r| == |s|
    ensures forall i :: 0 <= i < |s| ==> r[i] == (if s[i] == ',' then '.' else s[i])
  {
    seq(|s|, i requires 0 <= i < |s| => if s[i] == ',' then '.' else s[i])
  }

  predicate IsDigit(c: char)
  {
    '0' <= c <= '9'
  }

  /** Membership in `CharacterSet(charactersIn: "0123456789.")` */
  predicate IsAllowed(c: char)
  {
    IsDigit(c) || c == '.'
  }

  predicate AllAllowed(s: string)
  {
    forall i :: 0 <= i < |s| ==> IsAllowed(s[i])
  }

  predicate AllDigits(s: string)
  {
    forall i :: 0 <= i < |s| ==> IsDigit(s[i])
  }

  /** The position of the first '.', or `|s|` when there is none. */
  function IndexOfPoint(s: string): (i: nat)
    ensures i <= |s|
    ensures i < |s| ==> s[i] == '.'
    ensures forall j :: 0 <= j < i ==> s[j] != '.'
  {
    if s == [] || s[0] == '.' then 0 else 1 + IndexOfPoint(s[1..])
  }

  /** An exact decimal as written: the digits before the point and after it. */
  datatype DecimalText = DecimalText(whole: string, fraction: string)

  predicate IsDecimal(d: DecimalText)
  {
    AllDigits(d.whole) && AllDigits(d.fraction) && |d.whole| + |d.fraction| > 0
  }

  /** The reading `Decimal(string:)` gives a text of digits and points. How
      that library call treats a second point is not visible in the
      source; the comment above the character guard allows one point, so
      a second one is rejected here. A text without any digit (".") is
      rejected too. */
  function ReadDecimal(s: string): (r: Option<DecimalText>)
    requires AllAllowed(s)
    ensures r.Some? ==> IsDecimal(r.value)
    ensures r.Some? ==> s == r.value.whole + ['.'] + r.value.fraction || (s == r.value.whole && r.value.fraction == [])
  {
    var p := IndexOfPoint(s);
    if p == |s| then
      if s == [] then None else Some(DecimalText(s, []))
    else
      var whole, fraction := s[..p], s[p + 1..];
      assert s == whole + ['.'] + fraction;
      assert forall j :: 0 <= j < |fraction| ==> fraction[j] == s[p + 1 + j];
      if IndexOfPoint(fraction) < |fraction| then None
      else if whole == [] && fraction == [] then None
      else Some(DecimalText(whole, fraction))
  }

  function DigitValue(c: char): nat
    requires IsDigit(c)
  {
    (c as int) - ('0' as int)
  }

  /** The number a string of decimal digits denotes. */
  function DigitsValue(s: string): nat
    requires AllDigits(s)
  {
    if s == [] then 0 else 10 * DigitsValue(s[..|s| - 1]) + DigitValue(s[|s| - 1])
  }

  function Pow10(k: nat): nat
  {
    if k == 0 then 1 else 10 * Pow10(k - 1)
  }

  function Zeros(n: nat): (r: string)
    ensures |r| == n && AllDigits(r)
  {
    seq(n, _ => '0')
  }

  /** The first two fraction digits, padded with zeros. */
  function Pad2(f: string): (r: string)
    requires AllDigits(f)
    ensures |r| == 2 && AllDigits(r)
  {
    if |f| >= 2 then f[..2] else f + Zeros(2 - |f|)
  }

  /** `decimal * 100`, rounded to the nearest integer, a half rounded up:
      the whole digits and the first two fraction digits give the cents,
      and the third fraction digit decides the rounding. */
  function Cents(d: DecimalText): nat
    requires AllDigits(d.whole) && AllDigits(d.fraction)
  {
    var cents := DigitsValue(d.whole + Pad2(d.fraction));
    if |d.fraction| > 2 && d.fraction[2] >= '5' then cents + 1 else cents
  }

  /** `parseCents(from:)` with the reason for a missing amount kept. */
  function ParseAmount(text: string): (r: Result<int, ParseError>)
    ensures r.Success? ==> r.value >= 0
  {
    var trimmed := Trim(text);
    if trimmed == [] then Failure(EmptyInput)
    else
      var normalized := Normalize(trimmed);
      if !AllAllowed(normalized) then Failure(InvalidCharacter)
      else
        match ReadDecimal(normalized)
        case None => Failure(InvalidCharacter)
        case Some(d) => Success(Cents(d))
  }

  /** `parseCents(from:)`: the amount in cents, or nil for either error. */
  function ParseCents(text: string): (r: Option<int>)
    ensures r.Some? ==> r.value >= 0
    ensures AllWhitespace(text) ==> r.None?
  {
    EmptyInputIff(text);
    ParseAmount(text).ToOption()
  }

  // ----- Digit arithmetic -----

  lemma {:induction false} Pow10Add(a: nat, b: nat)
    ensures Pow10(a + b) == Pow10(a) * Pow10(b)
    decreases a
  {
    if a > 0 {
      Pow10Add(a - 1, b);
      MulAssociates(10, Pow10(a - 1), Pow10(b));
    }
  }

  lemma MulAssociates(x: int, y: int, z: int)
    ensures x * (y * z) == (x * y) * z
  {
  }

  lemma AllDigitsConcat(a: string, b: string)
    requires AllDigits(a) && AllDigits(b)
    ensures AllDigits(a + b)
  {
    forall i | 0 <= i < |a + b| ensures IsDigit((a + b)[i]) {
      if i >= |a| { assert (a + b)[i] == b[i - |a|]; }
    }
  }

  lemma ShiftArithmetic(x: int, p: int, y: int, d: int)
    ensures 10 * (x * p + y) + d == x * (10 * p) + (10 * y + d)
  {
  }

  /** Writing `b` after `a` shifts `a` by `|b|` decimal places. */
  lemma {:induction false} DigitsConcat(a: string, b: string)
    requires AllDigits(a) && AllDigits(b)
    ensures AllDigits(a + b)
    ensures DigitsValue(a + b) == DigitsValue(a) * Pow10(|b|) + DigitsValue(b)
    decreases |b|
  {
    AllDigitsConcat(a, b);
    if b == [] {
      assert a + b == a;
    } else {
      var b' := b[..|b| - 1];
      var last := b[|b| - 1];
      assert (a + b)[..|a + b| - 1] == a + b';
      assert (a + b)[|a + b| - 1] == last;
      DigitsConcat(a, b');
      var x, p, y, d := DigitsValue(a), Pow10(|b'|), DigitsValue(b'), DigitValue(last);
      assert DigitsValue(a + b) == 10 * DigitsValue(a + b') + d;
      assert DigitsValue(b) == 10 * y + d;
      assert Pow10(|b|) == 10 * p;
      ShiftArithmetic(x, p, y, d);
    }
  }

  lemma {:induction false} Pow10Positive(k: nat)
    ensures Pow10(k) >= 1
  {
    if k > 0 {
      Pow10Positive(k - 1);
    }
  }

  /** `n` digits denote less than 10^n. */
  lemma {:induction false} DigitsBound(s: string)
    requires AllDigits(s)
    ensures DigitsValue(s) < Pow10(|s|)
    decreases |s|
  {
    if s != [] {
      DigitsBound(s[..|s| - 1]);
    }
  }

  lemma {:induction false} ZerosValue(n: nat)
    ensures DigitsValue(Zeros(n)) == 0
    decreases n
  {
    if n > 0 {
      assert Zeros(n)[..n - 1] == Zeros(n - 1);
      ZerosValue(n - 1);
    }
  }

  /** The first digit of a digit string, scaled, plus the number the rest denotes. */
  lemma HeadAndTail(s: string)
    requires AllDigits(s) && |s| > 0
    ensures DigitsValue(s) == DigitValue(s[0]) * Pow10(|s| - 1) + DigitsValue(s[1..])
    ensures DigitsValue(s[1..]) < Pow10(|s| - 1)
    ensures Pow10(|s|) == 10 * Pow10(|s| - 1)
  {
    var head, tail := s[..1], s[1..];
    assert s == head + tail;
    DigitsConcat(head, tail);
    DigitsBound(tail);
    assert head[..0] == [];
    assert DigitsValue(head) == DigitValue(s[0]);
  }

  lemma HalfArithmetic(dv: int, q: int, t: int)
    requires 0 <= dv <= 9 && 0 <= t < q
    ensures dv >= 5 <==> 2 * (dv * q + t) >= 10 * q
  {
    if dv >= 5 {
      assert dv * q == 5 * q + (dv - 5) * q;
    } else {
      assert dv * q == 4 * q - (4 - dv) * q;
    }
  }

  /** A fraction tail is at least one half exactly when its first digit is 5 or more. */
  lemma HalfOrMore(rest: string)
    requires AllDigits(rest) && |rest| > 0
    ensures rest[0] >= '5' <==> 2 * DigitsValue(rest) >= Pow10(|rest|)
  {
    HeadAndTail(rest);
    HalfArithmetic(DigitValue(rest[0]), Pow10(|rest| - 1), DigitsValue(rest[1..]));
  }

  /** Up to two fraction digits, no rounding happens: the result is exactly
      the decimal's value times 100. */
  lemma CentsExact(d: DecimalText)
    requires AllDigits(d.whole) && AllDigits(d.fraction) && |d.fraction| <= 2
    ensures AllDigits(d.whole + d.fraction)
    ensures Cents(d) * Pow10(|d.fraction|) == 100 * DigitsValue(d.whole + d.fraction)
  {
    var w, f := d.whole, d.fraction;
    AllDigitsConcat(w, f);
    var pad := Zeros(2 - |f|);
    assert w + Pad2(f) == (w + f) + pad;
    DigitsConcat(w + f, pad);
    ZerosValue(2 - |f|);
    var v := DigitsValue(w + f);
    if |f| == 0 {
      assert Pow10(|pad|) == 100 && Pow10(|f|) == 1;
      assert Cents(d) == 100 * v;
    } else if |f| == 1 {
      assert Pow10(|pad|) == 10 && Pow10(|f|) == 10;
      assert Cents(d) == 10 * v;
    } else {
      assert Pow10(|pad|) == 1 && Pow10(|f|) == 100;
      assert Cents(d) == v;
    }
  }

  lemma RoundingArithmetic(c: int, rv: int, q: int, up: int, cents: int, p: int, n: int)
    requires 0 <= rv < q
    requires up == (if 2 * rv >= q then 1 else 0)
    requires cents == c + up && p == 100 * q && n == 100 * (c * q + rv)
    ensures 2 * cents * p <= 2 * n + p < 2 * cents * p + 2 * p
  {
    assert 2 * cents * p == 200 * (c * q) + 200 * (up * q);
    assert 2 * n == 200 * (c * q) + 200 * rv;
  }

  lemma ExactArithmetic(cents: int, p: int, n: int)
    requires cents * p == n && p >= 1
    ensures 2 * cents * p <= 2 * n + p < 2 * cents * p + 2 * p
  {
  }

  /** Past two fraction digits: the whole digits and the first two give
      `c`, the remaining digits `rv` out of `q`, and the third digit
      decides the rounding. */
  lemma CentsPastTwoDigits(d: DecimalText)
    requires AllDigits(d.whole) && AllDigits(d.fraction) && |d.fraction| > 2
    ensures AllDigits(d.whole + d.fraction) && AllDigits(d.whole + d.fraction[..2]) && AllDigits(d.fraction[2..])
    ensures var c, rv, q := DigitsValue(d.whole + d.fraction[..2]), DigitsValue(d.fraction[2..]), Pow10(|d.fraction| - 2);
      && DigitsValue(d.whole + d.fraction) == c * q + rv
      && rv < q
      && Pow10(|d.fraction|) == 100 * q
      && Cents(d) == c + (if 2 * rv >= q then 1 else 0)
  {
    var w, f := d.whole, d.fraction;
    var two, rest := f[..2], f[2..];
    assert f == two + rest;
    assert w + f == (w + two) + rest;
    DigitsConcat(w, two);
    DigitsConcat(w + two, rest);
    Pow10Add(2, |rest|);
    assert Pow10(2) == 100;
    DigitsBound(rest);
    HalfOrMore(rest);
    assert rest[0] == f[2];
  }

  /** The cents are the decimal's value times 100 rounded to the nearest
      integer, a half rounded up: with n / p the exact value times 100,
      Cents - 1/2 <= n / p < Cents + 1/2. */
  lemma CentsRounding(d: DecimalText)
    requires AllDigits(d.whole) && AllDigits(d.fraction)
    ensures AllDigits(d.whole + d.fraction)
    ensures var n, p := 100 * DigitsValue(d.whole + d.fraction), Pow10(|d.fraction|);
      2 * Cents(d) * p <= 2 * n + p < 2 * Cents(d) * p + 2 * p
  {
    var n, p := 100 * DigitsValue(d.whole + d.fraction), Pow10(|d.fraction|);
    if |d.fraction| <= 2 {
      CentsExact(d);
      Pow10Positive(|d.fraction|);
      ExactArithmetic(Cents(d), p, n);
    } else {
      CentsPastTwoDigits(d);
      var c, rv, q := DigitsValue(d.whole + d.fraction[..2]), DigitsValue(d.fraction[2..]), Pow10(|d.fraction| - 2);
      RoundingArithmetic(c, rv, q, if 2 * rv >= q then 1 else 0, Cents(d), p, n);
    }
  }

  // ----- The parser's guards -----

  /** Nothing but whitespace (the empty text included) is `EmptyInput`,
      and nothing else is. */
  lemma EmptyInputIff(text: string)
    ensures ParseAmount(text) == Failure(EmptyInput) <==> AllWhitespace(text)
  {
    TrimEmptyIff(text);
  }

  /** Whitespace around the amount never changes the result. */
  lemma SurroundingWhitespaceIgnored(a: string, text: string, b: string)
    requires AllWhitespace(a) && AllWhitespace(b)
    ensures ParseAmount(a + text + b) == ParseAmount(text)
  {
    TrimSurrounding(a, text, b);
  }

  lemma {:induction false} NormalizeTrimLeading(s: string)
    ensures TrimLeading(Normalize(s)) == Normalize(TrimLeading(s))
    decreases |s|
  {
    if s != [] {
      assert Normalize(s)[1..] == Normalize(s[1..]);
      NormalizeTrimLeading(s[1..]);
    }
  }

  lemma {:induction false} NormalizeTrimTrailing(s: string)
    ensures TrimTrailing(Normalize(s)) == Normalize(TrimTrailing(s))
    decreases |s|
  {
    if s != [] {
      assert Normalize(s)[..|s| - 1] == Normalize(s[..|s| - 1]);
      NormalizeTrimTrailing(s[..|s| - 1]);
    }
  }

  /** Replacing commas before or after trimming is the same, since neither
      a comma nor a point is whitespace. */
  lemma NormalizeCommutesWithTrim(s: string)
    ensures Trim(Normalize(s)) == Normalize(Trim(s))
  {
    NormalizeTrimLeading(s);
    NormalizeTrimTrailing(TrimLeading(s));
  }

  /** A comma reads exactly as a point: "12,34" and "12.34" parse alike. */
  lemma CommaReadsAsPoint(text: string)
    ensures ParseAmount(Normalize(text)) == ParseAmount(text)
  {
    NormalizeCommutesWithTrim(text);
    var t := Trim(text);
    assert Normalize(Normalize(t)) == Normalize(t);
  }

  /** A character other than a digit, a point or a comma left after
      trimming (a sign, a letter, an inner space) means no amount. */
  lemma ForeignCharacterRejected(text: string, c: char)
    requires c in Trim(text) && !IsDigit(c) && c != '.' && c != ','
    ensures ParseAmount(text) == Failure(InvalidCharacter)
  {
    var t := Trim(text);
    var i :| 0 <= i < |t| && t[i] == c;
    assert Normalize(t)[i] == c;
  }

  /** Two points (after commas became points) mean no amount. */
  lemma SecondPointRejected(text: string, i: nat, j: nat)
    requires i < j < |Normalize(Trim(text))|
    requires Normalize(Trim(text))[i] == '.' && Normalize(Trim(text))[j] == '.'
    ensures ParseAmount(text) == Failure(InvalidCharacter)
  {
    var s := Normalize(Trim(text));
    if AllAllowed(s) {
      var p := IndexOfPoint(s);
      assert p <= i;
      var fraction := s[p + 1..];
      assert fraction[j - p - 1] == '.';
    }
  }

  /** Digits, a point and digits (at least one digit in all) parse to the
      cents of that decimal. */
  lemma ParsesPointed(text: string, w: string, f: string)
    requires AllDigits(w) && AllDigits(f) && |w| + |f| > 0
    requires Normalize(Trim(text)) == w + ['.'] + f
    ensures ParseAmount(text) == Success(Cents(DecimalText(w, f)))
  {
    var s := Normalize(Trim(text));
    assert |Trim(text)| == |s|;
    ReadPointed(s, w, f);
  }

  /** The decimal reading of digits, a point and digits. */
  lemma ReadPointed(s: string, w: string, f: string)
    requires AllDigits(w) && AllDigits(f) && |w| + |f| > 0
    requires s == w + ['.'] + f
    ensures AllAllowed(s)
    ensures ReadDecimal(s) == Some(DecimalText(w, f))
  {
    PointedAllowed(w, f, []);
    assert s == w + ['.'] + f + [];
    PointAt(s, w, ['.'] + f);
    var p := IndexOfPoint(s);
    assert s[..p] == w;
    assert s[p + 1..] == f;
    PointAt(f, f, []);
  }

  /** Digits, a point, digits and then `rest` are all allowed characters
      when `rest` is. */
  lemma PointedAllowed(w: string, f: string, rest: string)
    requires AllDigits(w) && AllDigits(f) && AllAllowed(rest)
    ensures AllAllowed(w + ['.'] + f + rest)
  {
    var s := w + ['.'] + f + rest;
    forall k | 0 <= k < |s| ensures IsAllowed(s[k]) {
      if k < |w| { assert s[k] == w[k]; }
      else if |w| < k < |w| + 1 + |f| { assert s[k] == f[k - |w| - 1]; }
      else if k >= |w| + 1 + |f| { assert s[k] == rest[k - |w| - 1 - |f|]; }
    }
  }

  /** The first point of `w + rest` is where `rest` starts, when `w` has
      none and `rest` is empty or starts with one. */
  lemma PointAt(s: string, w: string, rest: string)
    requires AllDigits(w) && (rest == [] || rest[0] == '.') && s == w + rest
    ensures IndexOfPoint(s) == |w|
  {
    forall k | 0 <= k < |w| ensures s[k] != '.' { assert s[k] == w[k]; }
    if rest != [] {
      assert s[|w|] == '.';
    }
  }

  /** A whole number of units is that number of hundreds of cents. */
  lemma CentsWhole(w: string)
    requires AllDigits(w)
    ensures Cents(DecimalText(w, [])) == 100 * DigitsValue(w)
  {
    var w0, w00 := w + "0", w + "00";
    assert Pad2([]) == "00";
    AllDigitsConcat(w, "0");
    AllDigitsConcat(w, "00");
    assert w00[..|w00| - 1] == w0;
    assert w0[..|w0| - 1] == w;
    assert DigitsValue(w0) == 10 * DigitsValue(w);
    assert DigitsValue(w00) == 10 * DigitsValue(w0);
  }

  /** Digits alone parse to their value times 100. */
  lemma ParsesWhole(text: string, w: string)
    requires AllDigits(w) && w != []
    requires Normalize(Trim(text)) == w
    ensures ParseAmount(text) == Success(100 * DigitsValue(w))
  {
    assert IndexOfPoint(w) == |w|;
    assert AllAllowed(w);
    assert ReadDecimal(w) == Some(DecimalText(w, []));
    CentsWhole(w);
  }

  /** Every amount the parser returns comes from digits with at most one
      point, and is the cents of that decimal. */
  lemma SuccessShape(text: string) returns (d: DecimalText)
    requires ParseAmount(text).Success?
    ensures IsDecimal(d)
    ensures var s := Normalize(Trim(text));
      s == d.whole + ['.'] + d.fraction || (s == d.whole && d.fraction == [])
    ensures ParseAmount(text).value == Cents(d)
  {
    var s := Normalize(Trim(text));
    assert Trim(text) != [] && AllAllowed(s) && ReadDecimal(s).Some?;
    d := ReadDecimal(s).value;
  }

  // ----- Worked examples -----

  lemma Value1234()
    ensures DigitsValue("1234") == 1234
  {
    assert "1234"[..3] == "123";
    assert "123"[..2] == "12";
    assert "12"[..1] == "1";
    assert "1"[..0] == [];
  }

  lemma Value1230()
    ensures DigitsValue("1230") == 1230
  {
    assert "1230"[..3] == "123";
    assert "123"[..2] == "12";
    assert "12"[..1] == "1";
    assert "1"[..0] == [];
  }

  /** A text with no whitespace at either end is its own trim. */
  lemma TrimUnchanged(s: string)
    requires s != [] && !IsWhitespace(s[0]) && !IsWhitespace(s[|s| - 1])
    ensures Trim(s) == s
  {
  }

  lemma Cents1234()
    ensures Cents(DecimalText("12", "34")) == 1234
  {
    assert "12" + Pad2("34") == "1234";
    Value1234();
  }

  lemma Example1234()
    ensures ParseCents("12.34") == Some(1234)
  {
    TrimUnchanged("12.34");
    ParsesPointed("12.34", "12", "34");
    Cents1234();
  }

  lemma ExampleComma()
    ensures ParseCents("12,34") == Some(1234)
  {
    TrimUnchanged("12,34");
    assert Normalize("12,34") == "12.34";
    ParsesPointed("12,34", "12", "34");
    Cents1234();
  }

  lemma ExampleWhole()
    ensures ParseCents("5") == Some(500)
  {
    TrimUnchanged("5");
    ParsesWhole("5", "5");
    assert "5"[..0] == [];
  }

  lemma Cents12345()
    ensures Cents(DecimalText("12", "345")) == 1235
    ensures Cents(DecimalText("12", "344")) == 1234
  {
    assert "12" + Pad2("345") == "1234";
    assert "12" + Pad2("344") == "1234";
    Value1234();
  }

  /** "12.345" rounds up to 1235 cents. */
  lemma ExampleRoundsUp()
    ensures ParseCents("12.345") == Some(1235)
  {
    TrimUnchanged("12.345");
    assert Normalize("12.345") == "12" + ['.'] + "345";
    ParsesPointed("12.345", "12", "345");
    Cents12345();
  }

  /** "12.344" rounds down to 1234 cents. */
  lemma ExampleRoundsDown()
    ensures ParseCents("12.344") == Some(1234)
  {
    TrimUnchanged("12.344");
    assert Normalize("12.344") == "12" + ['.'] + "344";
    ParsesPointed("12.344", "12", "344");
    Cents12345();
  }

  lemma ExampleBlank()
    ensures ParseAmount("") == Failure(EmptyInput)
    ensures ParseAmount("   ") == Failure(EmptyInput)
  {
    EmptyInputIff("   ");
  }

  lemma ExampleTwoPoints()
    ensures ParseAmount("12.3.4") == Failure(InvalidCharacter)
  {
    TrimUnchanged("12.3.4");
    SecondPointRejected("12.3.4", 2, 4);
  }

  lemma ExampleLettersAndSign()
    ensures ParseAmount("abc") == Failure(InvalidCharacter)
    ensures ParseAmount("-5") == Failure(InvalidCharacter)
  {
    TrimUnchanged("abc");
    ForeignCharacterRejected("abc", 'a');
    TrimUnchanged("-5");
    ForeignCharacterRejected("-5", '-');
  }

  // ----- As written: the library calls read literally -----

  /** A scan of the longest decimal prefix, which is how `Decimal(string:)`
      is taken to read "12.3.4": it stops at the second point. */
  function ScanDecimalPrefix(s: string): Option<DecimalText>
    requires AllAllowed(s)
  {
    var p := IndexOfPoint(s);
    var whole := s[..p];
    var fraction := if p < |s| then s[p + 1..][..IndexOfPoint(s[p + 1..])] else [];
    assert AllDigits(fraction) by {
      if p < |s| {
        var rest := s[p + 1..];
        assert forall j :: 0 <= j < |rest| ==> rest[j] == s[p + 1 + j];
      }
    }
    if whole == [] && fraction == [] then None else Some(DecimalText(whole, fraction))
  }

  /** `NSDecimalNumber.rounding(accordingToBehavior: nil)` with the default
      handler, which keeps every digit, followed by `.intValue`, which
      drops the fraction: the cents truncated. */
  function TruncatedCents(d: DecimalText): nat
    requires AllDigits(d.whole) && AllDigits(d.fraction)
  {
    DigitsValue(d.whole + Pad2(d.fraction))
  }

  /** `parseCents(from:)` with both library calls read literally. */
  function ParseCentsAsWritten(text: string): (r: Option<int>)
    ensures r.Some? ==> r.value >= 0
  {
    var trimmed := Trim(text);
    if trimmed == [] then None
    else
      var normalized := Normalize(trimmed);
      if !AllAllowed(normalized) then None
      else
        match ScanDecimalPrefix(normalized)
        case None => None
        case Some(d) => Some(TruncatedCents(d))
  }

  /** The longest-prefix scan of digits, a point, digits and then either
      nothing or another point. */
  lemma ScanPointed(s: string, w: string, f: string, rest: string)
    requires AllDigits(w) && AllDigits(f) && |w| + |f| > 0
    requires rest == [] || rest[0] == '.'
    requires s == w + ['.'] + f + rest && AllAllowed(s)
    ensures ScanDecimalPrefix(s) == Some(DecimalText(w, f))
  {
    var tail := ['.'] + f + rest;
    assert s == w + tail;
    PointAt(s, w, tail);
    var p := IndexOfPoint(s);
    assert s[..p] == w;
    var after := s[p + 1..];
    assert after == f + rest;
    PointAt(after, f, rest);
    assert after[..IndexOfPoint(after)] == f;
  }

  /** As written, "12.345" loses its half cent instead of rounding up. */
  lemma AsWrittenTruncates()
    ensures ParseCentsAsWritten("12.345") == Some(1234)
  {
    var s := "12.345";
    TrimUnchanged(s);
    assert Normalize(s) == s;
    assert s == "12" + ['.'] + "345" + [];
    PointedAllowed("12", "345", []);
    ScanPointed(s, "12", "345", []);
    Cents12345();
  }

  lemma Truncated1230()
    ensures TruncatedCents(DecimalText("12", "3")) == 1230
  {
    assert "12" + Pad2("3") == "1230";
    Value1230();
  }

  lemma NormalizedTwoPoints()
    ensures Normalize(Trim("12.3.4")) == "12" + ['.'] + "3" + ".4"
    ensures AllAllowed(Normalize(Trim("12.3.4")))
  {
    TrimUnchanged("12.3.4");
    assert Normalize("12.3.4") == "12.3.4";
    assert "12.3.4" == "12" + ['.'] + "3" + ".4";
    PointedAllowed("12", "3", ".4");
  }

  /** As written, "12.3.4" is read as 12.3 and saved as 1230 cents. */
  lemma AsWrittenAcceptsSecondPoint()
    ensures ParseCentsAsWritten("12.3.4") == Some(1230)
  {
    NormalizedTwoPoints();
    var s := Normalize(Trim("12.3.4"));
    ScanPointed(s, "12", "3", ".4");
    Truncated1230();
  }

  /** Two commas: every comma becomes a point, so "1,2,3" reads "1.2.3".
      The one-point rule rejects it; as written the prefix "1.2" is saved
      as 120 cents. */
  lemma TwoCommasReadings()
    ensures ParseAmount("1,2,3") == Failure(InvalidCharacter)
    ensures ParseCentsAsWritten("1,2,3") == Some(120)
  {
    NormalizedTwoCommas();
    var s := Normalize(Trim("1,2,3"));
    SecondPointRejected("1,2,3", 1, 3);
    ScanPointed(s, "1", "2", ".3");
    Truncated120();
  }

  lemma NormalizedTwoCommas()
    ensures Normalize(Trim("1,2,3")) == "1" + ['.'] + "2" + ".3"
    ensures AllAllowed(Normalize(Trim("1,2,3")))
  {
    TrimUnchanged("1,2,3");
    assert Normalize("1,2,3") == "1.2.3";
    assert "1.2.3" == "1" + ['.'] + "2" + ".3";
    PointedAllowed("1", "2", ".3");
  }

  lemma Truncated120()
    ensures TruncatedCents(DecimalText("1", "2")) == 120
  {
    assert "1" + Pad2("2") == "120";
    assert "120"[..2] == "12";
    assert "12"[..1] == "1";
    assert "1"[..0] == [];
  }

  /** Where the two readings agree: digits with one point and at most two
      fraction digits give the same cents either way, so the code as
      written differs only past the second fraction digit or at a second
      point. */
  lemma AsWrittenAgreesUpToTwoDigits(text: string, w: string, f: string)
    requires AllDigits(w) && AllDigits(f) && |w| + |f| > 0 && |f| <= 2
    requires Normalize(Trim(text)) == w + ['.'] + f
    ensures ParseCentsAsWritten(text) == ParseCents(text)
  {
    var s := Normalize(Trim(text));
    assert |Trim(text)| == |s|;
    PointedAllowed(w, f, []);
    assert s == w + ['.'] + f + [];
    ScanPointed(s, w, f, []);
    ParsesPointed(text, w, f);
  }
}
