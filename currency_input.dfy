/** The currency input field: what it reports as the user types (every
    non-digit dropped, the rest read as a decimal integer) and how it
    shows a value (Indonesian digit grouping, '.' every three digits). */
module CurrencyInput {

  import opened Types
  import opened Seqs
  import opened IsoDates

  /** The field's value property: a number or a string. */
  datatype FieldValue = Num(n: int) | Text(s: string)

  function DigitChar(d: nat): (c: char)
    requires d < 10
    ensures IsDigit(c) && c as int - '0' as int == d
  {
    ('0' as int + d) as char
  }

  predicate AllDigits(s: string) {
    forall i :: 0 <= i < |s| ==> IsDigit(s[i])
  }

  /** The value of one digit character. */
  function DigitValue(c: char): int {
    c as int - '0' as int
  }

  /** The value of a string of decimal digits, most significant first. */
  function DecimalValue(s: string): int {
    if s == [] then 0 else DecimalValue(s[..|s| - 1]) * 10 + DigitValue(s[|s| - 1])
  }

  /** A string of digits reads as a non-negative number. */
  lemma {:induction false} DecimalValueNonNegative(s: string)
    requires AllDigits(s)
    ensures DecimalValue(s) >= 0
  {
    if s != [] {
      var init := s[..|s| - 1];
      assert forall i :: 0 <= i < |init| ==> init[i] == s[i];
      DecimalValueNonNegative(init);
    }
  }

  function Pow10(k: nat): (p: nat)
    ensures p >= 1
  {
    if k == 0 then 1 else 10 * Pow10(k - 1)
  }

  /** Reading a concatenation: the first part shifted left by the length of
      the second. */
  lemma {:induction false} DecimalValueAppend(a: string, b: string)
    ensures DecimalValue(a + b) == DecimalValue(a) * Pow10(|b|) + DecimalValue(b)
  {
    if b == [] {
      assert a + b == a;
    } else {
      var ab := a + b;
      var b' := b[..|b| - 1];
      assert ab[..|ab| - 1] == a + b';
      assert ab[|ab| - 1] == b[|b| - 1];
      DecimalValueAppend(a, b');
      assert Pow10(|b|) == 10 * Pow10(|b'|);
      ShiftDigit(DecimalValue(a), Pow10(|b'|), DecimalValue(b'), DigitValue(b[|b| - 1]));
    }
  }

  /** Appending one digit to x * p + y multiplies the shift p by ten. */
  lemma ShiftDigit(x: int, p: int, y: int, d: int)
    ensures (x * p + y) * 10 + d == x * (10 * p) + (y * 10 + d)
  {
    assert (x * p + y) * 10 == x * p * 10 + y * 10;
    assert x * p * 10 == x * (10 * p);
  }

  /** The decimal digits of n, without leading zeros ("0" for zero). */
  function NatToString(n: nat): (s: string)
    ensures s != [] && AllDigits(s)
    ensures DecimalValue(s) == n
  {
    if n < 10 then
      assert [DigitChar(n)][..0] == [];
      [DigitChar(n)]
    else
      var s := NatToString(n / 10) + [DigitChar(n % 10)];
      assert s[..|s| - 1] == NatToString(n / 10);
      s
  }

  /** A group of exactly three digits, zero-padded. */
  function Pad3(n: nat): (s: string)
    requires n < 1000
    ensures |s| == 3 && AllDigits(s) && DecimalValue(s) == n
  {
    var a, b, c := n / 100, (n / 10) % 10, n % 10;
    var s := [DigitChar(a), DigitChar(b), DigitChar(c)];
    var s2 := [DigitChar(a), DigitChar(b)];
    var s1 := [DigitChar(a)];
    assert s[..2] == s2 && s2[..1] == s1 && s1[..0] == [];
    assert DecimalValue(s1) == a;
    assert DecimalValue(s2) == a * 10 + b;
    assert DecimalValue(s) == (a * 10 + b) * 10 + c;
    assert n == a * 100 + b * 10 + c;
    s
  }

  /** `Intl.NumberFormat('id-ID')` on a non-negative integer. */
  function Grouped(n: nat): string {
    if n < 1000 then NatToString(n) else Grouped(n / 1000) + "." + Pad3(n % 1000)
  }

  /** The display of an integer: a minus sign before the grouped magnitude
      of a negative one. */
  function FormatInt(k: int): string {
    if k < 0 then "-" + Grouped(-k) else Grouped(k)
  }

  /** The longest prefix of s made of digits. */
  function LeadingDigits(s: string): (d: string)
    ensures |d| <= |s| && AllDigits(d) && d == s[..|d|]
    ensures |d| < |s| ==> !IsDigit(s[|d|])
  {
    if s == [] || !IsDigit(s[0]) then []
    else
      var rest := LeadingDigits(s[1..]);
      [s[0]] + rest
  }

  predicate IsSpace(c: char) {
    c == ' ' || c == '\t' || c == '\n' || c == '\r' || c == '\U{000B}' || c == '\U{000C}'
  }

  function TrimStart(s: string): (t: string)
    ensures |t| <= |s| && t == s[|s| - |t|..]
    ensures t != [] ==> !IsSpace(t[0])
  {
    if s != [] && IsSpace(s[0]) then TrimStart(s[1..]) else s
  }

  /** `parseInt(s, 10)`: leading white space, an optional sign, then the
      longest run of digits; None (NaN) when there is no digit. */
  function ParseInt(s: string): (r: Option<int>)
    ensures s != [] && AllDigits(s) ==> r == Some(DecimalValue(s))
    ensures (forall i :: 0 <= i < |s| ==> !IsDigit(s[i])) ==> r.None?
  {
    var t := TrimStart(s);
    var negative := t != [] && t[0] == '-';
    var body := if t != [] && (t[0] == '-' || t[0] == '+') then t[1..] else t;
    var digits := LeadingDigits(body);
    assert s != [] && AllDigits(s) ==> t == s && body == s && digits == s;
    assert body != [] ==> body[0] == s[|s| - |body|];
    if digits == [] then None
    else Some(if negative then -DecimalValue(digits) else DecimalValue(digits))
  }

  /** `formatValue`: the empty string for a falsy value (0 or '') and for a
      string parseInt cannot read, the grouped display otherwise. */
  function FormatValue(v: FieldValue): (r: string)
    ensures v == Num(0) || v == Text("") ==> r == ""
    ensures v.Text? && ParseInt(v.s).None? ==> r == ""
    ensures v.Num? && v.n != 0 ==> r == FormatInt(v.n)
    ensures v.Text? && v.s != "" && ParseInt(v.s).Some? ==> r == FormatInt(ParseInt(v.s).value)
  {
    match v
    case Num(n) => if n == 0 then "" else FormatInt(n)
    case Text(s) =>
      if s == "" then ""
      else match ParseInt(s)
        case None => ""
        case Some(k) => FormatInt(k)
  }

  /** The browser's `required` check on a field holding the number n fails
      exactly when the field shows nothing, which is for 0 alone. */
  predicate ShowsEmpty(n: int): (b: bool)
    ensures b <==> n == 0
  {
    FormatValue(Num(n)) == ""
  }

  /** `replace(/\D/g, '')`. */
  function DigitsOf(s: string): (d: string)
    ensures AllDigits(d)
  {
    var d := Filter(s, IsDigit);
    assert forall i :: 0 <= i < |d| ==> d[i] in d;
    d
  }

  /** `handleChange`: the digits of the typed text read as a decimal number,
      or 0 when it has none. */
  function HandleChange(typed: string): (n: int)
    ensures n >= 0
    ensures DigitsOf(typed) == [] ==> n == 0
    ensures DigitsOf(typed) != [] ==> n == DecimalValue(DigitsOf(typed))
  {
    var digits := DigitsOf(typed);
    DecimalValueNonNegative(digits);
    if digits == [] then 0 else DecimalValue(digits)
  }

  /** The digits of a concatenation are the digits of each part. */
  lemma DigitsOfAppend(a: string, b: string)
    ensures DigitsOf(a + b) == DigitsOf(a) + DigitsOf(b)
  {
    FilterAppend(a, b, IsDigit);
  }

  lemma DigitsOfNonDigit(c: char)
    requires !IsDigit(c)
    ensures DigitsOf([c]) == []
  {
    assert [c][1..] == [];
  }

  /** Inserting a non-digit anywhere changes nothing reported. */
  lemma SeparatorIgnored(a: string, c: char, b: string)
    requires !IsDigit(c)
    ensures HandleChange(a + [c] + b) == HandleChange(a + b)
  {
    DigitsOfInsert(a, c, b);
  }

  lemma DigitsOfInsert(a: string, c: char, b: string)
    requires !IsDigit(c)
    ensures DigitsOf(a + [c] + b) == DigitsOf(a + b)
  {
    DigitsOfAppend(a + [c], b);
    DigitsOfAppend(a, [c]);
    DigitsOfAppend(a, b);
    DigitsOfNonDigit(c);
  }

  lemma DigitsOfDigits(s: string)
    requires AllDigits(s)
    ensures DigitsOf(s) == s
  {
    FilterAll(s, IsDigit);
  }

  /** Removing the separators of a grouped display leaves the digits. */
  lemma GroupSplit(head: string, tail: string)
    ensures DigitsOf(head + "." + tail) == DigitsOf(head) + DigitsOf(tail)
  {
    assert head + "." + tail == head + ['.'] + tail;
    DigitsOfInsert(head, '.', tail);
    DigitsOfAppend(head, tail);
  }

  /** The digits of a grouped display read back as the number. */
  lemma {:induction false} GroupedDigits(n: nat)
    ensures DigitsOf(Grouped(n)) != [] && DecimalValue(DigitsOf(Grouped(n))) == n
  {
    if n < 1000 {
      DigitsOfDigits(NatToString(n));
    } else {
      GroupedDigits(n / 1000);
      var head := Grouped(n / 1000);
      var tail := Pad3(n % 1000);
      GroupSplit(head, tail);
      DigitsOfDigits(tail);
      DecimalValueAppend(DigitsOf(head), tail);
      assert Pow10(3) == 1000;
    }
  }

  /** Round trip: what the field shows for any non-negative whole number is
      read back as that number. */
  lemma FormatThenParse(n: nat)
    ensures HandleChange(FormatValue(Num(n))) == n
  {
    if n != 0 {
      GroupedDigits(n);
    }
  }

  /** 10000 is shown as "10.000". */
  lemma FormatTenThousand()
    ensures FormatValue(Num(10000)) == "10.000"
  {
    assert NatToString(1) == "1";
    assert NatToString(10) == "10";
    assert Pad3(0) == "000";
  }

  /** Digits typed in order are read as one decimal number. */
  lemma ReadTyped()
    ensures HandleChange("12345") == 12345
  {
    assert NatToString(1) == "1";
    assert NatToString(12) == "12";
    assert NatToString(123) == "123";
    assert NatToString(1234) == "1234";
    assert NatToString(12345) == "12345";
    DigitsOfDigits("12345");
  }

  /** Text without digits is read as 0. */
  lemma ReadNoDigits()
    ensures HandleChange("abc") == 0
  {
    DigitsOfAppend("a", "bc");
    DigitsOfAppend("b", "c");
    DigitsOfNonDigit('a');
    DigitsOfNonDigit('b');
    DigitsOfNonDigit('c');
    assert "a" + "bc" == "abc" && "b" + "c" == "bc";
  }

  /** A grouped display typed back is read as its number. */
  lemma ReadGrouped()
    ensures HandleChange("10.000") == 10000
  {
    FormatTenThousand();
    FormatThenParse(10000);
  }
}
