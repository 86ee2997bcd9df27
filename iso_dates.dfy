/** Date strings. The system keeps dates as ISO-8601 strings and compares
    them as strings; JavaScript orders strings lexicographically by
    character, which LexLt models (Dafny's own `<` on sequences is the
    proper-prefix relation, not this order). */
module IsoDates {

  import opened Types

  /** JavaScript's `a < b` on strings. */
  predicate LexLt(a: string, b: string)
    decreases |a|
  {
    if a == [] then b != []
    else if b == [] then false
    else if a[0] != b[0] then a[0] < b[0]
    else LexLt(a[1..], b[1..])
  }

  lemma {:induction false} LexLtIrreflexive(a: string)
    ensures !LexLt(a, a)
    decreases |a|
  {
    if a != [] {
      LexLtIrreflexive(a[1..]);
    }
  }

  lemma {:induction false} LexLtTransitive(a: string, b: string, c: string)
    requires LexLt(a, b) && LexLt(b, c)
    ensures LexLt(a, c)
    decreases |a|
  {
    if a != [] && b != [] && c != [] && a[0] == b[0] && b[0] == c[0] {
      LexLtTransitive(a[1..], b[1..], c[1..]);
    }
  }

  /** Any two different strings are ordered one way or the other. */
  lemma {:induction false} LexLtTotal(a: string, b: string)
    requires a != b
    ensures LexLt(a, b) || LexLt(b, a)
    decreases |a|
  {
    if a != [] && b != [] && a[0] == b[0] {
      assert a == [a[0]] + a[1..] && b == [b[0]] + b[1..];
      LexLtTotal(a[1..], b[1..]);
    }
  }

  /** A string comes strictly before every longer string it is a prefix of. */
  lemma {:induction false} PrefixIsLess(a: string, rest: string)
    requires rest != []
    ensures LexLt(a, a + rest)
    decreases |a|
  {
    if a != [] {
      assert (a + rest)[1..] == a[1..] + rest;
      PrefixIsLess(a[1..], rest);
    }
  }

  /** `date.split('T')[0]`: the part of the string before the first 'T',
      or all of it when there is none. */
  function DatePart(s: string): (r: string)
    ensures |r| <= |s| && r == s[..|r|]
    ensures 'T' !in r
    ensures |r| < |s| ==> s[|r|] == 'T'
  {
    if s == [] then []
    else if s[0] == 'T' then []
    else [s[0]] + DatePart(s[1..])
  }

  /** The part before the first 'T' of a day followed by a time suffix is that day. */
  lemma DatePartOfTimestamp(day: string, time: string)
    requires 'T' !in day
    ensures DatePart(day + "T" + time) == day
  {
    var s := day + "T" + time;
    var r := DatePart(s);
    assert s[|day|] == 'T';
    assert r == s[..|day|] == day;
  }

  predicate IsDigit(c: char) {
    '0' <= c <= '9'
  }

  /** The value an HTML date input holds when a day is picked: YYYY-MM-DD. */
  predicate IsDayString(d: string) {
    |d| == 10 && d[4] == '-' && d[7] == '-' &&
    forall i :: 0 <= i < 10 && i != 4 && i != 7 ==> IsDigit(d[i])
  }

  const MIDNIGHT_SUFFIX := "T00:00:00.000Z"

  /** `new Date(d).toISOString()` for the value of a date input: a day string
      is read as UTC midnight of that day; any other value (the empty string
      of a cleared input) is an invalid date, on which toISOString throws. */
  function DateInputToIso(d: string): (r: Option<string>)
    ensures r.Some? <==> IsDayString(d)
    ensures r.Some? ==> DatePart(r.value) == d && |r.value| == 24
    ensures r.Some? ==> r.value == d + MIDNIGHT_SUFFIX
  {
    if IsDayString(d) then
      DatePartOfTimestamp(d, MIDNIGHT_SUFFIX[1..]);
      assert "T" + MIDNIGHT_SUFFIX[1..] == MIDNIGHT_SUFFIX;
      assert d + MIDNIGHT_SUFFIX == d + "T" + MIDNIGHT_SUFFIX[1..];
      Some(d + MIDNIGHT_SUFFIX)
    else None
  }

  /** `s.slice(0, n)`. */
  function Prefix(s: string, n: nat): (r: string)
    ensures |r| == if |s| < n then |s| else n
    ensures r == s[..|r|]
  {
    if |s| < n then s else s[..n]
  }

  /** Picking a day, converting it to ISO and slicing back the first ten
      characters gives the day again. */
  lemma IsoSliceRoundTrip(d: string)
    requires IsDayString(d)
    ensures Prefix(DateInputToIso(d).value, 10) == d
  {
    var iso := DateInputToIso(d).value;
    assert iso == d + MIDNIGHT_SUFFIX;
    assert iso[..10] == d;
  }
}
