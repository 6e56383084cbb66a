/** String operations the bot relies on, with the Python semantics it uses:
    prefix tests, `str.replace(p, "")`, `str.split(",")`, `str.strip()`,
    `str(int)` and `int(str)`. */
module Text {
  import opened Outcomes

  // ---------------------------------------------------------------------
  // Occurrences and removal (`s.replace(pat, "")`)
  // ---------------------------------------------------------------------

  /** Python truthiness of an optional string: present and non-empty. */
  predicate Truthy(s: Option<string>) {
    s.Some? && |s.value| > 0
  }

  predicate StartsWith(s: string, prefix: string) {
    prefix <= s
  }

  /** `pat` occurs in `s` starting at index `i`. */
  predicate OccursAt(s: string, pat: string, i: int) {
    0 <= i && i + |pat| <= |s| && s[i..i + |pat|] == pat
  }

  /** Python's `pat in s`. */
  predicate Contains(s: string, pat: string) {
    exists i | 0 <= i <= |s| - |pat| :: OccursAt(s, pat, i)
  }

  /** Python's `s.replace(pat, "")`: scanning left to right, every
      non-overlapping occurrence of `pat` is deleted. */
  function RemoveAll(s: string, pat: string): (r: string)
    requires |pat| > 0
    ensures |r| <= |s|
    decreases |s|
  {
    if |s| == 0 then ""
    else if StartsWith(s, pat) then RemoveAll(s[|pat|..], pat)
    else [s[0]] + RemoveAll(s[1..], pat)
  }

  lemma StartsWithAtZero(s: string, pat: string)
    ensures StartsWith(s, pat) <==> OccursAt(s, pat, 0)
  {
    if OccursAt(s, pat, 0) {
      assert s[..|pat|] == s[0..|pat|];
    }
  }

  lemma OccursInTail(s: string, pat: string, i: int)
    requires |s| > 0 && OccursAt(s[1..], pat, i)
    ensures OccursAt(s, pat, i + 1)
  {
    assert s[i + 1..i + 1 + |pat|] == s[1..][i..i + |pat|];
  }

  /** A string free of `pat` is left as it is. */
  lemma {:induction false} RemoveAllAbsent(s: string, pat: string)
    requires |pat| > 0 && !Contains(s, pat)
    ensures RemoveAll(s, pat) == s
    decreases |s|
  {
    if |s| > 0 {
      StartsWithAtZero(s, pat);
      assert !OccursAt(s, pat, 0);
      if Contains(s[1..], pat) {
        var i :| 0 <= i <= |s[1..]| - |pat| && OccursAt(s[1..], pat, i);
        OccursInTail(s, pat, i);
      }
      RemoveAllAbsent(s[1..], pat);
      assert s == [s[0]] + s[1..];
    }
  }

  /** A string containing `pat` strictly shrinks. */
  lemma {:induction false} RemoveAllPresent(s: string, pat: string)
    requires |pat| > 0 && Contains(s, pat)
    ensures |RemoveAll(s, pat)| < |s|
    decreases |s|
  {
    var i :| 0 <= i <= |s| - |pat| && OccursAt(s, pat, i);
    StartsWithAtZero(s, pat);
    if !StartsWith(s, pat) {
      assert i != 0;
      assert s[1..][i - 1..i - 1 + |pat|] == s[i..i + |pat|];
      assert OccursAt(s[1..], pat, i - 1);
      RemoveAllPresent(s[1..], pat);
    }
  }

  /** `RemoveAll` is the identity exactly on the strings free of `pat`. */
  lemma RemoveAllFixedIff(s: string, pat: string)
    requires |pat| > 0
    ensures RemoveAll(s, pat) == s <==> !Contains(s, pat)
  {
    if Contains(s, pat) {
      RemoveAllPresent(s, pat);
    } else {
      RemoveAllAbsent(s, pat);
    }
  }

  /** Removing `pat` from `pat + name` gives `name` back exactly when `name`
      does not itself contain `pat`. */
  lemma PrefixRemovalRoundTrip(pat: string, name: string)
    requires |pat| > 0
    ensures RemoveAll(pat + name, pat) == name <==> !Contains(name, pat)
  {
    assert StartsWith(pat + name, pat);
    assert (pat + name)[|pat|..] == name;
    RemoveAllFixedIff(name, pat);
  }

  // ---------------------------------------------------------------------
  // Splitting and joining (`s.split(sep)`, `sep.join(parts)`)
  // ---------------------------------------------------------------------

  /** Python's `s.split(sep)` for a one-character separator: always at least
      one part, empty parts kept. */
  function Split(s: string, sep: char): (parts: seq<string>)
    ensures |parts| >= 1
    ensures forall k :: 0 <= k < |parts| ==> sep !in parts[k]
  {
    if |s| == 0 then [""]
    else
      var rest := Split(s[1..], sep);
      if s[0] == sep then [""] + rest
      else [[s[0]] + rest[0]] + rest[1..]
  }

  function Join(parts: seq<string>, sep: char): string
    requires |parts| >= 1
    decreases |parts|
  {
    if |parts| == 1 then parts[0] else parts[0] + [sep] + Join(parts[1..], sep)
  }

  /** Joining the parts of a split restores the string. */
  lemma {:induction false} JoinSplit(s: string, sep: char)
    ensures Join(Split(s, sep), sep) == s
  {
    if |s| > 0 {
      var rest := Split(s[1..], sep);
      JoinSplit(s[1..], sep);
      if s[0] == sep {
        assert Split(s, sep)[1..] == rest;
        assert s == [sep] + s[1..];
      } else {
        var parts := Split(s, sep);
        assert parts[1..] == rest[1..];
        if |rest| == 1 {
          assert Join(parts, sep) == [s[0]] + rest[0];
        } else {
          assert Join(rest, sep) == rest[0] + [sep] + Join(rest[1..], sep);
        }
        assert s == [s[0]] + s[1..];
      }
    }
  }

  lemma SplitPrepend(c: char, tail: string, sep: char)
    requires c != sep
    ensures Split([c] + tail, sep) == [[c] + Split(tail, sep)[0]] + Split(tail, sep)[1..]
  {
    assert ([c] + tail)[1..] == tail;
  }

  /** Splitting a join of separator-free parts gives the parts back. */
  lemma {:induction false} SplitJoin(parts: seq<string>, sep: char)
    requires |parts| >= 1
    requires forall k :: 0 <= k < |parts| ==> sep !in parts[k]
    ensures Split(Join(parts, sep), sep) == parts
    decreases |parts|, |parts[0]|
  {
    if |parts| == 1 {
      SplitOfPlain(parts[0], sep);
    } else {
      var p := parts[0];
      if |p| == 0 {
        var tail := Join(parts[1..], sep);
        SplitJoin(parts[1..], sep);
        assert Join(parts, sep) == [sep] + tail;
        assert ([sep] + tail)[1..] == tail;
        assert parts == [""] + parts[1..];
      } else {
        var shorter := [p[1..]] + parts[1..];
        DropFirstCharPlain(parts, sep);
        SplitJoin(shorter, sep);
        JoinDropFirstChar(parts, sep);
        assert p[0] in p;
        SplitPrepend(p[0], Join(shorter, sep), sep);
        assert [p[0]] + p[1..] == p;
        assert parts == [p] + parts[1..];
      }
    }
  }

  /** Dropping the first character of the first part keeps every part
      free of the separator. */
  lemma DropFirstCharPlain(parts: seq<string>, sep: char)
    requires |parts| >= 1 && |parts[0]| > 0
    requires forall k :: 0 <= k < |parts| ==> sep !in parts[k]
    ensures var shorter := [parts[0][1..]] + parts[1..];
      forall k :: 0 <= k < |shorter| ==> sep !in shorter[k]
  {
    var shorter := [parts[0][1..]] + parts[1..];
    forall k | 0 <= k < |shorter| ensures sep !in shorter[k] {
      if k == 0 {
        assert forall x :: x in parts[0][1..] ==> x in parts[0];
      } else {
        assert shorter[k] == parts[k];
      }
    }
  }

  /** A join starts with the first character of the first part. */
  lemma JoinDropFirstChar(parts: seq<string>, sep: char)
    requires |parts| >= 2 && |parts[0]| > 0
    ensures Join(parts, sep) == [parts[0][0]] + Join([parts[0][1..]] + parts[1..], sep)
  {
    var p := parts[0];
    var shorter := [p[1..]] + parts[1..];
    assert shorter[1..] == parts[1..];
    assert p == [p[0]] + p[1..];
  }

  lemma {:induction false} SplitOfPlain(s: string, sep: char)
    requires sep !in s
    ensures Split(s, sep) == [s]
  {
    if |s| > 0 {
      assert s[0] in s;
      assert forall x :: x in s[1..] ==> x in s;
      SplitOfPlain(s[1..], sep);
      assert [s[0]] + s[1..] == s;
    }
  }

  /** The non-empty parts of a list, order kept: `[x for x in parts if x]`. */
  function NonEmpty(parts: seq<string>): (r: seq<string>)
    ensures forall k :: 0 <= k < |r| ==> |r[k]| > 0
    ensures |r| <= |parts|
  {
    if |parts| == 0 then []
    else if |parts[0]| == 0 then NonEmpty(parts[1..])
    else [parts[0]] + NonEmpty(parts[1..])
  }

  // ---------------------------------------------------------------------
  // Whitespace stripping (`s.strip()`)
  // ---------------------------------------------------------------------

  /** The characters Python's `str.isspace` accepts, which `str.strip()`
      removes from both ends. */
  predicate IsSpace(c: char) {
    c == ' ' || ('\t' <= c <= '\r') || ('\U{1C}' <= c <= '\U{1F}')
    || c == '\U{85}' || c == '\U{A0}' || c == '\U{1680}'
    || ('\U{2000}' <= c <= '\U{200A}') || c == '\U{2028}' || c == '\U{2029}'
    || c == '\U{202F}' || c == '\U{205F}' || c == '\U{3000}'
  }

  function SkipSpaces(s: string, i: nat): (lo: nat)
    requires i <= |s|
    ensures i <= lo <= |s|
    ensures forall k :: i <= k < lo ==> IsSpace(s[k])
    ensures lo < |s| ==> !IsSpace(s[lo])
    decreases |s| - i
  {
    if i == |s| || !IsSpace(s[i]) then i else SkipSpaces(s, i + 1)
  }

  function SkipSpacesBack(s: string, lo: nat, j: nat): (hi: nat)
    requires lo <= j <= |s|
    ensures lo <= hi <= j
    ensures forall k :: hi <= k < j ==> IsSpace(s[k])
    ensures hi > lo ==> !IsSpace(s[hi - 1])
    decreases j
  {
    if j == lo || !IsSpace(s[j - 1]) then j else SkipSpacesBack(s, lo, j - 1)
  }

  /** Python's `s.strip()`: the longest slice of `s` that neither starts nor
      ends with whitespace, obtained by dropping only whitespace. */
  function Strip(s: string): (r: string)
    ensures |r| == 0 || (!IsSpace(r[0]) && !IsSpace(r[|r| - 1]))
    ensures exists lo, hi :: Trims(s, r, lo, hi)
  {
    var lo := SkipSpaces(s, 0);
    var hi := SkipSpacesBack(s, lo, |s|);
    assert Trims(s, s[lo..hi], lo, hi);
    s[lo..hi]
  }

  /** `r` is `s[lo..hi]` and everything outside that slice is whitespace. */
  predicate Trims(s: string, r: string, lo: int, hi: int) {
    && 0 <= lo <= hi <= |s|
    && r == s[lo..hi]
    && (forall k :: 0 <= k < lo ==> IsSpace(s[k]))
    && (forall k :: hi <= k < |s| ==> IsSpace(s[k]))
  }

  /** Stripping twice is stripping once. */
  lemma StripIdempotent(s: string)
    ensures Strip(Strip(s)) == Strip(s)
  {
    var r := Strip(s);
    assert SkipSpaces(r, 0) == 0;
    if |r| > 0 {
      assert SkipSpacesBack(r, 0, |r|) == |r|;
    }
    assert r[0..|r|] == r;
  }

  /** A string with no whitespace at either end is its own strip. */
  lemma StripFixed(s: string)
    requires |s| == 0 || (!IsSpace(s[0]) && !IsSpace(s[|s| - 1]))
    ensures Strip(s) == s
  {
    assert SkipSpaces(s, 0) == 0;
    if |s| > 0 {
      assert SkipSpacesBack(s, 0, |s|) == |s|;
    }
    assert s[0..|s|] == s;
  }

  // ---------------------------------------------------------------------
  // Decimal integers (`str(n)` and `int(s)`)
  // ---------------------------------------------------------------------

  predicate IsDigit(c: char) {
    '0' <= c <= '9'
  }

  predicate AllDigits(s: string) {
    forall k :: 0 <= k < |s| ==> IsDigit(s[k])
  }

  function DigitChar(d: nat): (c: char)
    requires d < 10
    ensures IsDigit(c)
  {
    ['0', '1', '2', '3', '4', '5', '6', '7', '8', '9'][d]
  }

  function DigitValue(c: char): (d: nat)
    requires IsDigit(c)
    ensures d < 10
  {
    (c as int - '0' as int) as nat
  }

  /** Python's `str(n)` for a natural number. */
  function NatToString(n: nat): (s: string)
    ensures |s| > 0 && AllDigits(s)
  {
    if n < 10 then [DigitChar(n)] else NatToString(n / 10) + [DigitChar(n % 10)]
  }

  /** Python's `str(i)`: a minus sign before the digits of a negative number. */
  function IntToString(i: int): (s: string)
    ensures |s| > 0
  {
    if i < 0 then "-" + NatToString(-i) else NatToString(i)
  }

  /** The value of a digit string read in base ten. */
  function DigitsValue(s: string): nat
    requires AllDigits(s)
  {
    if |s| == 0 then 0 else DigitsValue(s[..|s| - 1]) * 10 + DigitValue(s[|s| - 1])
  }

  lemma {:induction false} DigitsValueOfNatToString(n: nat)
    ensures DigitsValue(NatToString(n)) == n
  {
    if n >= 10 {
      var s := NatToString(n);
      var front := NatToString(n / 10);
      assert s[..|s| - 1] == front;
      DigitsValueOfNatToString(n / 10);
      assert DigitValue(DigitChar(n % 10)) == n % 10;
    } else {
      assert DigitValue(DigitChar(n)) == n;
    }
  }

  /** An unsigned decimal: one or more ASCII digits. */
  function ParseNat(s: string): (r: Option<nat>)
    ensures r.Some? <==> |s| > 0 && AllDigits(s)
  {
    if |s| > 0 && AllDigits(s) then Some(DigitsValue(s)) else None
  }

  /** Python's `int(s)` for an optionally signed ASCII-decimal literal,
      surrounding whitespace allowed; `None` where Python raises ValueError. */
  function ParseInt(s: string): (r: Option<int>)
    ensures r.Some? ==> |Strip(s)| > 0
  {
    var t := Strip(s);
    var signed := |t| > 0 && (t[0] == '-' || t[0] == '+');
    var digits := if signed then t[1..] else t;
    var sign := if signed && t[0] == '-' then -1 else 1;
    match ParseNat(digits)
    case Some(n) => Some(sign * n)
    case None => None
  }

  /** `int(str(i)) == i` for every integer. */
  lemma ParseIntOfIntToString(i: int)
    ensures ParseInt(IntToString(i)) == Some(i)
  {
    var s := IntToString(i);
    var n: nat := if i < 0 then -i else i;
    var digits := NatToString(n);
    DigitsValueOfNatToString(n);
    assert ParseNat(digits) == Some(n);
    if i < 0 {
      assert s == "-" + digits;
      assert s[1..] == digits;
    } else {
      assert s == digits;
      assert IsDigit(s[0]);
    }
    IntToStringUnpadded(i);
    StripFixed(s);
  }

  /** `str(i)` starts with a sign or digit and ends with a digit. */
  lemma IntToStringUnpadded(i: int)
    ensures var s := IntToString(i); !IsSpace(s[0]) && !IsSpace(s[|s| - 1])
  {
    var s := IntToString(i);
    var digits := NatToString(if i < 0 then -i else i);
    assert IsDigit(digits[|digits| - 1]);
    if i < 0 {
      assert s[0] == '-' && s[|s| - 1] == digits[|digits| - 1];
    } else {
      assert IsDigit(s[0]);
    }
  }

  /** Index of the first `c` in `s`, or `|s|` when there is none. */
  function IndexOf(s: string, c: char): (k: nat)
    ensures k <= |s|
    ensures forall j :: 0 <= j < k ==> s[j] != c
    ensures k < |s| ==> s[k] == c
  {
    if |s| == 0 || s[0] == c then 0 else 1 + IndexOf(s[1..], c)
  }

  /** The value of an unsigned decimal with an optional fractional part,
      `digits` or `digits.digits`; `None` for anything else. */
  function DecimalValue(s: string): (r: Option<real>)
    ensures r.Some? ==> r.value >= 0.0
  {
    var k := IndexOf(s, '.');
    if k == |s| then
      if |s| > 0 && AllDigits(s) then Some(DigitsValue(s) as real) else None
    else
      var whole, frac := s[..k], s[k + 1..];
      if |whole| > 0 && |frac| > 0 && AllDigits(whole) && AllDigits(frac) then
        Some(PointValue(whole, frac))
      else None
  }

  /** The value of `whole.frac` for two digit strings: the whole part plus
      the fraction's digits over ten to the number of those digits. */
  function PointValue(whole: string, frac: string): real
    requires AllDigits(whole) && AllDigits(frac)
  {
    DigitsValue(whole) as real + DigitsValue(frac) as real / Pow10(|frac|) as real
  }

  lemma {:induction false} IndexOfMissing(s: string, c: char)
    requires forall k :: 0 <= k < |s| ==> s[k] != c
    ensures IndexOf(s, c) == |s|
  {
    if |s| > 0 {
      IndexOfMissing(s[1..], c);
    }
  }

  lemma {:induction false} IndexOfAfter(a: string, c: char, b: string)
    requires forall k :: 0 <= k < |a| ==> a[k] != c
    ensures IndexOf(a + [c] + b, c) == |a|
  {
    if |a| > 0 {
      assert (a + [c] + b)[1..] == a[1..] + [c] + b;
      IndexOfAfter(a[1..], c, b);
    }
  }

  /** A plain digit string reads as its base-ten value. */
  lemma DecimalValueWhole(s: string)
    requires |s| > 0 && AllDigits(s)
    ensures DecimalValue(s) == Some(DigitsValue(s) as real)
  {
    IndexOfMissing(s, '.');
  }

  /** `whole.frac` reads as the whole part plus the fraction over a power of ten. */
  lemma DecimalValueFraction(whole: string, frac: string)
    requires |whole| > 0 && AllDigits(whole) && |frac| > 0 && AllDigits(frac)
    ensures DecimalValue(whole + "." + frac) == Some(PointValue(whole, frac))
  {
    var s := whole + "." + frac;
    IndexOfAfter(whole, '.', frac);
    assert s == whole + ['.'] + frac;
    assert s[..|whole|] == whole;
    assert s[|whole| + 1..] == frac;
    DecimalValueAt(s, |whole|);
  }

  /** A decimal with its point at `k` reads as the point value of the two
      sides. */
  lemma DecimalValueAt(s: string, k: nat)
    requires k < |s| && IndexOf(s, '.') == k
    requires 0 < k < |s| - 1 && AllDigits(s[..k]) && AllDigits(s[k + 1..])
    ensures DecimalValue(s) == Some(PointValue(s[..k], s[k + 1..]))
  {
  }

  /** Every `str(n)` of a natural number reads back as `n`. */
  lemma DecimalValueOfNatToString(n: nat)
    ensures DecimalValue(NatToString(n)) == Some(n as real)
  {
    DecimalValueWhole(NatToString(n));
    DigitsValueOfNatToString(n);
  }

  function Pow10(n: nat): (p: nat)
    ensures p >= 1
  {
    if n == 0 then 1 else 10 * Pow10(n - 1)
  }
}
