/** Character-level helpers shared by the client model: C strings held in
    NUL-initialised buffers, the C locale's `isspace`, and the base-10 integer
    conversion that both `strtol` and `sscanf`'s `%ld` / `%d` perform. */
module Text {

  datatype Option<+T> = None | Some(value: T)

  /** The prefix of `s` before the first occurrence of `c` (all of `s` when
      `c` does not occur): what a C routine sees when `c` terminates the text. */
  function TakeUntil(s: string, c: char): (r: string)
    ensures r <= s
    ensures c !in r
    ensures |r| < |s| ==> s[|r|] == c
    decreases |s|
  {
    if |s| == 0 || s[0] == c then "" else [s[0]] + TakeUntil(s[1..], c)
  }

  /** The C string held by a buffer that was zeroed before the bytes were
      copied in: everything up to the first NUL. */
  function CString(buf: string): string
  {
    TakeUntil(buf, '\0')
  }

  /** Text without the terminator is left intact. */
  lemma TakeUntilAbsent(s: string, c: char)
    requires c !in s
    ensures TakeUntil(s, c) == s
  {
  }

  /** A prefix free of the terminator passes through unchanged and the
      search goes on in what follows it. */
  lemma {:induction false} TakeUntilAppend(a: string, b: string, c: char)
    requires c !in a
    ensures TakeUntil(a + b, c) == a + TakeUntil(b, c)
    decreases |a|
  {
    if |a| > 0 {
      assert (a + b)[1..] == a[1..] + b;
      TakeUntilAppend(a[1..], b, c);
    } else {
      assert a + b == b;
    }
  }

  /** `isspace` in the C locale. */
  predicate IsSpace(c: char)
  {
    c == ' ' || c == '\t' || c == '\n' || c == '\U{0B}' || c == '\U{0C}' || c == '\r'
  }

  predicate IsDigit(c: char)
  {
    '0' <= c <= '9'
  }

  predicate AllDigits(s: string)
  {
    forall i :: 0 <= i < |s| ==> IsDigit(s[i])
  }

  function DigitValue(c: char): nat
    requires IsDigit(c)
  {
    (c as int) - ('0' as int)
  }

  function DigitChar(d: nat): (c: char)
    requires d < 10
    ensures IsDigit(c) && DigitValue(c) == d
  {
    (('0' as int) + d) as char
  }

  /** The number a string of decimal digits denotes, most significant first. */
  function DigitsValue(ds: string): nat
    requires AllDigits(ds)
    decreases |ds|
  {
    if |ds| == 0 then 0 else 10 * DigitsValue(ds[..|ds| - 1]) + DigitValue(ds[|ds| - 1])
  }

  function Pow10(n: nat): (p: nat)
    ensures p >= 1
  {
    if n == 0 then 1 else 10 * Pow10(n - 1)
  }

  /** A string of `n` digits denotes a number below 10^n. */
  lemma {:induction false} DigitsValueBound(ds: string)
    requires AllDigits(ds)
    ensures DigitsValue(ds) < Pow10(|ds|)
    decreases |ds|
  {
    if |ds| > 0 {
      DigitsValueBound(ds[..|ds| - 1]);
    }
  }

  /** Index of the first non-space character at or after `i`. */
  function SkipSpaces(s: string, i: nat): (j: nat)
    requires i <= |s|
    ensures i <= j <= |s|
    ensures forall k :: i <= k < j ==> IsSpace(s[k])
    ensures j == |s| || !IsSpace(s[j])
    decreases |s| - i
  {
    if i == |s| || !IsSpace(s[i]) then i else SkipSpaces(s, i + 1)
  }

  /** Index just past the run of digits that starts at `i`. */
  function DigitsEnd(s: string, i: nat): (j: nat)
    requires i <= |s|
    ensures i <= j <= |s|
    ensures forall k :: i <= k < j ==> IsDigit(s[k])
    ensures j == |s| || !IsDigit(s[j])
    decreases |s| - i
  {
    if i == |s| || !IsDigit(s[i]) then i else DigitsEnd(s, i + 1)
  }

  /** The outcome of one integer conversion: the value read and the index just
      past its last digit. */
  datatype Scan = Scan(value: int, end: nat)

  /** The digits-and-value part of a conversion, once white space and the
      sign have been read: the longest run of digits from `k`. */
  function ScanDigits(s: string, k: nat, negative: bool): (r: Option<Scan>)
    requires k <= |s|
    ensures r.Some? ==> k < r.value.end <= |s| && IsDigit(s[r.value.end - 1])
    ensures r.Some? ==> r.value.end == |s| || !IsDigit(s[r.value.end])
  {
    var e := DigitsEnd(s, k);
    if e == k then None
    else
      var m: int := DigitsValue(s[k..e]);
      Some(Scan(if negative then -m else m, e))
  }

  /** After the white space from `i`, a digit comes next, or a sign with a
      digit right after it: the text an integer conversion can start on. */
  predicate NumeralAhead(s: string, i: nat)
    requires i <= |s|
  {
    var j := SkipSpaces(s, i);
    j < |s| && (IsDigit(s[j]) || ((s[j] == '-' || s[j] == '+') && j + 1 < |s| && IsDigit(s[j + 1])))
  }

  /** One base-10 integer conversion that starts reading at index `i`, as
      `strtol(…, 10)` and `scanf`'s `%ld` / `%d` perform it: leading white space
      is skipped, one optional sign is read, then the longest run of digits.
      `None` when no digit follows (`strtol` then reports that nothing was
      consumed, `scanf` that the conversion failed). */
  function ScanInt(s: string, i: nat): (r: Option<Scan>)
    requires i <= |s|
    ensures r.None? <==> !NumeralAhead(s, i)
    ensures r.Some? ==> i < r.value.end <= |s| && IsDigit(s[r.value.end - 1])
    ensures r.Some? ==> r.value.end == |s| || !IsDigit(s[r.value.end])
  {
    var j := SkipSpaces(s, i);
    if j < |s| && s[j] == '-' then ScanDigits(s, j + 1, true)
    else if j < |s| && s[j] == '+' then ScanDigits(s, j + 1, false)
    else ScanDigits(s, j, false)
  }

  /** The text an integer conversion reads in full once white space is
      skipped: an optional sign, then one or more decimal digits. */
  predicate Numeral(s: string)
  {
    |s| > 0 &&
    if s[0] == '-' || s[0] == '+' then |s| > 1 && AllDigits(s[1..]) else AllDigits(s)
  }

  /** The integer a numeral denotes. */
  function NumeralValue(s: string): int
    requires Numeral(s)
  {
    var magnitude: int := if s[0] == '-' || s[0] == '+' then DigitsValue(s[1..]) else DigitsValue(s);
    if s[0] == '-' then -magnitude else magnitude
  }

  /** The run of digits from `k` reaches the end exactly when everything
      from `k` on is a digit. */
  lemma DigitsEndAll(s: string, k: nat)
    requires k <= |s|
    ensures DigitsEnd(s, k) == |s| <==> AllDigits(s[k..])
  {
    var e := DigitsEnd(s, k);
    if e == |s| {
      forall t | 0 <= t < |s| - k
        ensures IsDigit(s[k..][t])
      {
        assert s[k..][t] == s[k + t];
      }
    }
  }

  /** The digits part of a conversion consumes everything from `k` exactly
      when everything from `k` on is a digit, and then reads all of it. */
  lemma ScanDigitsWhole(s: string, k: nat, negative: bool)
    requires k <= |s|
    ensures (ScanDigits(s, k, negative).Some? && ScanDigits(s, k, negative).value.end == |s|) <==> (k < |s| && AllDigits(s[k..]))
    ensures k < |s| && AllDigits(s[k..]) ==>
      var m: int := DigitsValue(s[k..]);
      ScanDigits(s, k, negative) == Some(Scan(if negative then -m else m, |s|))
  {
    DigitsEndAll(s, k);
    assert s[k..|s|] == s[k..];
  }

  /** A conversion from the start of `s` consumes all of it exactly when
      what follows the leading white space is a numeral, and then it yields
      the numeral's value. */
  lemma ScanIntWhole(s: string)
    ensures var j := SkipSpaces(s, 0);
      (ScanInt(s, 0).Some? && ScanInt(s, 0).value.end == |s|) <==> Numeral(s[j..])
    ensures var j := SkipSpaces(s, 0);
      Numeral(s[j..]) ==> ScanInt(s, 0).Some? && ScanInt(s, 0).value.value == NumeralValue(s[j..])
  {
    var j := SkipSpaces(s, 0);
    if j < |s| && (s[j] == '-' || s[j] == '+') {
      ScanDigitsWhole(s, j + 1, s[j] == '-');
      assert s[j..][0] == s[j] && s[j..][1..] == s[j + 1..];
    } else {
      ScanDigitsWhole(s, j, false);
      assert j < |s| ==> s[j..][0] == s[j];
    }
  }

  /** Every conversion: the text it reads, from the end of the white space
      to where it stops, is a numeral, and the value is that numeral's. */
  lemma ScanIntAll(s: string, i: nat)
    requires i <= |s|
    ensures ScanInt(s, i).Some? ==>
      var j := SkipSpaces(s, i);
      var e := ScanInt(s, i).value.end;
      j < e && Numeral(s[j..e]) && ScanInt(s, i).value.value == NumeralValue(s[j..e])
  {
    var j := SkipSpaces(s, i);
    if ScanInt(s, i).Some? {
      var e := ScanInt(s, i).value.end;
      var k := if s[j] == '-' || s[j] == '+' then j + 1 else j;
      assert s[j..e][0] == s[j];
      assert s[j..e][k - j..] == s[k..e];
      forall t | 0 <= t < e - k
        ensures IsDigit(s[k..e][t])
      {
        assert s[k..e][t] == s[k + t];
      }
    }
  }

  /** The digits from `k` on denote a number below 10 to the power of the
      number of characters there. */
  lemma ScanDigitsMagnitude(s: string, k: nat, negative: bool)
    requires k <= |s|
    ensures ScanDigits(s, k, negative).Some? ==>
      var v := ScanDigits(s, k, negative).value.value;
      0 <= (if negative then -v else v) < Pow10(|s| - k)
  {
    var e := DigitsEnd(s, k);
    if e > k {
      DigitsValueBound(s[k..e]);
      Pow10Monotone(e - k, |s| - k);
    }
  }

  /** A conversion over the characters from `i` on reads fewer digits than
      there are characters, and a negative value needs one of them for its
      sign. */
  lemma ScanIntMagnitude(s: string, i: nat)
    requires i < |s|
    ensures ScanInt(s, i).Some? ==> -(Pow10(|s| - i - 1) as int) < ScanInt(s, i).value.value < Pow10(|s| - i)
  {
    var j := SkipSpaces(s, i);
    if j < |s| && (s[j] == '-' || s[j] == '+') {
      ScanDigitsMagnitude(s, j + 1, s[j] == '-');
      Pow10Monotone(|s| - j - 1, |s| - i - 1);
      Pow10Monotone(|s| - i - 1, |s| - i);
    } else {
      ScanDigitsMagnitude(s, j, false);
      Pow10Monotone(|s| - j, |s| - i);
    }
  }

  /** Decimal rendering of a natural number, without leading zeros. */
  function ShowNat(n: nat): (s: string)
    ensures 0 < |s| && AllDigits(s)
    decreases n
  {
    if n < 10 then [DigitChar(n)] else ShowNat(n / 10) + [DigitChar(n % 10)]
  }

  /** Decimal rendering of an integer, as `printf("%d")` writes it. */
  function Show(n: int): (s: string)
    ensures 0 < |s|
    ensures forall i :: 0 <= i < |s| ==> IsDigit(s[i]) || (i == 0 && s[i] == '-')
  {
    if n < 0 then "-" + ShowNat(-n) else ShowNat(n)
  }

  lemma {:induction false} ShowNatValue(n: nat)
    ensures DigitsValue(ShowNat(n)) == n
    decreases n
  {
    if n >= 10 {
      var s := ShowNat(n);
      assert s[..|s| - 1] == ShowNat(n / 10);
      ShowNatValue(n / 10);
    }
  }

  lemma {:induction false} Pow10Monotone(a: nat, b: nat)
    requires a <= b
    ensures Pow10(a) <= Pow10(b)
    decreases b
  {
    if a < b {
      Pow10Monotone(a, b - 1);
    }
  }

  /** `SkipSpaces` is pinned down by its contract. */
  lemma SkipSpacesUnique(s: string, i: nat, j: nat)
    requires i <= j <= |s|
    requires forall k :: i <= k < j ==> IsSpace(s[k])
    requires j == |s| || !IsSpace(s[j])
    ensures SkipSpaces(s, i) == j
  {
  }

  /** `DigitsEnd` is pinned down by its contract. */
  lemma DigitsEndUnique(s: string, i: nat, j: nat)
    requires i <= j <= |s|
    requires forall k :: i <= k < j ==> IsDigit(s[k])
    requires j == |s| || !IsDigit(s[j])
    ensures DigitsEnd(s, i) == j
  {
  }

  /** The digits of a rendering found at `j` read back as its magnitude. */
  lemma ShowDigitsAt(s: string, j: nat, n: int)
    requires j + |Show(n)| <= |s|
    requires s[j..j + |Show(n)|] == Show(n)
    requires j + |Show(n)| == |s| || !IsDigit(s[j + |Show(n)|])
    ensures !IsSpace(s[j]) && s[j] != '+' && (s[j] == '-' <==> n < 0)
    ensures ScanDigits(s, if n < 0 then j + 1 else j, n < 0) == Some(Scan(n, j + |Show(n)|))
  {
    var e := j + |Show(n)|;
    var digits := ShowNat(if n < 0 then -n else n);
    var k := if n < 0 then j + 1 else j;
    assert s[j] == s[j..e][0];
    assert s[k..e] == digits by {
      if n < 0 {
        assert s[k..e] == s[j..e][1..];
      }
    }
    forall t | k <= t < e
      ensures IsDigit(s[t])
    {
      assert s[t] == digits[t - k];
    }
    DigitsEndUnique(s, k, e);
    ShowNatValue(if n < 0 then -n else n);
  }

  /** Reading back a rendered integer: a conversion that starts at `i`,
      where white space runs up to `j`, `Show(n)` sits at `j`, and no digit
      follows it, yields `n` and stops right after the rendering. */
  lemma ScanShow(s: string, i: nat, j: nat, n: int)
    requires i <= j && j + |Show(n)| <= |s|
    requires forall t :: i <= t < j ==> IsSpace(s[t])
    requires s[j..j + |Show(n)|] == Show(n)
    requires j + |Show(n)| == |s| || !IsDigit(s[j + |Show(n)|])
    ensures ScanInt(s, i) == Some(Scan(n, j + |Show(n)|))
  {
    ShowDigitsAt(s, j, n);
    SkipSpacesUnique(s, i, j);
  }
}
