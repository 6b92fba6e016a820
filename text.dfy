/** The few Python string operations the scraper relies on: `str.strip()`,
    `str.split(sep)` with a one-character separator, `int(s)` and `str(n)`. */
module Text {
  import opened Wrappers

  /** Python's `str.isspace` on one character: exactly the characters that
      `str.strip()` with no argument removes. */
  predicate IsSpace(c: char) {
    var n := c as int;
    (9 <= n <= 13) || (0x1c <= n <= 0x20) || n == 0x85 || n == 0xa0 || n == 0x1680
    || (0x2000 <= n <= 0x200a) || n == 0x2028 || n == 0x2029 || n == 0x202f
    || n == 0x205f || n == 0x3000
  }

  /** Every character of `s` before index `i` is whitespace. */
  predicate SpaceBefore(s: string, i: int) {
    forall k :: 0 <= k < i && k < |s| ==> IsSpace(s[k])
  }

  /** Every character of `s` from index `j` on is whitespace. */
  predicate SpaceFrom(s: string, j: int) {
    forall k :: 0 <= j <= k < |s| ==> IsSpace(s[k])
  }

  /** Neither end of `s` is whitespace. */
  predicate Trimmed(s: string) {
    s == [] || (!IsSpace(s[0]) && !IsSpace(s[|s| - 1]))
  }

  /** `s` with its leading whitespace removed (Python's `str.lstrip()`). */
  function TrimLeft(s: string): string {
    if s != [] && IsSpace(s[0]) then TrimLeft(s[1..]) else s
  }

  /** TrimLeft removes a whitespace prefix and stops at the first other
      character. */
  lemma {:induction false} TrimLeftSpec(s: string)
    ensures var r := TrimLeft(s);
      |r| <= |s| && r == s[|s| - |r|..] && SpaceBefore(s, |s| - |r|) && (r == [] || !IsSpace(r[0]))
  {
    if s != [] && IsSpace(s[0]) {
      TrimLeftSpec(s[1..]);
    }
  }

  /** `s` with its trailing whitespace removed (Python's `str.rstrip()`). */
  function TrimRight(s: string): string {
    if s != [] && IsSpace(s[|s| - 1]) then TrimRight(s[..|s| - 1]) else s
  }

  /** TrimRight removes a whitespace suffix and stops at the last other
      character. */
  lemma {:induction false} TrimRightSpec(s: string)
    ensures var r := TrimRight(s);
      |r| <= |s| && r == s[..|r|] && SpaceFrom(s, |r|) && (r == [] || !IsSpace(r[|r| - 1]))
  {
    if s != [] && IsSpace(s[|s| - 1]) {
      TrimRightSpec(s[..|s| - 1]);
    }
  }

  /** Python's `str.strip()`: no whitespace is left at either end. */
  function Strip(s: string): (r: string)
    ensures Trimmed(r)
  {
    TrimLeftSpec(s);
    TrimRightSpec(TrimLeft(s));
    TrimRight(TrimLeft(s))
  }

  /** Strip returns the slice of `s` left after removing whitespace from both
      ends; `StripOffset(s)` is where that slice starts. */
  function StripOffset(s: string): nat {
    TrimLeftSpec(s);
    |s| - |TrimLeft(s)|
  }

  lemma StripSpec(s: string)
    ensures var i, r := StripOffset(s), Strip(s);
      i + |r| <= |s| && r == s[i..i + |r|] && SpaceBefore(s, i) && SpaceFrom(s, i + |r|)
  {
    TrimLeftSpec(s);
    var l := TrimLeft(s);
    TrimRightSpec(l);
    var r := TrimRight(l);
    var i := |s| - |l|;
    assert r == s[i..i + |r|];
    assert forall k :: i + |r| <= k < |s| ==> s[k] == l[k - i];
  }

  /** Strip is determined by its contract: any slice of `s` whose surroundings
      are whitespace and whose ends are not is `Strip(s)`. */
  lemma StripUnique(s: string, i: nat, j: nat)
    requires i <= j <= |s|
    requires SpaceBefore(s, i) && SpaceFrom(s, j) && Trimmed(s[i..j])
    ensures Strip(s) == s[i..j]
  {
    var l := TrimLeft(s);
    TrimLeftSpec(s);
    TrimRightSpec(l);
    if i < j {
      assert !IsSpace(s[i]) by { assert s[i..j][0] == s[i]; }
      assert |s| - |l| == i;
      var r := TrimRight(l);
      assert !IsSpace(s[j - 1]) by { assert s[i..j][j - i - 1] == s[j - 1]; }
      assert |r| == j - i;
    } else {
      assert l == [];
    }
  }

  /** Stripping twice is stripping once. */
  lemma StripIdempotent(s: string)
    ensures Strip(Strip(s)) == Strip(s)
  {
    var r := Strip(s);
    StripUnique(r, 0, |r|);
    assert r[0..|r|] == r;
  }

  /** A string without whitespace at its ends is left unchanged. */
  lemma StripTrimmed(s: string)
    requires Trimmed(s)
    ensures Strip(s) == s
  {
    StripUnique(s, 0, |s|);
    assert s[0..|s|] == s;
  }

  /** Whitespace after index `m` does not change the stripped string. */
  lemma StripTrailing(s: string, m: nat)
    requires m <= |s| && SpaceFrom(s, m)
    ensures Strip(s[..m]) == Strip(s)
  {
    var t := s[..m];
    var r := Strip(t);
    StripSpec(t);
    var p := StripOffset(t);
    var q := p + |r|;
    assert r == s[p..q];
    assert SpaceFrom(s, q) by {
      forall k | q <= k < |s| ensures IsSpace(s[k]) {
        if k < m { assert s[k] == t[k]; }
      }
    }
    assert SpaceBefore(s, p) by {
      forall k | 0 <= k < p ensures IsSpace(s[k]) { assert s[k] == t[k]; }
    }
    StripUnique(s, p, q);
  }

  /** Stripping keeps every non-whitespace character. */
  lemma StripKeepsChar(s: string, c: char)
    requires !IsSpace(c)
    ensures c in Strip(s) <==> c in s
  {
    var r := Strip(s);
    StripSpec(s);
    var i := StripOffset(s);
    if c in s {
      var k :| 0 <= k < |s| && s[k] == c;
      assert i <= k < i + |r|;
      assert r[k - i] == c;
    }
  }

  /** Number of occurrences of `c` in `s`. */
  function Count(s: string, c: char): nat {
    if s == [] then 0 else (if s[0] == c then 1 else 0) + Count(s[1..], c)
  }

  lemma {:induction false} CountIn(s: string, c: char)
    ensures Count(s, c) > 0 <==> c in s
  {
    if s != [] {
      CountIn(s[1..], c);
      assert s == [s[0]] + s[1..];
    }
  }

  /** Python's `sep.join(parts)`. */
  function Join(parts: seq<string>, sep: char): string
    requires |parts| >= 1
  {
    if |parts| == 1 then parts[0] else parts[0] + [sep] + Join(parts[1..], sep)
  }

  /** Python's `s.split(sep)`. */
  function Split(s: string, sep: char): (parts: seq<string>)
    ensures |parts| >= 1
  {
    if s == [] then [[]]
    else
      var rest := Split(s[1..], sep);
      if s[0] == sep then [[]] + rest
      else [[s[0]] + rest[0]] + rest[1..]
  }

  /** One part more than there are separators, no part containing the
      separator, and the parts joined back give `s`. */
  lemma {:induction false} SplitSpec(s: string, sep: char)
    ensures |Split(s, sep)| == Count(s, sep) + 1
    ensures forall k :: 0 <= k < |Split(s, sep)| ==> sep !in Split(s, sep)[k]
    ensures Join(Split(s, sep), sep) == s
  {
    if s != [] {
      SplitSpec(s[1..], sep);
      var rest := Split(s[1..], sep);
      if s[0] == sep {
        assert ([[]] + rest)[1..] == rest;
      } else {
        var parts := [[s[0]] + rest[0]] + rest[1..];
        assert parts[1..] == rest[1..];
        assert |rest| > 1 ==> Join(rest, sep) == rest[0] + [sep] + Join(rest[1..], sep);
        assert sep !in rest[0];
        assert forall k :: 1 <= k < |parts| ==> parts[k] == rest[k];
      }
    }
  }

  /** A string without the separator is one part. */
  lemma {:induction false} SplitNoSep(a: string, sep: char)
    requires sep !in a
    ensures Split(a, sep) == [a]
  {
    if a != [] {
      SplitNoSep(a[1..], sep);
      assert [a[0]] + a[1..] == a;
    }
  }

  /** The part before the first separator is split off whole. */
  lemma {:induction false} SplitFirst(a: string, sep: char, z: string)
    requires sep !in a
    ensures Split(a + [sep] + z, sep) == [a] + Split(z, sep)
  {
    if a == [] {
      assert [] + [sep] + z == [sep] + z;
      assert ([sep] + z)[1..] == z;
    } else {
      SplitFirst(a[1..], sep, z);
      var s := a + [sep] + z;
      assert s[0] == a[0] && s[1..] == a[1..] + [sep] + z;
      var rest := Split(s[1..], sep);
      assert rest == [a[1..]] + Split(z, sep);
      assert Split(s, sep) == [[a[0]] + rest[0]] + rest[1..];
      assert [a[0]] + a[1..] == a;
    }
  }

  /** Splitting undoes joining parts that do not contain the separator. */
  lemma {:induction false} SplitJoin(parts: seq<string>, sep: char)
    requires |parts| >= 1
    requires forall k :: 0 <= k < |parts| ==> sep !in parts[k]
    ensures Split(Join(parts, sep), sep) == parts
  {
    if |parts| == 1 {
      SplitNoSep(parts[0], sep);
    } else {
      SplitJoin(parts[1..], sep);
      SplitFirst(parts[0], sep, Join(parts[1..], sep));
      assert [parts[0]] + parts[1..] == parts;
    }
  }

  predicate IsDigit(c: char) {
    '0' <= c <= '9'
  }

  predicate AllDigits(d: string) {
    forall i :: 0 <= i < |d| ==> IsDigit(d[i])
  }

  /** The value of a string of decimal digits, most significant first. */
  function DigitsValue(d: string): nat
    requires AllDigits(d)
  {
    if d == [] then 0 else 10 * DigitsValue(d[..|d| - 1]) + ((d[|d| - 1] as int) - ('0' as int))
  }

  /** Python's `int(s)` on a decimal literal: surrounding whitespace is
      ignored, one optional sign, then at least one digit. */
  function ParseInt(s: string): Option<int> {
    var t := Strip(s);
    if t != [] && (t[0] == '-' || t[0] == '+') then
      var d := t[1..];
      if d != [] && AllDigits(d) then
        var v: int := DigitsValue(d);
        Some(if t[0] == '-' then -v else v)
      else
        None
    else if t != [] && AllDigits(t) then
      Some(DigitsValue(t))
    else
      None
  }

  /** Python's `str(n)` for a natural number: its decimal digits, without
      leading zeros. */
  function FormatNat(n: nat): (r: string)
    ensures r != [] && AllDigits(r) && DigitsValue(r) == n
    ensures r[0] == '0' ==> n == 0
  {
    var last := ((n % 10) + ('0' as int)) as char;
    if n < 10 then
      [last]
    else
      var p := FormatNat(n / 10);
      assert (p + [last])[..|p|] == p;
      p + [last]
  }

  /** Python's `str(i)` for an integer. */
  function FormatInt(i: int): string {
    if i < 0 then "-" + FormatNat(-i) else FormatNat(i)
  }

  /** `int(str(i)) == i`. */
  lemma ParseIntFormat(i: int)
    ensures ParseInt(FormatInt(i)) == Some(i)
  {
    var f := FormatInt(i);
    assert !IsSpace(f[0]) && !IsSpace(f[|f| - 1]);
    StripTrimmed(f);
    if i < 0 {
      assert f[1..] == FormatNat(-i);
    }
  }
}
