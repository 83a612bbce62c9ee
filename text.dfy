/** The few pieces of the Kotlin/JVM standard library that the services rely
    on, written out: the 32-bit `Int` range, `Int.toString()`,
    `String.toInt()` (which is `Integer.parseInt(s, 10)`), `Char.isWhitespace()`,
    `String.trim()` and `String.replace(Char, Char)`. */
module Text {
  import opened Wrappers

  const MinInt: int := -0x8000_0000
  const MaxInt: int := 0x7fff_ffff

  /** Kotlin's `Int`. */
  type Int32 = x: int | MinInt <= x <= MaxInt

  // ---------------------------------------------------------------- digits

  predicate IsDigit(c: char) {
    '0' <= c <= '9'
  }

  function DigitValue(c: char): (d: nat)
    requires IsDigit(c)
    ensures d < 10
  {
    (c as int) - ('0' as int)
  }

  function DigitChar(d: nat): (c: char)
    requires d < 10
    ensures IsDigit(c) && DigitValue(c) == d
  {
    (('0' as int) + d) as char
  }

  predicate AllDigits(s: string) {
    forall k :: 0 <= k < |s| ==> IsDigit(s[k])
  }

  /** The number a string of decimal digits denotes (leading zeros allowed). */
  function DigitsValue(s: string): nat
    requires AllDigits(s)
    decreases |s|
  {
    if s == [] then 0 else DigitsValue(s[..|s| - 1]) * 10 + DigitValue(s[|s| - 1])
  }

  /** Canonical decimal rendering of a natural number: digits only, never
      empty, and no leading zero unless the number is zero. */
  function NatToString(n: nat): (r: string)
    ensures |r| > 0 && AllDigits(r)
    ensures r[0] == '0' ==> n == 0
    ensures n == 0 ==> r == "0"
    decreases n
  {
    if n < 10 then [DigitChar(n)] else NatToString(n / 10) + [DigitChar(n % 10)]
  }

  /** `Int.toString()`: a minus sign exactly for negative numbers, then the
      canonical digits of the magnitude (no leading zero unless it is 0). */
  function IntToString(n: int): (r: string)
    ensures |r| > 0
    ensures (r[0] == '-') <==> n < 0
    ensures n < 0 ==> |r| > 1 && AllDigits(r[1..]) && DigitsValue(r[1..]) == -n && r[1] != '0'
    ensures n >= 0 ==> AllDigits(r) && DigitsValue(r) == n && (r[0] == '0' ==> n == 0)
    ensures n == 0 ==> r == "0"
  {
    var magnitude: nat := if n < 0 then -n else n;
    DigitsValueOfNatToString(magnitude);
    if n < 0 then
      var r := "-" + NatToString(magnitude);
      assert r[1..] == NatToString(magnitude);
      r
    else NatToString(magnitude)
  }

  /** The rendering holds only signs and digits, and it ends in a digit. */
  lemma IntToStringChars(n: int)
    ensures var r := IntToString(n);
      (forall k :: 0 <= k < |r| ==> r[k] == '-' || IsDigit(r[k])) && IsDigit(r[|r| - 1])
  {
    var r := IntToString(n);
    if n < 0 {
      forall k | 0 < k < |r| ensures IsDigit(r[k]) {
        assert r[1..][k - 1] == r[k];
      }
      assert r[1..][|r| - 2] == r[|r| - 1];
    }
  }

  lemma {:induction false} DigitsValueOfNatToString(n: nat)
    ensures DigitsValue(NatToString(n)) == n
    decreases n
  {
    if n >= 10 {
      var prefix := NatToString(n / 10);
      var s := prefix + [DigitChar(n % 10)];
      assert s[..|s| - 1] == prefix;
      DigitsValueOfNatToString(n / 10);
    }
  }

  // ---------------------------------------------------------------- String.toInt()

  /** What follows an optional leading sign. */
  function Unsigned(s: string): (d: string)
    ensures |d| <= |s| && d == s[|s| - |d|..]
  {
    if |s| > 0 && (s[0] == '-' || s[0] == '+') then s[1..] else s
  }

  /** The value of the digits after the sign, negated after a `-`. */
  function SignedValue(s: string): int
    requires AllDigits(Unsigned(s))
  {
    if |s| > 0 && s[0] == '-' then -(DigitsValue(Unsigned(s)) as int) else DigitsValue(Unsigned(s))
  }

  /** `String.toInt()` (`Integer.parseInt(s, 10)`): an optional leading `-`
      or `+`, then at least one digit, and the value must fit in an `Int`;
      anything else throws `NumberFormatException`, modelled as `None`. */
  function ParseInt(s: string): (r: Option<Int32>)
    ensures r.Some? <==> |s| > 0 && |Unsigned(s)| > 0 && AllDigits(Unsigned(s)) && MinInt <= SignedValue(s) <= MaxInt
    ensures r.Some? ==> r.value == SignedValue(s)
  {
    if |s| == 0 then None
    else
      var digits := Unsigned(s);
      if |digits| == 0 || !AllDigits(digits) then None
      else
        var magnitude: int := DigitsValue(digits);
        var v := if s[0] == '-' then -magnitude else magnitude;
        if MinInt <= v <= MaxInt then Some(v) else None
  }

  /** A character after the sign that is not an ASCII digit makes the parse
      fail. */
  lemma ParseIntRejects(s: string, k: nat)
    requires k < |Unsigned(s)| && !IsDigit(Unsigned(s)[k])
    ensures ParseInt(s) == None
  {
  }

  /** Leading zeros are accepted. */
  lemma ParseIntLeadingZeros()
    ensures ParseInt("0080") == Some(80)
  {
    assert "00"[..1] == "0";
    assert "008"[..2] == "00";
    assert "0080"[..3] == "008";
    assert DigitsValue("0080") == 80;
  }

  /** An explicit sign is accepted, and `-` negates the value. */
  lemma ParseIntSigns()
    ensures ParseInt("+80") == Some(80)
    ensures ParseInt("-80") == Some(-80)
  {
    assert "80"[..1] == "8";
    assert DigitsValue("80") == 80;
    assert Unsigned("+80") == "80";
    assert Unsigned("-80") == "80";
  }

  /** Parsing the rendering of an `Int` gives the `Int` back. */
  lemma ParseIntToString(n: Int32)
    ensures ParseInt(IntToString(n)) == Some(n)
  {
    var s := IntToString(n);
    if n < 0 {
      var m: nat := -(n as int);
      var digits := NatToString(m);
      assert s == "-" + digits && s[1..] == digits && Unsigned(s) == digits;
      DigitsValueOfNatToString(m);
      assert DigitsValue(s[1..]) == m;
    } else {
      DigitsValueOfNatToString(n);
      assert s[0] != '-' && s[0] != '+';
      assert Unsigned(s) == s;
      assert DigitsValue(s) == n;
    }
  }

  // ---------------------------------------------------------------- whitespace and trim

  /** Kotlin/JVM `Char.isWhitespace()`: `Character.isWhitespace(c) ||
      Character.isSpaceChar(c)`, i.e. the ASCII controls TAB..CR and FS..US,
      and every Unicode space, line or paragraph separator, with the Unicode
      tables of JDK 9 and later (JDK 8 also counts U+180E). */
  predicate IsWhitespace(c: char) {
    var n := c as int;
    (9 <= n <= 13) || (28 <= n <= 32) || n == 0xA0 || n == 0x1680
    || (0x2000 <= n <= 0x200A) || n == 0x2028 || n == 0x2029 || n == 0x202F
    || n == 0x205F || n == 0x3000
  }

  predicate AllWhitespace(s: string) {
    forall k :: 0 <= k < |s| ==> IsWhitespace(s[k])
  }

  /** Removes leading whitespace: the result is a suffix of `s`, everything
      cut off is whitespace, and the result does not start with whitespace. */
  function TrimStart(s: string): (r: string)
    ensures |r| <= |s| && r == s[|s| - |r|..]
    ensures AllWhitespace(s[..|s| - |r|])
    ensures r == [] || !IsWhitespace(r[0])
    decreases |s|
  {
    if s != [] && IsWhitespace(s[0]) then
      var r := TrimStart(s[1..]);
      assert s[..|s| - |r|] == [s[0]] + s[1..][..|s[1..]| - |r|];
      r
    else s
  }

  /** Removes trailing whitespace: the result is a prefix of `s`, everything
      cut off is whitespace, and the result does not end with whitespace. */
  function TrimEnd(s: string): (r: string)
    ensures |r| <= |s| && r == s[..|r|]
    ensures AllWhitespace(s[|r|..])
    ensures r == [] || !IsWhitespace(r[|r| - 1])
    decreases |s|
  {
    if s != [] && IsWhitespace(s[|s| - 1]) then
      var r := TrimEnd(s[..|s| - 1]);
      assert s[|r|..] == s[..|s| - 1][|r|..] + [s[|s| - 1]];
      r
    else s
  }

  /** Neither the first nor the last character is whitespace. */
  predicate NoOuterWhitespace(r: string) {
    r == [] || (!IsWhitespace(r[0]) && !IsWhitespace(r[|r| - 1]))
  }

  /** `r` is `s[i..j]`, and only whitespace lies before and after it. */
  predicate WhitespaceAround(s: string, i: int, j: int, r: string) {
    0 <= i <= j <= |s| && r == s[i..j] && AllWhitespace(s[..i]) && AllWhitespace(s[j..])
  }

  /** `String.trim()`: a slice of `s` with only whitespace before and after
      it, that neither starts nor ends with whitespace. */
  function Trim(s: string): (r: string)
    ensures exists i, j :: WhitespaceAround(s, i, j, r)
    ensures NoOuterWhitespace(r)
  {
    TrimIsSlice(s);
    TrimEnd(TrimStart(s))
  }

  lemma TrimIsSlice(s: string)
    ensures exists i, j :: WhitespaceAround(s, i, j, TrimEnd(TrimStart(s)))
    ensures NoOuterWhitespace(TrimEnd(TrimStart(s)))
  {
    var t := TrimStart(s);
    PrefixOfSuffixIsSlice(s, t, TrimEnd(t));
  }

  /** Cutting whitespace off the front and then off the back leaves a slice
      with whitespace on both sides. */
  lemma PrefixOfSuffixIsSlice(s: string, t: string, r: string)
    requires |t| <= |s| && t == s[|s| - |t|..] && AllWhitespace(s[..|s| - |t|])
    requires |r| <= |t| && r == t[..|r|] && AllWhitespace(t[|r|..])
    ensures exists i, j :: WhitespaceAround(s, i, j, r)
  {
    var i := |s| - |t|;
    SliceOfSuffix(s, i, |r|);
    assert WhitespaceAround(s, i, i + |r|, r);
  }

  /** A prefix of a suffix is a slice, and what follows it is a suffix. */
  lemma SliceOfSuffix(s: string, i: nat, n: nat)
    requires i + n <= |s|
    ensures s[i..][..n] == s[i..i + n]
    ensures s[i..][n..] == s[i + n..]
  {
  }

  /** A blank string trims to the empty string. */
  lemma TrimBlank(s: string)
    requires AllWhitespace(s)
    ensures Trim(s) == []
  {
  }

  lemma {:induction false} TrimStartPadded(pre: string, core: string)
    requires AllWhitespace(pre)
    requires core == [] || !IsWhitespace(core[0])
    ensures TrimStart(pre + core) == core
    decreases |pre|
  {
    if pre != [] {
      assert (pre + core)[1..] == pre[1..] + core;
      TrimStartPadded(pre[1..], core);
    } else {
      assert pre + core == core;
    }
  }

  lemma {:induction false} TrimEndPadded(core: string, post: string)
    requires AllWhitespace(post)
    requires core == [] || !IsWhitespace(core[|core| - 1])
    ensures TrimEnd(core + post) == core
    decreases |post|
  {
    if post != [] {
      var s := core + post;
      assert s[..|s| - 1] == core + post[..|post| - 1];
      TrimEndPadded(core, post[..|post| - 1]);
    } else {
      assert core + post == core;
    }
  }

  /** Trimming a string that is whitespace, then a word that neither starts
      nor ends with whitespace, then whitespace, gives the word. */
  lemma TrimPadded(pre: string, core: string, post: string)
    requires AllWhitespace(pre) && AllWhitespace(post)
    requires |core| > 0 && !IsWhitespace(core[0]) && !IsWhitespace(core[|core| - 1])
    ensures Trim(pre + core + post) == core
  {
    assert pre + core + post == pre + (core + post);
    TrimStartPadded(pre, core + post);
    TrimEndPadded(core, post);
  }

  // ---------------------------------------------------------------- replace

  /** `String.replace(old, new)` on characters: every `from` becomes `to`,
      every other character is kept, the length does not change. */
  function Replace(s: string, from: char, to: char): (r: string)
    ensures |r| == |s|
    ensures forall k :: 0 <= k < |s| ==> r[k] == (if s[k] == from then to else s[k])
    decreases |s|
  {
    if s == [] then [] else [if s[0] == from then to else s[0]] + Replace(s[1..], from, to)
  }

  lemma ReplaceConcat(a: string, b: string, from: char, to: char)
    ensures Replace(a + b, from, to) == Replace(a, from, to) + Replace(b, from, to)
  {
    var l, r := Replace(a + b, from, to), Replace(a, from, to) + Replace(b, from, to);
    assert |l| == |r|;
    forall k | 0 <= k < |l| ensures l[k] == r[k] {
      if k < |a| { assert (a + b)[k] == a[k]; } else { assert (a + b)[k] == b[k - |a|]; }
    }
  }
}
