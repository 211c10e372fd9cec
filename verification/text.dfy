/** The string operations the ledger and the reports rely on: JavaScript's
    `String.prototype.trim`, the first piece of `split(sep)`, and the decimal
    rendering of integers by `toString` and `padStart(w, '0')`. */
module Text {

  /** The WhiteSpace and LineTerminator code points of ECMA-262 (sections
      12.2 and 12.3), which `trim` strips: tab, line tabulation, form feed,
      the byte order mark, the Unicode space separators, and the four line
      terminators. */
  predicate IsJsSpace(c: char) {
    || c == '\t' || c == '\n' || c == '\U{000B}' || c == '\U{000C}' || c == '\r'
    || c == ' ' || c == '\U{00A0}' || c == '\U{1680}'
    || ('\U{2000}' <= c <= '\U{200A}')
    || c == '\U{2028}' || c == '\U{2029}' || c == '\U{202F}' || c == '\U{205F}'
    || c == '\U{3000}' || c == '\U{FEFF}'
  }

  /** `String.prototype.trim`: white space is removed from the front, then
      from the back, until neither end is white space. */
  function Trim(s: string): (r: string)
    ensures |r| <= |s|
    ensures r == [] || (!IsJsSpace(r[0]) && !IsJsSpace(r[|r| - 1]))
    decreases |s|
  {
    if s != [] && IsJsSpace(s[0]) then Trim(s[1..])
    else if s != [] && IsJsSpace(s[|s| - 1]) then Trim(s[..|s| - 1])
    else s
  }

  /** Where the part `trim` keeps starts in `s`. */
  function TrimFrom(s: string): nat
    decreases |s|
  {
    if s != [] && IsJsSpace(s[0]) then 1 + TrimFrom(s[1..])
    else if s != [] && IsJsSpace(s[|s| - 1]) then TrimFrom(s[..|s| - 1])
    else 0
  }

  /** `r` sits at `i` in `s`, and everything around it is white space. */
  predicate KeptBetweenSpace(s: string, i: nat, r: string) {
    && i + |r| <= |s| && r == s[i..i + |r|]
    && (forall k :: 0 <= k < i ==> IsJsSpace(s[k]))
    && (forall k :: i + |r| <= k < |s| ==> IsJsSpace(s[k]))
  }

  /** `trim` keeps a contiguous part of `s`, and everything it removes before
      and after that part is white space. */
  lemma {:induction false} TrimDropsSpace(s: string)
    ensures KeptBetweenSpace(s, TrimFrom(s), Trim(s))
    decreases |s|
  {
    if s != [] && IsJsSpace(s[0]) {
      TrimDropsSpace(s[1..]);
      SpaceBefore(s, TrimFrom(s[1..]), Trim(s));
    } else if s != [] && IsJsSpace(s[|s| - 1]) {
      var u := s[..|s| - 1];
      TrimDropsSpace(u);
      assert u[0] == s[0];
      SpaceAfter(s, Trim(s));
    } else {
      assert Trim(s) == s[0..|s|];
    }
  }

  lemma SpaceBefore(s: string, i: nat, r: string)
    requires s != [] && IsJsSpace(s[0]) && KeptBetweenSpace(s[1..], i, r)
    ensures KeptBetweenSpace(s, i + 1, r)
  {
    var u := s[1..];
    assert r == s[i + 1..i + 1 + |r|];
    forall k | 0 <= k < i + 1 ensures IsJsSpace(s[k]) {
      if k > 0 { assert s[k] == u[k - 1]; }
    }
    forall k | i + 1 + |r| <= k < |s| ensures IsJsSpace(s[k]) {
      assert s[k] == u[k - 1];
    }
  }

  lemma SpaceAfter(s: string, r: string)
    requires s != [] && IsJsSpace(s[|s| - 1]) && KeptBetweenSpace(s[..|s| - 1], 0, r)
    ensures KeptBetweenSpace(s, 0, r)
  {
    var u := s[..|s| - 1];
    assert r == s[0..|r|];
    forall k | |r| <= k < |s| ensures IsJsSpace(s[k]) {
      if k < |s| - 1 { assert s[k] == u[k]; }
    }
  }

  /** `trim` gives the empty string exactly when `s` is all white space. */
  lemma TrimEmptyIff(s: string)
    ensures Trim(s) == [] <==> forall k :: 0 <= k < |s| ==> IsJsSpace(s[k])
  {
    TrimDropsSpace(s);
    if Trim(s) != [] {
      assert !IsJsSpace(s[TrimFrom(s)]);
    }
  }

  /** A string that neither starts nor ends with white space is its own
      trim. */
  lemma TrimKeeps(s: string)
    requires s == [] || (!IsJsSpace(s[0]) && !IsJsSpace(s[|s| - 1]))
    ensures Trim(s) == s
  {
  }

  /** `s.split(sep)[0]`: the text before the first `sep`, or all of `s` when
      it holds none. */
  function BeforeFirst(s: string, sep: char): (r: string)
    ensures |r| <= |s| && r == s[..|r|]
    ensures sep !in r
    ensures |r| < |s| ==> s[|r|] == sep
  {
    if s == [] || s[0] == sep then [] else [s[0]] + BeforeFirst(s[1..], sep)
  }

  /** Whatever follows the first separator does not matter: the piece before
      it is recovered exactly. */
  lemma {:induction false} BeforeFirstOfJoin(a: string, sep: char, b: string)
    requires sep !in a
    ensures BeforeFirst(a + [sep] + b, sep) == a
  {
    var s := a + [sep] + b;
    if a != [] {
      assert s[0] == a[0] && s[1..] == a[1..] + [sep] + b;
      BeforeFirstOfJoin(a[1..], sep, b);
      assert a == [a[0]] + a[1..];
    }
  }

  /** The same, when the separator opens a longer joining text. */
  lemma BeforeFirstOfJoinWith(a: string, sep: char, mid: string, b: string)
    requires sep !in a && mid != [] && mid[0] == sep
    ensures BeforeFirst(a + mid + b, sep) == a
  {
    assert a + mid + b == a + [sep] + (mid[1..] + b);
    BeforeFirstOfJoin(a, sep, mid[1..] + b);
  }

  /** Two joins of equal strings split at the same place have equal parts. */
  lemma EqualParts(a1: string, b1: string, a2: string, b2: string)
    requires a1 + b1 == a2 + b2
    requires |a1| == |a2| || |b1| == |b2|
    ensures a1 == a2 && b1 == b2
  {
    assert |a1| == |a2|;
    assert a1 == (a1 + b1)[..|a1|] && a2 == (a2 + b2)[..|a2|];
    assert b1 == (a1 + b1)[|a1|..] && b2 == (a2 + b2)[|a2|..];
  }

  predicate IsDigit(c: char) {
    '0' <= c <= '9'
  }

  predicate AllDigits(s: string) {
    forall k :: 0 <= k < |s| ==> IsDigit(s[k])
  }

  /** A string of digits holds no other character. */
  lemma DigitsExclude(s: string, c: char)
    requires AllDigits(s) && !IsDigit(c)
    ensures c !in s
  {
  }

  function DigitChar(d: nat): (c: char)
    requires d < 10
    ensures IsDigit(c) && c as int - '0' as int == d
  {
    (('0' as int) + d) as char
  }

  /** `Number.prototype.toString()` for a non-negative integer: its shortest
      decimal form, with no leading zero. */
  function NatToString(n: nat): (r: string)
    ensures |r| >= 1 && AllDigits(r)
    ensures |r| > 1 ==> r[0] != '0'
  {
    if n < 10 then [DigitChar(n)] else NatToString(n / 10) + [DigitChar(n % 10)]
  }

  /** `toString()` for any integer: a minus sign before the digits of a
      negative one. */
  function IntToString(n: int): (r: string)
  {
    if n < 0 then "-" + NatToString(-n) else NatToString(n)
  }

  /** The value a string of decimal digits denotes (most significant first). */
  function DigitsValue(s: string): nat
    requires AllDigits(s)
  {
    if s == [] then 0 else DigitsValue(s[..|s| - 1]) * 10 + (s[|s| - 1] as int - '0' as int)
  }

  /** Reading back what `NatToString` wrote gives the number again. */
  lemma {:induction false} NatToStringRoundTrip(n: nat)
    ensures DigitsValue(NatToString(n)) == n
  {
    if n >= 10 {
      var h := NatToString(n / 10);
      var r := NatToString(n);
      assert r[..|r| - 1] == h;
      NatToStringRoundTrip(n / 10);
    }
  }

  function Zeros(k: nat): (r: string)
    ensures |r| == k && AllDigits(r)
    ensures forall i :: 0 <= i < k ==> r[i] == '0'
  {
    if k == 0 then [] else "0" + Zeros(k - 1)
  }

  /** `s.padStart(width, '0')`: zeros are prepended up to `width` characters;
      a string already that long is unchanged. */
  function PadZero(s: string, width: nat): (r: string)
    ensures |r| == if |s| >= width then |s| else width
    ensures r[|r| - |s|..] == s
    ensures forall i :: 0 <= i < |r| - |s| ==> r[i] == '0'
  {
    if |s| >= width then s else Zeros(width - |s|) + s
  }

  /** `n.toString().padStart(width, '0')`. */
  function Padded(n: nat, width: nat): (r: string)
  {
    PadZero(NatToString(n), width)
  }

  /** Leading zeros do not change the value of a digit string. */
  lemma {:induction false} LeadingZeroValue(s: string)
    requires AllDigits(s)
    ensures DigitsValue("0" + s) == DigitsValue(s)
  {
    if s != [] {
      var t := "0" + s;
      assert t[..|t| - 1] == "0" + s[..|s| - 1];
      LeadingZeroValue(s[..|s| - 1]);
    }
  }

  lemma {:induction false} ZerosValue(k: nat, s: string)
    requires AllDigits(s)
    ensures AllDigits(Zeros(k) + s) && DigitsValue(Zeros(k) + s) == DigitsValue(s)
  {
    if k > 0 {
      ZerosValue(k - 1, s);
      var x := Zeros(k - 1) + s;
      assert Zeros(k) == "0" + Zeros(k - 1);
      assert Zeros(k) + s == "0" + x;
      assert AllDigits("0" + x) by {
        forall i | 0 <= i < |"0" + x| ensures IsDigit(("0" + x)[i]) {
          if i > 0 { assert ("0" + x)[i] == x[i - 1]; }
        }
      }
      LeadingZeroValue(x);
    } else {
      assert Zeros(k) + s == s;
    }
  }

  /** A zero-padded decimal still denotes its number. */
  lemma PaddedValue(n: nat, width: nat)
    ensures AllDigits(Padded(n, width)) && DigitsValue(Padded(n, width)) == n
  {
    var s := NatToString(n);
    NatToStringRoundTrip(n);
    if |s| < width {
      ZerosValue(width - |s|, s);
    }
  }

  /** Two numbers with the same zero-padded decimal form are equal. */
  lemma PaddedInjective(a: nat, b: nat, width: nat)
    requires Padded(a, width) == Padded(b, width)
    ensures a == b
  {
    PaddedValue(a, width);
    PaddedValue(b, width);
  }

  function Pow10(k: nat): (r: nat)
    ensures r >= 1
  {
    if k == 0 then 1 else 10 * Pow10(k - 1)
  }

  /** A number below 10^w has at most w digits. */
  lemma {:induction false} NatToStringLength(n: nat, w: nat)
    requires 1 <= w && n < Pow10(w)
    ensures |NatToString(n)| <= w
  {
    if n >= 10 {
      assert w > 1;
      NatToStringLength(n / 10, w - 1);
    }
  }

  /** So padding a number below 10^w to w places gives exactly w digits. */
  lemma PaddedLength(n: nat, w: nat)
    requires 1 <= w && n < Pow10(w)
    ensures |Padded(n, w)| == w && AllDigits(Padded(n, w))
  {
    NatToStringLength(n, w);
    PaddedValue(n, w);
  }

  /** The sign shows in the first character, the digits follow it. */
  lemma IntToStringParts(n: int)
    ensures var r := IntToString(n);
      && |r| >= 1 && (r[0] == '-' <==> n < 0)
      && (n < 0 ==> r[1..] == NatToString(-n))
      && (n >= 0 ==> r == NatToString(n))
  {
    if n < 0 {
      var d := NatToString(-n);
      assert ("-" + d)[1..] == d;
    } else {
      assert IsDigit(NatToString(n)[0]);
    }
  }

  /** Two integers with the same `toString` form are equal. */
  lemma IntToStringInjective(a: int, b: int)
    requires IntToString(a) == IntToString(b)
    ensures a == b
  {
    IntToStringParts(a);
    IntToStringParts(b);
    if a < 0 {
      assert b < 0;
      NatToStringInjective(-a, -b);
    } else {
      assert b >= 0;
      NatToStringInjective(a, b);
    }
  }

  lemma NatToStringInjective(a: nat, b: nat)
    requires NatToString(a) == NatToString(b)
    ensures a == b
  {
    NatToStringRoundTrip(a);
    NatToStringRoundTrip(b);
  }

  /** `toString` never produces a space, which lets the week label be split. */
  lemma IntToStringHasNoSpace(n: int)
    ensures ' ' !in IntToString(n)
  {
    var s := IntToString(n);
    forall k | 0 <= k < |s|
      ensures s[k] == '-' || IsDigit(s[k])
    {
      if n < 0 && k > 0 {
        assert s[k] == NatToString(-n)[k - 1];
      }
    }
  }
}
