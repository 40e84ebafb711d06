/** The few string operations the modelled Python relies on: `str()` of a
    non-negative integer, `str.join`, the substring test `in`, and the
    ordering `<` on strings. */
module Text {

  /** The decimal digit character for `d`. */
  function DigitChar(d: nat): (c: char)
    requires d < 10
    ensures '0' <= c <= '9'
    ensures c as int - '0' as int == d
  {
    ('0' as int + d) as char
  }

  /** `str(n)` for a non-negative integer: its decimal digits, most significant first. */
  function NatString(n: nat): (s: string)
    ensures |s| > 0
    ensures forall i :: 0 <= i < |s| ==> '0' <= s[i] <= '9'
    decreases n
  {
    if n < 10 then [DigitChar(n)] else NatString(n / 10) + [DigitChar(n % 10)]
  }

  /** The last character of `str(n)` is the units digit, and when `n` has two
      or more digits the one before it is the tens digit. */
  lemma NatStringLastDigits(n: nat)
    ensures NatString(n)[|NatString(n)| - 1] == DigitChar(n % 10)
    ensures n >= 10 <==> |NatString(n)| >= 2
    ensures n >= 10 ==> NatString(n)[|NatString(n)| - 2] == DigitChar((n / 10) % 10)
  {
    if n >= 10 {
      var prefix := NatString(n / 10);
      NatStringLastDigits(n / 10);
      assert NatString(n) == prefix + [DigitChar(n % 10)];
    }
  }

  /** `sep.join(parts)`. */
  function Join(parts: seq<string>, sep: string): string
  {
    if |parts| == 0 then ""
    else if |parts| == 1 then parts[0]
    else parts[0] + sep + Join(parts[1..], sep)
  }

  /** Every part with `sep` written in front of it. */
  function PrefixEach(parts: seq<string>, sep: string): string
  {
    if |parts| == 0 then "" else sep + parts[0] + PrefixEach(parts[1..], sep)
  }

  /** Writing the separator once in front of a join puts it in front of every part. */
  lemma {:induction false} JoinPrefixed(parts: seq<string>, sep: string)
    requires |parts| > 0
    ensures sep + Join(parts, sep) == PrefixEach(parts, sep)
  {
    if |parts| > 1 {
      JoinPrefixed(parts[1..], sep);
      assert sep + Join(parts, sep) == sep + parts[0] + (sep + Join(parts[1..], sep));
    }
  }

  /** `sub in s` for strings: `sub` occurs somewhere in `s`. */
  predicate Contains(s: string, sub: string)
  {
    (|sub| <= |s| && s[..|sub|] == sub) || (|s| > 0 && Contains(s[1..], sub))
  }

  /** `a < b` on Python strings: lexicographic by code point, a proper prefix first. */
  predicate StrLess(a: string, b: string)
  {
    if |a| == 0 then |b| > 0
    else if |b| == 0 then false
    else if a[0] != b[0] then a[0] < b[0]
    else StrLess(a[1..], b[1..])
  }

  /** String `<` is a strict total order: irreflexive, asymmetric and total on distinct strings. */
  lemma {:induction false} StrLessTrichotomy(a: string, b: string)
    ensures !StrLess(a, a)
    ensures !(StrLess(a, b) && StrLess(b, a))
    ensures a != b ==> StrLess(a, b) || StrLess(b, a)
  {
    if |a| > 0 {
      StrLessTrichotomy(a[1..], a[1..]);
    }
    if |a| > 0 && |b| > 0 && a[0] == b[0] {
      StrLessTrichotomy(a[1..], b[1..]);
      if a != b {
        assert a == [a[0]] + a[1..] && b == [b[0]] + b[1..];
      }
    }
  }

  /** The value of a string of decimal digits, read most significant first. */
  function NatValue(s: string): nat
    requires forall i :: 0 <= i < |s| ==> '0' <= s[i] <= '9'
  {
    if |s| == 0 then 0
    else 10 * NatValue(s[..|s| - 1]) + (s[|s| - 1] as int - '0' as int)
  }

  /** Reading back the decimal digits of `n` gives `n`. */
  lemma {:induction false} NatValueOfNatString(n: nat)
    ensures NatValue(NatString(n)) == n
    decreases n
  {
    var s := NatString(n);
    if n >= 10 {
      NatValueOfNatString(n / 10);
      assert s[..|s| - 1] == NatString(n / 10);
    } else {
      assert s[..|s| - 1] == [];
    }
  }

  /** The position of the first `c` in `s`, or `|s|` when there is none. */
  function IndexOf(s: string, c: char): (i: nat)
    ensures i <= |s|
    ensures forall j :: 0 <= j < i ==> s[j] != c
    ensures i < |s| ==> s[i] == c
  {
    if |s| == 0 then 0 else if s[0] == c then 0 else 1 + IndexOf(s[1..], c)
  }

  /** `str(n)` for any integer: a minus sign in front of the digits of a negative one. */
  function IntString(n: int): (s: string)
    ensures n >= 0 ==> s == NatString(n)
    ensures n < 0 ==> s == "-" + NatString(-n)
  {
    if n >= 0 then NatString(n) else "-" + NatString(-n)
  }

  /** Every character is a decimal digit. */
  predicate AllDigits(s: string)
  {
    forall i :: 0 <= i < |s| ==> '0' <= s[i] <= '9'
  }

  /** The first `c` after a run of digits is the one right after them, when `c` is not a digit. */
  lemma {:induction false} IndexAfterDigits(digits: string, c: char, rest: string)
    requires AllDigits(digits) && !('0' <= c <= '9')
    ensures IndexOf(digits + [c] + rest, c) == |digits|
    ensures (digits + [c] + rest)[..|digits|] == digits
    ensures (digits + [c] + rest)[|digits| + 1..] == rest
  {
    if |digits| > 0 {
      IndexAfterDigits(digits[1..], c, rest);
      assert (digits + [c] + rest)[1..] == digits[1..] + [c] + rest;
    }
  }

  /** With no `c` at all, the search runs to the end. */
  lemma {:induction false} IndexInDigits(digits: string, c: char)
    requires AllDigits(digits) && !('0' <= c <= '9')
    ensures IndexOf(digits, c) == |digits|
  {
    if |digits| > 0 {
      IndexInDigits(digits[1..], c);
    }
  }
}
