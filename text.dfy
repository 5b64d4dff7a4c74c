/**
 * The string primitives the media-type code relies on: Python's `str.strip`,
 * `str.split`, `str.join`, `str.isdigit`, `int(...)`/`str(int)` and `str.lower`,
 * and the `padded_split(s, sep, 1)` helper, which splits at the first separator
 * and reports a missing second half as none.
 */
module Text {
  import opened Wrappers

  /** The characters Python's `str.isspace` accepts, which is what `str.strip()` removes. */
  predicate IsSpace(c: char) {
    || c == ' '
    || ('\t' <= c <= '\r')
    || ('\U{1C}' <= c <= '\U{1F}')
    || c == '\U{85}' || c == '\U{A0}' || c == '\U{1680}'
    || ('\U{2000}' <= c <= '\U{200A}')
    || c == '\U{2028}' || c == '\U{2029}' || c == '\U{202F}' || c == '\U{205F}' || c == '\U{3000}'
  }

  /** Neither the first nor the last character is whitespace. */
  predicate Stripped(s: string) {
    |s| == 0 || (!IsSpace(s[0]) && !IsSpace(s[|s| - 1]))
  }

  function StripLeft(s: string): (r: string)
    ensures |r| <= |s| && r == s[|s| - |r|..]
    ensures |r| > 0 ==> !IsSpace(r[0])
    ensures forall i :: 0 <= i < |s| - |r| ==> IsSpace(s[i])
  {
    if |s| > 0 && IsSpace(s[0]) then StripLeft(s[1..]) else s
  }

  function StripRight(s: string): (r: string)
    ensures |r| <= |s| && r == s[..|r|]
    ensures |r| > 0 ==> !IsSpace(r[|r| - 1])
    ensures forall i :: |r| <= i < |s| ==> IsSpace(s[i])
  {
    if |s| > 0 && IsSpace(s[|s| - 1]) then StripRight(s[..|s| - 1]) else s
  }

  /** `str.strip()`: the result has no whitespace at either end, and a string with none is unchanged. */
  function Strip(s: string): (r: string)
    ensures Stripped(r) && |r| <= |s|
    ensures Stripped(s) ==> r == s
  {
    StripRight(StripLeft(s))
  }

  /** `s.replace(c, "")`: every other character, in order. */
  function Remove(s: string, c: char): (r: string)
    ensures c !in r && |r| <= |s|
    ensures c !in s ==> r == s
  {
    if |s| == 0 then ""
    else if s[0] == c then Remove(s[1..], c)
    else [s[0]] + Remove(s[1..], c)
  }

  /** `str.strip()` removes exactly the whitespace around text whose ends are not whitespace. */
  lemma StripSurrounded(pre: string, s: string, post: string)
    requires forall i :: 0 <= i < |pre| ==> IsSpace(pre[i])
    requires forall i :: 0 <= i < |post| ==> IsSpace(post[i])
    requires |s| > 0 && !IsSpace(s[0]) && !IsSpace(s[|s| - 1])
    ensures Strip(pre + s + post) == s
  {
    assert pre + s + post == pre + (s + post);
    StripLeftSpaces(pre, s + post);
    StripRightSpaces(s, post);
  }

  lemma {:induction false} StripLeftSpaces(pad: string, rest: string)
    requires forall i :: 0 <= i < |pad| ==> IsSpace(pad[i])
    requires |rest| > 0 && !IsSpace(rest[0])
    ensures StripLeft(pad + rest) == rest
  {
    if |pad| == 0 {
      assert pad + rest == rest;
    } else {
      assert (pad + rest)[1..] == pad[1..] + rest;
      StripLeftSpaces(pad[1..], rest);
    }
  }

  lemma {:induction false} StripRightSpaces(rest: string, pad: string)
    requires forall i :: 0 <= i < |pad| ==> IsSpace(pad[i])
    requires |rest| > 0 && !IsSpace(rest[|rest| - 1])
    ensures StripRight(rest + pad) == rest
  {
    if |pad| == 0 {
      assert rest + pad == rest;
    } else {
      var s := rest + pad;
      assert s[..|s| - 1] == rest + pad[..|pad| - 1];
      StripRightSpaces(rest, pad[..|pad| - 1]);
    }
  }

  /** Removing from a concatenation removes from each part. */
  lemma {:induction false} RemoveConcat(x: string, y: string, c: char)
    ensures Remove(x + y, c) == Remove(x, c) + Remove(y, c)
  {
    if |x| > 0 {
      assert (x + y)[1..] == x[1..] + y;
      RemoveConcat(x[1..], y, c);
    } else {
      assert x + y == y;
    }
  }

  /** A removed character between two parts leaves no trace. */
  lemma RemoveBetween(x: string, y: string, c: char)
    ensures Remove(x + [c] + y, c) == Remove(x + y, c)
  {
    RemoveConcat(x + [c], y, c);
    RemoveConcat(x, [c], c);
    RemoveConcat(x, y, c);
    assert Remove([c], c) == "";
  }

  /** Position of the first occurrence of `c` in `s`. */
  function IndexOf(s: string, c: char): (r: Option<nat>)
    ensures r.None? <==> c !in s
    ensures r.Some? ==> r.value < |s| && s[r.value] == c && c !in s[..r.value]
  {
    if |s| == 0 then None
    else if s[0] == c then Some(0)
    else match IndexOf(s[1..], c)
      case None => None
      case Some(i) => Some(i + 1)
  }

  /**
   * `padded_split(s, c, 1)`: the text before the first `c` and, when there is
   * one, the text after it; with no `c` the whole string and none.
   */
  function PaddedSplit(s: string, c: char): (r: (string, Option<string>))
    ensures r.1.None? <==> c !in s
    ensures r.1.None? ==> r.0 == s
    ensures r.1.Some? ==> s == r.0 + [c] + r.1.value && c !in r.0
  {
    match IndexOf(s, c)
    case None => (s, None)
    case Some(i) => (s[..i], Some(s[i + 1..]))
  }

  /** Splitting a string built around a first separator gives back its two halves. */
  lemma PaddedSplitAt(a: string, c: char, b: string)
    requires c !in a
    ensures PaddedSplit(a + [c] + b, c) == (a, Some(b))
  {
    var s := a + [c] + b;
    assert s[|a|] == c;
    assert forall j :: 0 <= j < |a| ==> s[j] == a[j];
    var i := IndexOf(s, c).value;
    assert i == |a|;
    assert s[..i] == a && s[i + 1..] == b;
  }

  /** Python's `';'.join(parts)` for a one-character separator. */
  function Join(parts: seq<string>, c: char): string
  {
    if |parts| == 0 then ""
    else if |parts| == 1 then parts[0]
    else parts[0] + [c] + Join(parts[1..], c)
  }

  /** Python's `s.split(c)`: never empty, no piece holds `c`, and joining the pieces restores `s`. */
  function Split(s: string, c: char): (r: seq<string>)
    ensures |r| > 0
    ensures forall k :: 0 <= k < |r| ==> c !in r[k]
    ensures Join(r, c) == s
    decreases |s|
  {
    var (head, tail) := PaddedSplit(s, c);
    if tail.None? then [head]
    else
      var rest := Split(tail.value, c);
      assert ([head] + rest)[1..] == rest;
      [head] + rest
  }

  /** Splitting a join of separator-free pieces gives the pieces back. */
  lemma {:induction false} SplitJoin(parts: seq<string>, c: char)
    requires |parts| > 0
    requires forall k :: 0 <= k < |parts| ==> c !in parts[k]
    ensures Split(Join(parts, c), c) == parts
  {
    if |parts| > 1 {
      PaddedSplitAt(parts[0], c, Join(parts[1..], c));
      SplitJoin(parts[1..], c);
      assert [parts[0]] + parts[1..] == parts;
    }
  }

  predicate IsDigit(c: char) {
    '0' <= c <= '9'
  }

  predicate AllDigits(s: string) {
    forall i :: 0 <= i < |s| ==> IsDigit(s[i])
  }

  /** A string of digits holds no other character. */
  lemma DigitsOnly(d: string, c: char)
    requires AllDigits(d) && !IsDigit(c)
    ensures c !in d
  {
  }

  /** `str.isdigit()`, restricted to the ASCII digits: non-empty and digits only. */
  predicate IsDigits(s: string) {
    |s| > 0 && AllDigits(s)
  }

  function DigitValue(c: char): nat
    requires IsDigit(c)
  {
    c as nat - '0' as nat
  }

  function DigitChar(d: nat): (c: char)
    requires d < 10
    ensures IsDigit(c) && DigitValue(c) == d
  {
    ('0' as int + d) as char
  }

  /** `int(s)` for a string of decimal digits (leading zeros allowed). */
  function DigitsToNat(s: string): nat
    requires AllDigits(s)
    decreases |s|
  {
    if |s| == 0 then 0 else DigitsToNat(s[..|s| - 1]) * 10 + DigitValue(s[|s| - 1])
  }

  function Pow10(k: nat): (r: nat)
    ensures r > 0
  {
    if k == 0 then 1 else 10 * Pow10(k - 1)
  }

  /** `str(n)`: decimal digits without a leading zero, which read back as `n`. */
  function NatToString(n: nat): (r: string)
    ensures IsDigits(r)
    ensures r[0] == '0' ==> n == 0 && |r| == 1
    ensures DigitsToNat(r) == n
  {
    if n < 10 then [DigitChar(n)]
    else
      var head := NatToString(n / 10);
      var r := head + [DigitChar(n % 10)];
      assert r[..|r| - 1] == head;
      r
  }

  lemma {:induction false} LeadingDigitPositive(s: string)
    requires IsDigits(s) && s[0] != '0'
    ensures DigitsToNat(s) > 0
  {
    if |s| > 1 {
      LeadingDigitPositive(s[..|s| - 1]);
    }
  }

  /** `str(int(s)) == s` for a digit string with no leading zero. */
  lemma {:induction false} DigitsRoundTrip(s: string)
    requires IsDigits(s) && (|s| == 1 || s[0] != '0')
    ensures NatToString(DigitsToNat(s)) == s
  {
    if |s| > 1 {
      var p := s[..|s| - 1];
      LeadingDigitPositive(p);
      DigitsRoundTrip(p);
      assert p + [s[|s| - 1]] == s;
    }
  }

  function LowerChar(c: char): char {
    if 'A' <= c <= 'Z' then (c as int + 32) as char else c
  }

  /** `str.lower()`, restricted to the ASCII letters. */
  function Lower(s: string): (r: string)
    ensures |r| == |s|
  {
    seq(|s|, i requires 0 <= i < |s| => LowerChar(s[i]))
  }

  predicate StartsWith(s: string, prefix: string) {
    |prefix| <= |s| && s[..|prefix|] == prefix
  }
}
