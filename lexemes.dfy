/** Small lexical building blocks shared by the ping-output patterns:
    character classes, maximal runs, literals at a position, the leftmost
    successful attempt of a scan, and Python's int()/float() on the
    captured digit strings. */
module Lexemes {

  datatype Option<T> = None | Some(value: T)

  /** The character classes used by the four patterns. */
  datatype CharClass =
    | Digit        // \d and [0-9]
    | Space        // \s
    | DigitOrDot   // [\d\.]
    | WordOrSlash  // [\w/]

  predicate IsDigit(c: char) { '0' <= c <= '9' }

  /** Python's \s on str: the characters for which str.isspace() holds. */
  predicate IsSpace(c: char) {
    c == ' ' || '\t' <= c <= '\r' || '\U{1C}' <= c <= '\U{1F}' || c == '\U{85}' || c == '\U{A0}'
    || c == '\U{1680}' || '\U{2000}' <= c <= '\U{200A}' || c == '\U{2028}' || c == '\U{2029}'
    || c == '\U{202F}' || c == '\U{205F}' || c == '\U{3000}'
  }

  predicate IsWordChar(c: char) {
    'a' <= c <= 'z' || 'A' <= c <= 'Z' || IsDigit(c) || c == '_'
  }

  predicate InClass(c: char, cls: CharClass) {
    match cls
    case Digit => IsDigit(c)
    case Space => IsSpace(c)
    case DigitOrDot => IsDigit(c) || c == '.'
    case WordOrSlash => IsWordChar(c) || c == '/'
  }

  /** s[a..b] is a non-empty stretch of characters of class cls. */
  predicate IsRun(s: string, a: nat, b: nat, cls: CharClass) {
    a < b <= |s| && forall k :: a <= k < b ==> InClass(s[k], cls)
  }

  /** lit occurs in s starting at position i. */
  predicate LiteralAt(s: string, i: nat, lit: string) {
    i + |lit| <= |s| && s[i..i + |lit|] == lit
  }

  /** Where the longest stretch of class cls starting at a ends: what a
      greedy `cls+` consumes before any backtracking. */
  function RunEnd(s: string, a: nat, cls: CharClass): (e: nat)
    ensures a <= |s| ==> a <= e <= |s|
    ensures a > |s| ==> e == a
    decreases |s| - a
  {
    if a < |s| && InClass(s[a], cls) then RunEnd(s, a + 1, cls) else a
  }

  /** What RunEnd stops at: every character it passes is of class cls and
      the one it stops in front of is not. */
  lemma {:induction false} RunEndStops(s: string, a: nat, cls: CharClass)
    ensures forall k :: a <= k < RunEnd(s, a, cls) ==> InClass(s[k], cls)
    ensures RunEnd(s, a, cls) < |s| ==> !InClass(s[RunEnd(s, a, cls)], cls)
    decreases |s| - a
  {
    if a < |s| && InClass(s[a], cls) {
      RunEndStops(s, a + 1, cls);
    }
  }

  /** A run that stops in front of a character outside its class (or at the
      end of s) is the longest one: backtracking a greedy `cls+` to a
      shorter length can only leave a character of cls where the pattern
      needs something else, so the greedy choice is the only one. */
  lemma {:induction false} RunEndUnique(s: string, a: nat, b: nat, cls: CharClass)
    requires IsRun(s, a, b, cls)
    requires b < |s| ==> !InClass(s[b], cls)
    ensures RunEnd(s, a, cls) == b
    decreases b - a
  {
    if a + 1 < b {
      RunEndUnique(s, a + 1, b, cls);
    }
  }

  /** A run followed by a literal that starts outside the run's class is
      the longest run there. */
  lemma RunBeforeLiteral(s: string, a: nat, b: nat, cls: CharClass, lit: string)
    requires IsRun(s, a, b, cls) && LiteralAt(s, b, lit)
    requires |lit| > 0 && !InClass(lit[0], cls)
    ensures RunEnd(s, a, cls) == b
  {
    assert s[b] == s[b..b + |lit|][0];
    RunEndUnique(s, a, b, cls);
  }

  /** A greedy `cls+` at a that must be followed by lit: where the run
      ends, or None when the run is empty or lit does not follow it. */
  function RunThen(s: string, a: nat, cls: CharClass, lit: string): (r: Option<nat>)
    ensures r.Some? ==> IsRun(s, a, r.value, cls) && LiteralAt(s, r.value, lit)
  {
    var e := RunEnd(s, a, cls);
    RunEndStops(s, a, cls);
    if a < e && LiteralAt(s, e, lit) then Some(e) else None
  }

  /** RunThen finds every run followed by a literal that starts outside the
      run's class: such a run is the only one backtracking can use. */
  lemma RunThenComplete(s: string, a: nat, b: nat, cls: CharClass, lit: string)
    requires IsRun(s, a, b, cls) && LiteralAt(s, b, lit)
    requires |lit| > 0 && !InClass(lit[0], cls)
    ensures RunThen(s, a, cls, lit) == Some(b)
  {
    RunBeforeLiteral(s, a, b, cls, lit);
  }

  lemma RunExtendLeft(s: string, a: nat, b: nat, cls: CharClass)
    requires 0 < a && IsRun(s, a, b, cls) && InClass(s[a - 1], cls)
    ensures IsRun(s, a - 1, b, cls)
  {
  }

  /** Every run starting at a ends at RunEnd(s, a, cls) or before it. */
  lemma {:induction false} RunWithinRunEnd(s: string, a: nat, b: nat, cls: CharClass)
    requires IsRun(s, a, b, cls)
    ensures b <= RunEnd(s, a, cls)
    decreases b - a
  {
    if a + 1 < b {
      RunWithinRunEnd(s, a + 1, b, cls);
    }
  }

  /** The leftmost position k in [lo, hi] at which attempt succeeds,
      paired with what it produced. This is both how an unanchored search
      tries its start positions and how a lazy `.*?` tries its lengths. */
  function FirstSuccess<T>(attempt: nat -> Option<T>, lo: nat, hi: nat): (r: Option<(nat, T)>)
    ensures r.Some? ==> lo <= r.value.0 <= hi && attempt(r.value.0) == Some(r.value.1)
    ensures r.Some? ==> forall k :: lo <= k < r.value.0 ==> attempt(k).None?
    ensures r.None? ==> forall k :: lo <= k <= hi ==> attempt(k).None?
    decreases hi + 1 - lo
  {
    if lo > hi then None
    else match attempt(lo)
      case Some(v) => Some((lo, v))
      case None => FirstSuccess(attempt, lo + 1, hi)
  }

  /** An attempt that succeeds at k bounds the scan's answer by k, and the
      scan returns that attempt's value when it stops exactly there. */
  lemma FirstSuccessNoLater<T>(attempt: nat -> Option<T>, lo: nat, hi: nat, k: nat)
    requires lo <= k <= hi && attempt(k).Some?
    ensures FirstSuccess(attempt, lo, hi).Some?
    ensures FirstSuccess(attempt, lo, hi).value.0 <= k
    ensures FirstSuccess(attempt, lo, hi).value.0 == k ==> FirstSuccess(attempt, lo, hi).value.1 == attempt(k).value
  {
  }

  function DigitValue(c: char): (d: nat)
    requires IsDigit(c)
    ensures d < 10
  {
    (c as int - '0' as int) as nat
  }

  predicate AllDigits(t: string) {
    forall k :: 0 <= k < |t| ==> IsDigit(t[k])
  }

  /** Python's int() on a string of decimal digits (leading zeros allowed). */
  function DigitsValue(t: string): (n: nat)
    requires AllDigits(t)
    ensures n < Pow10(|t|)
    decreases |t|
  {
    if |t| == 0 then 0
    else
      var hi := DigitsValue(t[..|t| - 1]);
      assert hi * 10 + 10 <= Pow10(|t| - 1) * 10;
      hi * 10 + DigitValue(t[|t| - 1])
  }

  /** Python's int() on what a `\d+` group captured in s[a..b]. */
  function RunValue(s: string, a: nat, b: nat): (n: nat)
    requires IsRun(s, a, b, Digit)
    ensures n < Pow10(b - a)
  {
    DigitsValue(s[a..b])
  }

  /** The decimal text of n: the inverse that DigitsValue is checked against. */
  function ShowNat(n: nat): (t: string)
    ensures |t| > 0 && AllDigits(t)
  {
    if n < 10 then [('0' as int + n) as char] else ShowNat(n / 10) + [('0' as int + n % 10) as char]
  }

  lemma {:induction false} DigitsValueShowNat(n: nat)
    ensures DigitsValue(ShowNat(n)) == n
  {
    var t := ShowNat(n);
    if n >= 10 {
      DigitsValueShowNat(n / 10);
      assert t[..|t| - 1] == ShowNat(n / 10);
    }
  }

  /** A leading zero does not change int()'s value, so a capture such as
      `02` reads as 2. */
  lemma {:induction false} DigitsValueLeadingZero(t: string)
    requires AllDigits(t)
    ensures AllDigits("0" + t) && DigitsValue("0" + t) == DigitsValue(t)
    decreases |t|
  {
    var z := "0" + t;
    assert z[0] == '0';
    assert forall k :: 0 < k < |z| ==> z[k] == t[k - 1];
    if |t| > 0 {
      var init := t[..|t| - 1];
      assert z[..|z| - 1] == "0" + init;
      assert z[|z| - 1] == t[|t| - 1];
      DigitsValueLeadingZero(init);
    }
  }

  function Pow10(k: nat): (p: nat)
    ensures p > 0
  {
    if k == 0 then 1 else 10 * Pow10(k - 1)
  }

  function CountChar(t: string, c: char): (n: nat)
    ensures n <= |t|
    ensures n == 0 <==> forall k :: 0 <= k < |t| ==> t[k] != c
  {
    if |t| == 0 then 0 else (if t[0] == c then 1 else 0) + CountChar(t[1..], c)
  }

  function IndexOf(t: string, c: char): (i: nat)
    requires exists k :: 0 <= k < |t| && t[k] == c
    ensures i < |t| && t[i] == c
    ensures forall k :: 0 <= k < i ==> t[k] != c
  {
    if t[0] == c then 0 else IndexOf(t[1..], c) + 1
  }

  /** Python's float() is accepted by a string of digits and dots when it
      holds at most one dot and at least one digit ("1.", ".5", "12"). */
  predicate IsFloatText(t: string)
    requires forall k :: 0 <= k < |t| ==> InClass(t[k], DigitOrDot)
  {
    CountChar(t, '.') <= 1 && exists k :: 0 <= k < |t| && IsDigit(t[k])
  }

  /** Python's float() on a capture of [\d\.]+, as an exact real:
      None where Python raises ValueError. */
  function ParseFloat(t: string): (r: Option<real>)
    requires forall k :: 0 <= k < |t| ==> InClass(t[k], DigitOrDot)
    ensures r.Some? <==> IsFloatText(t)
    ensures r.Some? && AllDigits(t) ==> r.value == DigitsValue(t) as real
  {
    if !IsFloatText(t) then None
    else if CountChar(t, '.') == 0 then
      Some(DigitsValue(t) as real)
    else
      var d := IndexOf(t, '.');
      assert AllDigits(t[..d]);
      assert forall k :: d + 1 <= k < |t| ==> t[k] != '.' by {
        CountDotsSplit(t, d);
      }
      assert AllDigits(t[d + 1..]);
      Some(DigitsValue(t[..d]) as real + DigitsValue(t[d + 1..]) as real / Pow10(|t| - d - 1) as real)
  }

  lemma {:induction false} CountDotsSplit(t: string, d: nat)
    requires d < |t| && t[d] == '.' && CountChar(t, '.') <= 1
    ensures forall k :: 0 <= k < |t| && k != d ==> t[k] != '.'
    decreases |t|
  {
    if d == 0 {
      assert CountChar(t[1..], '.') == 0;
      forall k | 0 < k < |t| ensures t[k] != '.' {
        assert t[1..][k - 1] == t[k];
      }
    } else {
      assert t[1..][d - 1] == '.';
      CountDotsSplit(t[1..], d - 1);
      forall k | 0 < k < |t| && k != d ensures t[k] != '.' {
        assert t[1..][k - 1] == t[k];
      }
    }
  }

  function LowerChar(c: char): char {
    if 'A' <= c <= 'Z' then (c as int + 32) as char else c
  }

  /** Python's str.lower(), restricted to ASCII letters. */
  function Lower(s: string): (r: string)
    ensures |r| == |s|
    ensures forall k :: 0 <= k < |s| ==> r[k] == LowerChar(s[k])
  {
    seq(|s|, k requires 0 <= k < |s| => LowerChar(s[k]))
  }

  /** Python's `needle in hay` for strings, scanning left to right. */
  function Contains(hay: string, needle: string): bool
    decreases |hay|
  {
    if |hay| < |needle| then false
    else hay[..|needle|] == needle || Contains(hay[1..], needle)
  }

  /** Contains agrees with the plain definition of a substring occurrence. */
  lemma {:induction false} ContainsIff(hay: string, needle: string)
    ensures Contains(hay, needle) <==> exists i :: 0 <= i && LiteralAt(hay, i, needle)
    decreases |hay|
  {
    if |hay| < |needle| {
      if i :| 0 <= i && LiteralAt(hay, i, needle) {
        assert false;
      }
    } else if hay[..|needle|] == needle {
      assert LiteralAt(hay, 0, needle);
    } else {
      ContainsIff(hay[1..], needle);
      if Contains(hay[1..], needle) {
        var i :| 0 <= i && LiteralAt(hay[1..], i, needle);
        assert hay[i + 1..i + 1 + |needle|] == hay[1..][i..i + |needle|];
        assert LiteralAt(hay, i + 1, needle);
      }
      if i :| 0 <= i && LiteralAt(hay, i, needle) {
        assert i > 0;
        assert hay[1..][i - 1..i - 1 + |needle|] == hay[i..i + |needle|];
        assert LiteralAt(hay[1..], i - 1, needle);
      }
    }
  }
}
