/** String helpers with JavaScript semantics: truthiness, `trim`, decimal `toString`, global replace, digit stripping. */
module Text {
  import opened Wrappers

  /** JavaScript truthiness of an optional string: present and non-empty. */
  predicate Truthy(s: Option<string>) {
    s.Some? && s.value != ""
  }

  /** `a || b` for optional strings. */
  function OrElse(a: Option<string>, b: string): (r: string)
    ensures Truthy(a) ==> r == a.value
    ensures !Truthy(a) ==> r == b
  {
    if a.Some? && a.value != "" then a.value else b
  }

  /**
   * `a || b || ...` over optional strings: the first truthy entry, or none when no entry is truthy.
   */
  function FirstTruthy(xs: seq<Option<string>>): (r: Option<string>)
    ensures (forall k :: 0 <= k < |xs| ==> !Truthy(xs[k])) ==> r.None?
    ensures forall k :: 0 <= k < |xs| && Truthy(xs[k]) && (forall j :: 0 <= j < k ==> !Truthy(xs[j])) ==> r == xs[k]
  {
    if |xs| == 0 then None
    else if Truthy(xs[0]) then xs[0]
    else
      assert forall k :: 1 <= k < |xs| ==> xs[k] == xs[1..][k - 1];
      FirstTruthy(xs[1..])
  }

  /** A JavaScript number as `parseInt` produces it: an integer or NaN. */
  datatype Num = Int(n: int) | NaN {
    /** JavaScript truthiness: neither 0 nor NaN. */
    predicate Truthy() {
      Int? && n != 0
    }
  }

  // ----- decimal numerals -----

  predicate IsDigit(c: char) {
    '0' <= c <= '9'
  }

  function DigitChar(d: nat): (c: char)
    requires d < 10
    ensures IsDigit(c)
  {
    "0123456789"[d]
  }

  function DigitValue(c: char): (d: nat)
    requires IsDigit(c)
    ensures d < 10
  {
    (c as int) - ('0' as int)
  }

  /** The value of a string of decimal digits. */
  function DecimalValue(s: string): nat
    requires forall k :: 0 <= k < |s| ==> IsDigit(s[k])
  {
    if |s| == 0 then 0 else 10 * DecimalValue(s[..|s| - 1]) + DigitValue(s[|s| - 1])
  }

  /** `n.toString()` for a non-negative integer: decimal digits without leading zeros. */
  function NatToString(n: nat): (r: string)
    ensures |r| > 0
    ensures forall k :: 0 <= k < |r| ==> IsDigit(r[k])
    ensures |r| > 1 ==> r[0] != '0'
  {
    if n < 10 then [DigitChar(n)] else NatToString(n / 10) + [DigitChar(n % 10)]
  }

  /** The numeral reads back as the number it was written from. */
  lemma {:induction false} NatToStringRoundTrip(n: nat)
    ensures DecimalValue(NatToString(n)) == n
  {
    var r := NatToString(n);
    if n >= 10 {
      NatToStringRoundTrip(n / 10);
      assert r[..|r| - 1] == NatToString(n / 10);
    }
  }

  /** Distinct numbers are written differently. */
  lemma NatToStringInjective(a: nat, b: nat)
    requires NatToString(a) == NatToString(b)
    ensures a == b
  {
    NatToStringRoundTrip(a);
    NatToStringRoundTrip(b);
  }

  /** `n.toString()` for any integer. */
  function IntToString(n: int): (r: string)
    ensures |r| > 0
    ensures n >= 0 ==> r == NatToString(n)
    ensures n < 0 ==> r == "-" + NatToString(-n)
  {
    if n < 0 then "-" + NatToString(-n) else NatToString(n)
  }

  /** `String(x)` for a number `parseInt` produced. */
  function NumToString(x: Num): (r: string)
    ensures |r| > 0
  {
    match x
    case Int(n) => IntToString(n)
    case NaN => "NaN"
  }

  // ----- digit stripping: `s.replace(/[^0-9]/g, '')` -----

  /** Reference definition: the digits of `s`, in order. */
  function Digits(s: string): (r: string)
    ensures |r| <= |s|
    ensures forall k :: 0 <= k < |r| ==> IsDigit(r[k])
  {
    if |s| == 0 then ""
    else if IsDigit(s[0]) then [s[0]] + Digits(s[1..])
    else Digits(s[1..])
  }

  lemma {:induction false} DigitsAppend(a: string, b: string)
    ensures Digits(a + b) == Digits(a) + Digits(b)
  {
    if |a| > 0 {
      DigitsAppend(a[1..], b);
      assert (a + b)[1..] == a[1..] + b;
    } else {
      assert a + b == b;
    }
  }

  /** Stripping a string that is already all digits changes nothing. */
  lemma {:induction false} DigitsOfDigits(s: string)
    requires forall k :: 0 <= k < |s| ==> IsDigit(s[k])
    ensures Digits(s) == s
  {
    if |s| > 0 {
      DigitsOfDigits(s[1..]);
    }
  }

  /** The stripped string keeps every digit of `s`: each digit occurs as often as before. */
  lemma {:induction false} DigitsKeepsDigitCounts(s: string, c: char)
    requires IsDigit(c)
    ensures multiset(Digits(s))[c] == multiset(s)[c]
  {
    if |s| > 0 {
      DigitsKeepsDigitCounts(s[1..], c);
      assert s == [s[0]] + s[1..];
    }
  }

  /** The global regular-expression replace, written as the scan the browser performs. */
  method StripNonDigits(s: string) returns (r: string)
    ensures r == Digits(s)
  {
    r := "";
    var i := 0;
    while i < |s|
      invariant 0 <= i <= |s|
      invariant r == Digits(s[..i])
    {
      DigitsAppend(s[..i], [s[i]]);
      assert s[..i + 1] == s[..i] + [s[i]];
      if IsDigit(s[i]) {
        r := r + [s[i]];
      }
      i := i + 1;
    }
    assert s[..i] == s;
  }

  // ----- `String.prototype.trim` -----

  /** ECMAScript WhiteSpace and LineTerminator code points, the set `trim` removes. */
  predicate IsSpace(c: char) {
    c == '\t' || c == '\n' || c == '\U{000B}' || c == '\U{000C}' || c == '\r' || c == ' '
    || c == '\U{00A0}' || c == '\U{1680}' || ('\U{2000}' <= c <= '\U{200A}')
    || c == '\U{2028}' || c == '\U{2029}' || c == '\U{202F}' || c == '\U{205F}'
    || c == '\U{3000}' || c == '\U{FEFF}'
  }

  predicate AllSpace(s: string) {
    forall k :: 0 <= k < |s| ==> IsSpace(s[k])
  }

  function TrimStart(s: string): (r: string)
    ensures |r| <= |s| && r == s[|s| - |r|..]
    ensures AllSpace(s[..|s| - |r|])
    ensures |r| > 0 ==> !IsSpace(r[0])
  {
    if |s| > 0 && IsSpace(s[0]) then TrimStart(s[1..]) else s
  }

  function TrimEnd(s: string): (r: string)
    ensures |r| <= |s| && r == s[..|r|]
    ensures AllSpace(s[|r|..])
    ensures |r| > 0 ==> !IsSpace(r[|r| - 1])
  {
    if |s| > 0 && IsSpace(s[|s| - 1]) then TrimEnd(s[..|s| - 1]) else s
  }

  /** `s.trim()`. */
  function Trim(s: string): (r: string)
  {
    TrimEnd(TrimStart(s))
  }

  /** `s.trim()` is empty exactly when every character of `s` is white space. */
  lemma TrimEmptyIff(s: string)
    ensures Trim(s) == "" <==> AllSpace(s)
  {
    var t := TrimStart(s);
    if |t| > 0 {
      // `t` starts with a non-space character, which `TrimEnd` keeps.
      assert !IsSpace(t[0]);
      assert !AllSpace(t[|TrimEnd(t)|..]) || |TrimEnd(t)| > 0;
      assert !IsSpace(s[|s| - |t|]);
    } else {
      assert s[..|s|] == s;
    }
  }

  /** `s.trim()` is `s` with only white space removed from both ends. */
  lemma TrimIsInfix(s: string)
    ensures exists i, j ::
              0 <= i <= j <= |s| && Trim(s) == s[i..j] && AllSpace(s[..i]) && AllSpace(s[j..])
  {
    var t := TrimStart(s);
    var i := |s| - |t|;
    var j := i + |TrimEnd(t)|;
    assert Trim(s) == s[i..j];
    assert s[j..] == t[|TrimEnd(t)|..];
  }

  // ----- `s.replace(/pat/g, rep)` -----

  /** Left-to-right, non-overlapping replacement of every occurrence of `pat` by `rep`. */
  function ReplaceAll(s: string, pat: string, rep: string): string
    requires |pat| > 0
    decreases |s|
  {
    if |s| < |pat| then s
    else if s[..|pat|] == pat then rep + ReplaceAll(s[|pat|..], pat, rep)
    else [s[0]] + ReplaceAll(s[1..], pat, rep)
  }

  /** `pat` occurs in `s` starting at index `k`. */
  predicate OccursAt(s: string, pat: string, k: int) {
    0 <= k && k + |pat| <= |s| && s[k..k + |pat|] == pat
  }

  predicate Contains(s: string, pat: string) {
    exists k | 0 <= k <= |s| :: OccursAt(s, pat, k)
  }

  /** Replacing never empties a non-empty string when the replacement is non-empty. */
  lemma {:induction false} ReplaceAllNonEmpty(s: string, pat: string, rep: string)
    requires |pat| > 0 && |rep| > 0
    ensures |ReplaceAll(s, pat, rep)| == 0 <==> |s| == 0
  {
  }

  /** The result of `ReplaceAll` starts with `rep` or with `s`'s first character. */
  lemma ReplaceAllHead(s: string, pat: string, rep: string)
    requires |pat| > 0 && |s| > 0 && |rep| > 0
    ensures var r := ReplaceAll(s, pat, rep);
      |r| > 0 && (if |s| >= |pat| && s[..|pat|] == pat then r[0] == rep[0] else r[0] == s[0])
  {
  }

  /**
   * Replacing a two-character pattern by one character that occurs in neither of its positions
   * leaves no occurrence of the pattern behind.
   */
  lemma {:induction false} ReplaceAllRemovesPair(s: string, pat: string, c: char)
    requires |pat| == 2 && c != pat[0] && c != pat[1]
    ensures !Contains(ReplaceAll(s, pat, [c]), pat)
    decreases |s|
  {
    var r := ReplaceAll(s, pat, [c]);
    if |s| >= 2 {
      var n := if s[..2] == pat then 2 else 1;
      var t := ReplaceAll(s[n..], pat, [c]);
      ReplaceAllRemovesPair(s[n..], pat, c);
      assert r == r[..1] + t;
      forall k: int | 0 <= k <= |r| ensures !OccursAt(r, pat, k) {
        if k == 0 {
          if n == 1 && |r| >= 2 {
            ReplaceAllHead(s[1..], pat, [c]);
            assert r[1] == t[0];
            assert s[..2] == [s[0], s[1]];
          }
        } else if OccursAt(r, pat, k) {
          assert r[k..k + 2] == t[k - 1..k + 1];
          assert OccursAt(t, pat, k - 1);
        }
      }
    }
  }

  /** Text without an occurrence of the pattern is left as it is. */
  lemma {:induction false} ReplaceAllAbsent(s: string, pat: string, rep: string)
    requires |pat| > 0 && !Contains(s, pat)
    ensures ReplaceAll(s, pat, rep) == s
    decreases |s|
  {
    if |s| >= |pat| {
      assert !OccursAt(s, pat, 0);
      assert s[..|pat|] != pat;
      if Contains(s[1..], pat) {
        var k: int :| 0 <= k <= |s[1..]| && OccursAt(s[1..], pat, k);
        assert s[k + 1..k + 1 + |pat|] == s[1..][k..k + |pat|];
        assert OccursAt(s, pat, k + 1);
        assert false;
      }
      ReplaceAllAbsent(s[1..], pat, rep);
    }
  }
}
