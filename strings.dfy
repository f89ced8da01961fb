/** Text primitives the downloader relies on: Python's `str.strip()`,
    `str.lower()`, `str.split(",")`, `in` (substring), `endswith`,
    `str.replace(old, "")`, decimal formatting of integers and the
    code-point order used by `list.sort()`. */
module Strings {

  /** Python's `str.isspace()`: the characters `str.strip()` removes. */
  predicate IsSpace(c: char) {
    var n := c as int;
    (9 <= n <= 13) || (28 <= n <= 32) || n == 0x85 || n == 0xA0 || n == 0x1680
    || (0x2000 <= n <= 0x200A) || n == 0x2028 || n == 0x2029 || n == 0x202F
    || n == 0x205F || n == 0x3000
  }

  function StripLeft(s: string): (r: string)
    ensures |r| <= |s| && r == s[|s| - |r|..]
    ensures |r| > 0 ==> !IsSpace(r[0])
  {
    if |s| > 0 && IsSpace(s[0]) then StripLeft(s[1..]) else s
  }

  function StripRight(s: string): (r: string)
    ensures |r| <= |s| && r == s[..|r|]
    ensures |r| > 0 ==> !IsSpace(r[|r| - 1])
  {
    if |s| > 0 && IsSpace(s[|s| - 1]) then StripRight(s[..|s| - 1]) else s
  }

  /** `s.strip()`: a slice of `s` with no white space at either end. */
  function Strip(s: string): (r: string)
  {
    StripRight(StripLeft(s))
  }

  predicate AllSpace(s: string) {
    forall k :: 0 <= k < |s| ==> IsSpace(s[k])
  }

  /** The stripped text is the slice `s[a..a + |r|]` of the input, has no
      white space at either end, and what was cut away is all white space. */
  lemma StripSpec(s: string) returns (a: nat)
    ensures var r := Strip(s);
      && a + |r| <= |s| && r == s[a..a + |r|]
      && AllSpace(s[..a]) && AllSpace(s[a + |r|..])
      && (|r| > 0 ==> !IsSpace(r[0]) && !IsSpace(r[|r| - 1]))
  {
    var l := StripLeft(s);
    var r := StripRight(l);
    a := |s| - |l|;
    assert l == s[a..];
    assert r == l[..|r|];
    assert s[a..a + |r|] == l[..|r|];
    LeftCut(s);
    RightCut(l);
    assert s[a + |r|..] == l[|r|..];
    if |r| > 0 {
      assert r[0] == l[0];
    }
  }

  /** What `StripLeft` cuts away is white space. */
  lemma {:induction false} LeftCut(s: string)
    ensures AllSpace(s[..|s| - |StripLeft(s)|])
  {
    if |s| > 0 && IsSpace(s[0]) {
      LeftCut(s[1..]);
      var h := s[1..][..|s| - 1 - |StripLeft(s[1..])|];
      assert s[..|s| - |StripLeft(s)|] == [s[0]] + h;
    } else {
      assert s[..|s| - |StripLeft(s)|] == [];
    }
  }

  /** What `StripRight` cuts away is white space. */
  lemma {:induction false} RightCut(s: string)
    ensures AllSpace(s[|StripRight(s)|..])
  {
    if |s| > 0 && IsSpace(s[|s| - 1]) {
      var p := s[..|s| - 1];
      RightCut(p);
      assert s[|StripRight(s)|..] == p[|StripRight(p)|..] + [s[|s| - 1]];
    } else {
      assert s[|StripRight(s)|..] == [];
    }
  }

  /** Stripping only removes characters. */
  lemma StripKeeps(s: string, c: char)
    ensures c in Strip(s) ==> c in s
  {
    var r := Strip(s);
    var l := StripLeft(s);
    if c in r {
      var k :| 0 <= k < |r| && r[k] == c;
      assert r[k] == l[k];
      assert l[k] == s[|s| - |l| + k];
    }
  }

  lemma {:induction false} StripLeftAllSpace(s: string)
    requires AllSpace(s)
    ensures StripLeft(s) == []
  {
    if |s| > 0 {
      StripLeftAllSpace(s[1..]);
    }
  }

  /** Stripping gives the empty string exactly when the text is all white space. */
  lemma StripEmptyIff(s: string)
    ensures Strip(s) == [] <==> AllSpace(s)
  {
    if AllSpace(s) {
      StripLeftAllSpace(s);
    }
    if Strip(s) == [] {
      var l := StripLeft(s);
      LeftCut(s);
      RightCut(l);
      assert l[|StripRight(l)|..] == l;
      assert |l| == 0;
      assert s[..|s| - |l|] == s;
    }
  }

  /** Stripping twice is the same as stripping once. */
  lemma StripIdempotent(s: string)
    ensures Strip(Strip(s)) == Strip(s)
  {
    var r := Strip(s);
    if |r| > 0 {
      assert StripLeft(r) == r;
      assert StripRight(r) == r;
    }
  }

  /** ASCII case folding of one character (see README "Left out"). */
  function LowerChar(c: char): (r: char)
    ensures 'A' <= c <= 'Z' ==> r as int == c as int + 32
    ensures !('A' <= c <= 'Z') ==> r == c
  {
    if 'A' <= c <= 'Z' then (c as int + 32) as char else c
  }

  /** `s.lower()`, character by character. */
  function Lower(s: string): (r: string)
    ensures |r| == |s|
    ensures forall k :: 0 <= k < |s| ==> r[k] == LowerChar(s[k])
  {
    if |s| == 0 then [] else [LowerChar(s[0])] + Lower(s[1..])
  }

  lemma LowerAppend(a: string, b: string)
    ensures Lower(a + b) == Lower(a) + Lower(b)
  {
    assert forall k :: 0 <= k < |a + b| ==> Lower(a + b)[k] == (Lower(a) + Lower(b))[k];
  }

  lemma LowerIdempotent(s: string)
    ensures Lower(Lower(s)) == Lower(s)
  {
  }

  predicate StartsWith(s: string, p: string) {
    |p| <= |s| && s[..|p|] == p
  }

  predicate EndsWith(s: string, p: string) {
    |p| <= |s| && s[|s| - |p|..] == p
  }

  lemma StartsWithAppend(p: string, q: string)
    ensures StartsWith(p + q, p)
  {
    assert (p + q)[..|p|] == p;
  }

  lemma EndsWithAppend(p: string, q: string)
    ensures EndsWith(p + q, q)
  {
    assert (p + q)[|p + q| - |q|..] == q;
  }

  lemma StartsWithExtend(a: string, p: string, b: string)
    requires StartsWith(a, p)
    ensures StartsWith(a + b, p)
  {
    assert (a + b)[..|p|] == a[..|p|];
  }

  /** Python's `t in s`: `t` occurs in `s` at some position. */
  predicate Contains(s: string, t: string)
    decreases |s|
  {
    StartsWith(s, t) || (|s| > 0 && Contains(s[1..], t))
  }

  /** `t` occurs in `s` starting at index `i`. */
  predicate OccursAt(s: string, t: string, i: int) {
    0 <= i <= |s| - |t| && s[i..i + |t|] == t
  }

  /** `Contains` is the existence of an occurrence. */
  lemma {:induction false} ContainsIff(s: string, t: string)
    ensures Contains(s, t) <==> exists i :: OccursAt(s, t, i)
    decreases |s|
  {
    if StartsWith(s, t) {
      assert OccursAt(s, t, 0);
    } else if |s| > 0 {
      ContainsIff(s[1..], t);
      if Contains(s[1..], t) {
        var i :| OccursAt(s[1..], t, i);
        assert s[1..][i..i + |t|] == s[i + 1..i + 1 + |t|];
        assert OccursAt(s, t, i + 1);
      }
      if exists i :: OccursAt(s, t, i) {
        var i :| OccursAt(s, t, i);
        assert s[1..][i - 1..i - 1 + |t|] == s[i..i + |t|];
        assert OccursAt(s[1..], t, i - 1);
      }
    }
  }

  /** An occurrence inside a piece of a concatenation is an occurrence in the whole. */
  lemma ContainsInConcat(a: string, b: string, c: string, t: string)
    requires Contains(b, t)
    ensures Contains(a + b + c, t)
  {
    ContainsIff(b, t);
    var i :| OccursAt(b, t, i);
    var s := a + b + c;
    assert s[|a| + i..|a| + i + |t|] == b[i..i + |t|];
    assert OccursAt(s, t, |a| + i);
    ContainsIff(s, t);
  }

  /** An occurrence of a `t` free of `sep` cannot span a `sep` character. */
  lemma ContainsAcrossSeparator(a: string, sep: char, b: string, t: string)
    requires sep !in t
    requires Contains(a + [sep] + b, t)
    ensures Contains(a, t) || Contains(b, t)
  {
    var s := a + [sep] + b;
    ContainsIff(s, t);
    var i :| OccursAt(s, t, i);
    assert s[|a|] == sep;
    assert forall k :: i <= k < i + |t| ==> s[k] == t[k - i];
    assert !(i <= |a| < i + |t|);
    if i + |t| <= |a| {
      assert a[i..i + |t|] == s[i..i + |t|];
      assert OccursAt(a, t, i);
      ContainsIff(a, t);
    } else {
      var j := i - |a| - 1;
      assert s[i..i + |t|] == t;
      assert |a| + 1 + j == i;
      assert b[j..j + |t|] == s[|a| + 1 + j..|a| + 1 + j + |t|] by {
        assert s[|a| + 1..] == b;
      }
      assert OccursAt(b, t, j);
      ContainsIff(b, t);
    }
  }

  /** `s.split(sep)`: always at least one piece, pieces never hold `sep`. */
  function Split(s: string, sep: char): (r: seq<string>)
    ensures |r| >= 1
    ensures forall k :: 0 <= k < |r| ==> sep !in r[k]
  {
    if |s| == 0 then [""]
    else
      var rest := Split(s[1..], sep);
      if s[0] == sep then [""] + rest else [[s[0]] + rest[0]] + rest[1..]
  }

  /** `sep.join(pieces)`. */
  function Join(pieces: seq<string>, sep: char): string
    requires |pieces| >= 1
  {
    if |pieces| == 1 then pieces[0] else pieces[0] + [sep] + Join(pieces[1..], sep)
  }

  /** Splitting loses nothing: joining the pieces back gives the text. */
  lemma {:induction false} SplitJoin(s: string, sep: char)
    ensures Join(Split(s, sep), sep) == s
  {
    if |s| > 0 {
      var rest := Split(s[1..], sep);
      SplitJoin(s[1..], sep);
      if s[0] == sep {
        assert Split(s, sep)[1..] == rest;
        assert s == [sep] + s[1..];
      } else {
        var r := Split(s, sep);
        if |rest| == 1 {
          assert r == [[s[0]] + rest[0]];
        } else {
          assert r[1..] == rest[1..];
          assert Join(rest, sep) == rest[0] + [sep] + Join(rest[1..], sep);
        }
        assert s == [s[0]] + s[1..];
      }
    }
  }

  /** `s.replace(t, "")`: occurrences removed left to right, without overlap. */
  function RemoveAll(s: string, t: string): (r: string)
    requires |t| > 0
    ensures |r| <= |s|
    decreases |s|
  {
    if StartsWith(s, t) then RemoveAll(s[|t|..], t)
    else if |s| == 0 then []
    else [s[0]] + RemoveAll(s[1..], t)
  }

  predicate IsDigit(c: char) {
    '0' <= c <= '9'
  }

  function DigitValue(c: char): (r: nat)
    requires IsDigit(c)
    ensures r < 10
  {
    c as int - '0' as int
  }

  function DigitChar(d: nat): (c: char)
    requires d < 10
    ensures IsDigit(c) && DigitValue(c) == d
  {
    ('0' as int + d) as char
  }

  /** Decimal value of a run of ASCII digits. */
  function DecimalValue(s: string): (r: nat)
    requires forall k :: 0 <= k < |s| ==> IsDigit(s[k])
  {
    if |s| == 0 then 0 else DecimalValue(s[..|s| - 1]) * 10 + DigitValue(s[|s| - 1])
  }

  /** `str(n)` for a natural number: shortest decimal form. */
  function NatToString(n: nat): (r: string)
    ensures |r| >= 1
    ensures forall k :: 0 <= k < |r| ==> IsDigit(r[k])
    decreases n
  {
    if n < 10 then [DigitChar(n)] else NatToString(n / 10) + [DigitChar(n % 10)]
  }

  /** Decimal formatting and reading back are inverse. */
  lemma {:induction false} NatToStringValue(n: nat)
    ensures DecimalValue(NatToString(n)) == n
    decreases n
  {
    if n >= 10 {
      NatToStringValue(n / 10);
      var r := NatToString(n);
      assert r[..|r| - 1] == NatToString(n / 10);
    }
  }

  /** `n` written with exactly `width` digits, zero-padded on the left
      (`%02d`, `%04d`); requires `n` to fit. */
  function PadDigits(n: nat, width: nat): (r: string)
    ensures |r| == width
    ensures forall k :: 0 <= k < |r| ==> IsDigit(r[k])
    decreases width
  {
    if width == 0 then [] else PadDigits(n / 10, width - 1) + [DigitChar(n % 10)]
  }

  function Pow10(k: nat): (r: nat)
    ensures r >= 1
  {
    if k == 0 then 1 else 10 * Pow10(k - 1)
  }

  /** Reading the padded digits gives the number back when it fits. */
  lemma {:induction false} PadDigitsValue(n: nat, width: nat)
    requires n < Pow10(width)
    ensures DecimalValue(PadDigits(n, width)) == n
    decreases width
  {
    if width > 0 {
      PadDigitsValue(n / 10, width - 1);
      var r := PadDigits(n, width);
      assert r[..|r| - 1] == PadDigits(n / 10, width - 1);
    }
  }

  /** Python's `str.__lt__`/`__eq__` order: code point by code point, a
      proper prefix first. `LessEq(a, b)` is `a <= b`. */
  predicate LessEq(a: string, b: string)
    decreases |a|
  {
    |a| == 0 || (|b| > 0 && (a[0] < b[0] || (a[0] == b[0] && LessEq(a[1..], b[1..]))))
  }

  lemma {:induction false} LessEqTotal(a: string, b: string)
    ensures LessEq(a, b) || LessEq(b, a)
    decreases |a|
  {
    if |a| > 0 && |b| > 0 && a[0] == b[0] {
      LessEqTotal(a[1..], b[1..]);
    }
  }

  lemma {:induction false} LessEqReflexive(a: string)
    ensures LessEq(a, a)
    decreases |a|
  {
    if |a| > 0 {
      LessEqReflexive(a[1..]);
    }
  }

  lemma {:induction false} LessEqTransitive(a: string, b: string, c: string)
    requires LessEq(a, b) && LessEq(b, c)
    ensures LessEq(a, c)
    decreases |a|
  {
    if |a| > 0 && a[0] == b[0] && b[0] == c[0] {
      LessEqTransitive(a[1..], b[1..], c[1..]);
    }
  }

  lemma {:induction false} LessEqAntisymmetric(a: string, b: string)
    requires LessEq(a, b) && LessEq(b, a)
    ensures a == b
    decreases |a|
  {
    if |a| > 0 {
      LessEqAntisymmetric(a[1..], b[1..]);
      assert a == [a[0]] + a[1..] && b == [b[0]] + b[1..];
    }
  }
}
