/** JavaScript value semantics that the EduSync code relies on, stated on
    exact values: truthiness of optional fields, ASCII `toLowerCase`,
    `startsWith` / `includes`, `Math.round`, `Number.prototype.toFixed(1)`,
    and `String.prototype.split(sep).length`. */
module Js {

  datatype Option<T> = None | Some(value: T)

  /** Database row identifiers. Auto-increment ids start at 1, so the only
      falsy id is an absent one (None). */
  type Id = n: nat | n > 0 witness 1

  /** `x || 0` for an optional number: null, undefined and 0 all give 0. */
  function OrZero(x: Option<real>): (r: real)
    ensures x.None? ==> r == 0.0
    ensures x.Some? ==> r == x.value
  {
    if x.Some? then x.value else 0.0
  }

  /** `s || d` for an optional string: null, undefined and "" give `d`. */
  function OrElse(s: Option<string>, d: string): (r: string)
    ensures r == d || (s.Some? && r == s.value && r != "")
    ensures s.Some? && s.value != "" ==> r == s.value
  {
    if s.Some? && s.value != "" then s.value else d
  }

  /** Truthiness of an optional string (`!s` is its negation). */
  predicate Filled(s: Option<string>) {
    s.Some? && s.value != ""
  }

  // ---------------------------------------------------------------------
  // Characters and strings

  function LowerChar(c: char): char {
    if 'A' <= c <= 'Z' then (c as int + 32) as char else c
  }

  /** `toLowerCase()`, restricted to the ASCII letters. */
  function ToLower(s: string): (r: string)
    ensures |r| == |s|
    ensures forall i :: 0 <= i < |s| ==> r[i] == LowerChar(s[i])
  {
    if s == [] then [] else [LowerChar(s[0])] + ToLower(s[1..])
  }

  lemma {:induction false} ToLowerAppend(a: string, b: string)
    ensures ToLower(a + b) == ToLower(a) + ToLower(b)
  {
    if a == [] {
      assert a + b == b;
    } else {
      var ab := a + b;
      assert ab[0] == a[0] && ab[1..] == a[1..] + b;
      ToLowerAppend(a[1..], b);
      assert ToLower(ab) == [LowerChar(a[0])] + ToLower(ab[1..]);
    }
  }

  lemma ToLowerIdempotent(s: string)
    ensures ToLower(ToLower(s)) == ToLower(s)
  {
    assert forall i :: 0 <= i < |s| ==> LowerChar(LowerChar(s[i])) == LowerChar(s[i]);
  }

  predicate StartsWith(s: string, p: string) {
    |p| <= |s| && s[..|p|] == p
  }

  lemma StartsWithChar(s: string, c: char)
    ensures StartsWith(s, [c]) <==> |s| >= 1 && s[0] == c
  {
    if |s| >= 1 {
      assert s[..1] == [s[0]];
    }
  }

  /** `s.includes(sub)`, as the left-to-right scan a string library does. */
  function Includes(s: string, sub: string): bool
    decreases |s|
  {
    if StartsWith(s, sub) then true
    else if s == [] then false
    else Includes(s[1..], sub)
  }

  /** `sub` occurs in `s` starting at offset `i`. */
  predicate OccursAt(s: string, sub: string, i: int) {
    0 <= i <= |s| - |sub| && s[i..i + |sub|] == sub
  }

  /** An occurrence at a positive offset is an occurrence one place earlier
      in the tail. */
  lemma OccursAtTail(s: string, sub: string, i: int)
    requires s != [] && i > 0
    ensures OccursAt(s, sub, i) <==> OccursAt(s[1..], sub, i - 1)
  {
    if 0 < i <= |s| - |sub| {
      assert s[i..i + |sub|] == s[1..][i - 1..i - 1 + |sub|];
    }
  }

  /** `s.includes(sub)` holds exactly when `sub` occurs at some offset of `s`. */
  lemma {:induction false} IncludesIff(s: string, sub: string)
    ensures Includes(s, sub) <==> exists i :: OccursAt(s, sub, i)
    decreases |s|
  {
    if StartsWith(s, sub) {
      assert OccursAt(s, sub, 0);
    } else if s == [] {
      assert forall i :: !OccursAt(s, sub, i);
    } else {
      IncludesIff(s[1..], sub);
      if Includes(s[1..], sub) {
        var i :| OccursAt(s[1..], sub, i);
        OccursAtTail(s, sub, i + 1);
      } else {
        forall i | OccursAt(s, sub, i)
          ensures false
        {
          if i > 0 {
            OccursAtTail(s, sub, i);
          }
        }
      }
    }
  }

  /** Every string includes the empty string, so an empty search keeps everything. */
  lemma IncludesEmpty(s: string)
    ensures Includes(s, "")
  {
  }

  /** The characters of the regular-expression class `\s` (ECMAScript
      WhiteSpace and LineTerminator code points). */
  predicate IsWhitespace(c: char) {
    || c == ' ' || c == '\t' || c == '\n' || c == '\r'
    || c == '\U{000B}' || c == '\U{000C}' || c == '\U{00A0}' || c == '\U{1680}'
    || ('\U{2000}' <= c <= '\U{200A}')
    || c == '\U{2028}' || c == '\U{2029}' || c == '\U{202F}' || c == '\U{205F}'
    || c == '\U{3000}' || c == '\U{FEFF}'
  }

  /** `s.split(sep).length` for a one-character separator: one more than the
      number of separators. */
  function SplitCount(s: string, sep: char): (n: nat)
    ensures n >= 1
    ensures n == 1 <==> sep !in s
  {
    if s == [] then 1
    else SplitCount(s[1..], sep) + (if s[0] == sep then 1 else 0)
  }

  // ---------------------------------------------------------------------
  // Numbers

  /** `Math.round` on an exact value: the nearest integer, ties upwards. */
  function Round(x: real): int {
    (x + 0.5).Floor
  }

  lemma RoundBounds(x: real, lo: int, hi: int)
    requires lo as real <= x <= hi as real
    ensures lo <= Round(x) <= hi
  {
  }

  lemma RoundInt(k: int)
    ensures Round(k as real) == k
  {
  }

  function DigitChar(d: nat): (c: char)
    requires d < 10
    ensures '0' <= c <= '9'
  {
    ('0' as int + d) as char
  }

  /** Decimal rendering of a natural number, most significant digit first. */
  function NatToString(n: nat): (s: string)
    ensures |s| >= 1
    ensures forall i :: 0 <= i < |s| ==> '0' <= s[i] <= '9'
  {
    if n < 10 then [DigitChar(n)] else NatToString(n / 10) + [DigitChar(n % 10)]
  }

  /** The value of a string of decimal digits. */
  function DigitsValue(s: string): nat
    requires forall i :: 0 <= i < |s| ==> '0' <= s[i] <= '9'
  {
    if s == [] then 0 else 10 * DigitsValue(s[..|s| - 1]) + (s[|s| - 1] as int - '0' as int)
  }

  /** Reading back the rendering of `n` gives `n`. */
  lemma {:induction false} NatToStringRoundTrip(n: nat)
    ensures DigitsValue(NatToString(n)) == n
  {
    if n >= 10 {
      NatToStringRoundTrip(n / 10);
      var s := NatToString(n);
      assert s[..|s| - 1] == NatToString(n / 10);
    }
  }

  /** The rendering of a non-negative number to one decimal, given its value
      in tenths (already rounded). */
  function Tenths(n: nat): (s: string)
    ensures |s| >= 3 && s[|s| - 2] == '.'
    ensures '0' <= s[0] <= '9'
  {
    NatToString(n / 10) + "." + [DigitChar(n % 10)]
  }

  /** `x.toFixed(1)` on an exact value: a '-' for negative values, then the
      magnitude rounded to the nearest tenth, ties away from zero. */
  function ToFixed1(x: real): (s: string)
    ensures |s| >= 3
  {
    if x < 0.0 then "-" + Tenths(((-x) * 10.0 + 0.5).Floor)
    else Tenths((x * 10.0 + 0.5).Floor)
  }

  /** The rendering starts with '-' exactly for negative values and otherwise
      with a digit. */
  lemma ToFixed1Sign(x: real)
    ensures StartsWith(ToFixed1(x), "-") <==> x < 0.0
    ensures x < 0.0 ==> ToFixed1(x)[0] == '-'
    ensures x >= 0.0 ==> '0' <= ToFixed1(x)[0] <= '9'
  {
    StartsWithChar(ToFixed1(x), '-');
  }

  lemma FloorOfHalfAbove(m: int)
    ensures (m as real + 0.5).Floor == m
  {
  }

  lemma ToFixed1NonNegative(x: real)
    requires x >= 0.0
    ensures ToFixed1(x) == Tenths((x * 10.0 + 0.5).Floor)
  {
  }

  lemma TenthsOfWhole(k: nat)
    ensures Tenths(10 * k) == NatToString(k) + ".0"
  {
    var n: nat := 10 * k;
    assert n / 10 == k && n % 10 == 0;
    assert "." + [DigitChar(0)] == ".0";
  }

  /** An integer renders with a single trailing zero decimal. */
  lemma ToFixed1Nat(k: nat)
    ensures ToFixed1(k as real) == NatToString(k) + ".0"
  {
    var x := k as real;
    assert x * 10.0 + 0.5 == (10 * k) as real + 0.5;
    FloorOfHalfAbove(10 * k);
    var m := (x * 10.0 + 0.5).Floor;
    assert m == 10 * k;
    ToFixed1NonNegative(x);
    TenthsOfWhole(k);
  }

  // ---------------------------------------------------------------------
  // Sums (the `reduce((sum, x) => sum + f(x), 0)` idiom)

  function Sum<T>(xs: seq<T>, f: T -> real): real
  {
    if xs == [] then 0.0 else Sum(xs[..|xs| - 1], f) + f(xs[|xs| - 1])
  }

  lemma {:induction false} SumConcat<T>(xs: seq<T>, ys: seq<T>, f: T -> real)
    ensures Sum(xs + ys, f) == Sum(xs, f) + Sum(ys, f)
    decreases |ys|
  {
    if ys == [] {
      assert xs + ys == xs;
    } else {
      var zs := xs + ys;
      assert zs[..|zs| - 1] == xs + ys[..|ys| - 1];
      SumConcat(xs, ys[..|ys| - 1], f);
    }
  }

  lemma {:induction false} SumNonNegative<T>(xs: seq<T>, f: T -> real)
    requires forall x :: x in xs ==> f(x) >= 0.0
    ensures Sum(xs, f) >= 0.0
    decreases |xs|
  {
    if xs != [] {
      assert forall x :: x in xs[..|xs| - 1] ==> x in xs;
      SumNonNegative(xs[..|xs| - 1], f);
    }
  }

  /** Number of elements satisfying `p`. */
  function Count<T>(xs: seq<T>, p: T -> bool): (n: nat)
    ensures n <= |xs|
  {
    if xs == [] then 0 else Count(xs[..|xs| - 1], p) + (if p(xs[|xs| - 1]) then 1 else 0)
  }

  lemma {:induction false} CountComplement<T>(xs: seq<T>, p: T -> bool, q: T -> bool)
    requires forall x :: x in xs ==> (q(x) <==> !p(x))
    ensures Count(xs, p) + Count(xs, q) == |xs|
    decreases |xs|
  {
    if xs != [] {
      assert forall x :: x in xs[..|xs| - 1] ==> x in xs;
      CountComplement(xs[..|xs| - 1], p, q);
    }
  }
}
