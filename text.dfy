/**
 * String helpers with JavaScript's meaning: number-to-decimal conversion,
 * `padStart(2, '0')`, ASCII case mapping, `includes`, `join`, `replace`
 * of a first occurrence, and the code-unit order used to sort keys.
 */
module Text {

  predicate IsDigit(c: char)
  {
    '0' <= c <= '9'
  }

  predicate AllDigits(s: string)
  {
    forall i :: 0 <= i < |s| ==> IsDigit(s[i])
  }

  function DigitChar(n: int): (c: char)
    requires 0 <= n < 10
    ensures IsDigit(c) && c as int - '0' as int == n
  {
    ('0' as int + n) as char
  }

  function DigitValue(c: char): int
    requires IsDigit(c)
  {
    c as int - '0' as int
  }

  /** Digits in canonical form, as `toString` prints a natural number: at least one digit, and no leading zero. */
  predicate CanonicalDigits(s: string)
  {
    |s| >= 1 && AllDigits(s) && (|s| == 1 || s[0] != '0')
  }

  /** Decimal text of a natural number without leading zeros (`n.toString()`). */
  function NatToDecimal(n: nat): (s: string)
    ensures CanonicalDigits(s)
    ensures s[0] == '0' <==> n == 0
    ensures n < 10 <==> |s| == 1
  {
    if n < 10 then [DigitChar(n)] else NatToDecimal(n / 10) + [DigitChar(n % 10)]
  }

  /** Decimal text of an integer, with a leading `-` when negative. */
  function IntToDecimal(n: int): string
  {
    if n < 0 then "-" + NatToDecimal(-n) else NatToDecimal(n)
  }

  /** `s.padStart(2, '0')`: zeros on the left up to length two; longer text is kept whole. */
  function PadStart2(s: string): string
  {
    if |s| == 0 then "00" else if |s| == 1 then "0" + s else s
  }

  /** `n.toString().padStart(2, '0')`: at least two digits, never truncated. */
  function Pad2(n: nat): (s: string)
    ensures AllDigits(s)
    ensures n < 100 ==> |s| == 2 && DigitValue(s[0]) * 10 + DigitValue(s[1]) == n
  {
    assert 10 <= n < 100 ==> NatToDecimal(n) == NatToDecimal(n / 10) + [DigitChar(n % 10)];
    PadStart2(NatToDecimal(n))
  }

  /** Exactly `width` digits, left-padded with zeros; `n` must fit. */
  function PadDigits(n: nat, width: nat): (s: string)
    ensures |s| == width && AllDigits(s)
    decreases width
  {
    if width == 0 then [] else PadDigits(n / 10, width - 1) + [DigitChar(n % 10)]
  }

  /** The value of a string of digits read as a decimal numeral. */
  function DecimalValue(s: string): nat
    requires AllDigits(s)
  {
    if s == [] then 0 else DecimalValue(s[..|s| - 1]) * 10 + DigitValue(s[|s| - 1])
  }

  /** `NatToDecimal` is read back by `DecimalValue`. */
  lemma {:induction false} NatToDecimalValue(n: nat)
    ensures DecimalValue(NatToDecimal(n)) == n
  {
    var s := NatToDecimal(n);
    if n >= 10 {
      NatToDecimalValue(n / 10);
      assert s[..|s| - 1] == NatToDecimal(n / 10);
    }
  }

  /** Canonical digits are the decimal text of their own value: no other text of digits without a leading zero reads back the same. */
  lemma {:induction false} CanonicalDigitsAreDecimal(s: string)
    requires CanonicalDigits(s)
    ensures NatToDecimal(DecimalValue(s)) == s
  {
    var v := DecimalValue(s);
    if |s| > 1 {
      var p := s[..|s| - 1];
      assert p[0] == s[0];
      LeadingDigitBound(p);
      CanonicalDigitsAreDecimal(p);
      assert v / 10 == DecimalValue(p) && v % 10 == DigitValue(s[|s| - 1]);
      assert s == p + [s[|s| - 1]];
    }
  }

  /** A numeral is worth at least its leading digit. */
  lemma {:induction false} LeadingDigitBound(s: string)
    requires |s| >= 1 && AllDigits(s)
    ensures DecimalValue(s) >= DigitValue(s[0])
  {
    if |s| > 1 {
      var p := s[..|s| - 1];
      assert p[0] == s[0];
      LeadingDigitBound(p);
    }
  }

  /** Two canonical numerals with the same value are the same text. */
  lemma {:induction false} CanonicalDigitsUnique(a: string, b: string)
    requires CanonicalDigits(a) && CanonicalDigits(b) && DecimalValue(a) == DecimalValue(b)
    ensures a == b
  {
    CanonicalDigitsAreDecimal(a);
    CanonicalDigitsAreDecimal(b);
  }

  function Pow10(k: nat): (p: nat)
    ensures p >= 1
  {
    if k == 0 then 1 else 10 * Pow10(k - 1)
  }

  /** A number that fits in `width` digits reads back from its zero-padded form. */
  lemma {:induction false} PadDigitsValue(n: nat, width: nat)
    requires n < Pow10(width)
    ensures DecimalValue(PadDigits(n, width)) == n
    decreases width
  {
    if width > 0 {
      var s := PadDigits(n, width);
      assert s[..|s| - 1] == PadDigits(n / 10, width - 1);
      PadDigitsValue(n / 10, width - 1);
    }
  }

  /** Two digits read as a decimal numeral. */
  lemma {:induction false} DecimalValue2(s: string)
    requires |s| == 2 && AllDigits(s)
    ensures DecimalValue(s) == DigitValue(s[0]) * 10 + DigitValue(s[1])
  {
    assert s[..1][..0] == [];
    assert DecimalValue(s[..1]) == DigitValue(s[0]);
  }

  /** A number with exactly `width` digits prints as its `width`-digit zero-padded form. */
  lemma {:induction false} NatToDecimalWidth(n: nat, width: nat)
    requires width >= 1 && (width == 1 || Pow10(width - 1) <= n) && n < Pow10(width)
    ensures NatToDecimal(n) == PadDigits(n, width)
  {
    if width > 1 {
      assert Pow10(width - 1) == 10 * Pow10(width - 2);
      assert n / 10 < Pow10(width - 1);
      NatToDecimalWidth(n / 10, width - 1);
    } else {
      assert PadDigits(n / 10, 0) == [];
    }
  }

  /**
   * A key made of a four-digit year, a separator and a two-digit number
   * sorts as the pair (year, number) does, and names that pair alone.
   */
  lemma {:induction false} DatedKeyOrder(y1: nat, n1: nat, y2: nat, n2: nat, sep: string)
    requires 1000 <= y1 <= 9999 && 1000 <= y2 <= 9999 && n1 < 100 && n2 < 100
    ensures var k1, k2 := NatToDecimal(y1) + sep + Pad2(n1), NatToDecimal(y2) + sep + Pad2(n2);
      && (LexLess(k1, k2) <==> y1 < y2 || (y1 == y2 && n1 < n2))
      && (k1 == k2 <==> y1 == y2 && n1 == n2)
  {
    var a1, a2 := NatToDecimal(y1), NatToDecimal(y2);
    var m1, m2 := Pad2(n1), Pad2(n2);
    assert |a1| == 4 && |a2| == 4 by {
      assert Pow10(3) == 1000 && Pow10(4) == 10000;
      NatToDecimalWidth(y1, 4);
      NatToDecimalWidth(y2, 4);
    }
    NatToDecimalValue(y1);
    NatToDecimalValue(y2);
    DecimalValue2(m1);
    DecimalValue2(m2);
    var k1, k2 := a1 + sep + m1, a2 + sep + m2;
    assert LexLess(k1, k2) <==> y1 < y2 || (y1 == y2 && n1 < n2) by {
      assert k1 == a1 + (sep + m1) && k2 == a2 + (sep + m2);
      LexLessAppend(a1, sep + m1, a2, sep + m2);
      LexLessAppend(sep, m1, sep, m2);
      LexLessIrreflexive(sep);
      LexLessDigits(a1, a2);
      LexLessDigits(m1, m2);
    }
    if k1 == k2 {
      assert a1 == k1[..4] && a2 == k2[..4];
      assert m1 == k1[|k1| - 2..] && m2 == k2[|k2| - 2..];
    }
  }

  /** The total order `localeCompare` sorts by: any two keys compare, and the comparison chains. */
  lemma {:induction false} LexLessEqOrder()
    ensures forall a, b :: LexLessEq(a, b) || LexLessEq(b, a)
    ensures forall a, b, c :: LexLessEq(a, b) && LexLessEq(b, c) ==> LexLessEq(a, c)
  {
    forall a, b
      ensures LexLessEq(a, b) || LexLessEq(b, a)
    {
      LexLessTotal(a, b);
    }
    forall a, b, c | LexLessEq(a, b) && LexLessEq(b, c)
      ensures LexLessEq(a, c)
    {
      if LexLess(a, b) && LexLess(b, c) {
        LexLessTransitive(a, b, c);
      }
    }
  }

  /** JavaScript's `toUpperCase` on ASCII letters. */
  function UpperChar(c: char): char
  {
    if 'a' <= c <= 'z' then (c as int - 32) as char else c
  }

  /** JavaScript's `toLowerCase` on ASCII letters. */
  function LowerChar(c: char): char
  {
    if 'A' <= c <= 'Z' then (c as int + 32) as char else c
  }

  function ToLower(s: string): (r: string)
    ensures |r| == |s|
    ensures forall i :: 0 <= i < |s| ==> r[i] == LowerChar(s[i])
  {
    seq(|s|, i requires 0 <= i < |s| => LowerChar(s[i]))
  }

  /** `s.charAt(0).toUpperCase() + s.slice(1)`. */
  function Capitalize(s: string): (r: string)
    ensures |r| == |s|
    ensures s != [] ==> r[0] == UpperChar(s[0]) && r[1..] == s[1..]
  {
    if s == [] then [] else [UpperChar(s[0])] + s[1..]
  }

  /** `hay.includes(needle)`: `needle` occurs in `hay` at some offset. */
  predicate Includes(hay: string, needle: string)
  {
    exists i :: 0 <= i <= |hay| - |needle| && OccursAt(hay, needle, i)
  }

  predicate OccursAt(hay: string, needle: string, i: int)
    requires 0 <= i <= |hay| - |needle|
  {
    hay[i..i + |needle|] == needle
  }

  lemma {:induction false} IncludesEmpty(hay: string)
    ensures Includes(hay, "")
  {
    assert OccursAt(hay, "", 0);
  }

  /** `parts.join(sep)`. */
  function Join(parts: seq<string>, sep: string): (r: string)
    ensures parts == [] ==> r == ""
  {
    if |parts| == 0 then ""
    else if |parts| == 1 then parts[0]
    else parts[0] + sep + Join(parts[1..], sep)
  }

  /** `s.replace(old, new)` with a string pattern: only the first occurrence is replaced. */
  function ReplaceFirst(s: string, pat: string, rep: string): string
    requires pat != []
    decreases |s|
  {
    if |s| < |pat| then s
    else if s[..|pat|] == pat then rep + s[|pat|..]
    else [s[0]] + ReplaceFirst(s[1..], pat, rep)
  }

  /**
   * When the pattern cannot start inside `a` (its second character does not
   * occur in `a` and differs from its first), the first occurrence in
   * `a + pat + c` is the one after `a`.
   */
  lemma {:induction false} ReplaceFirstAfter(a: string, pat: string, c: string, rep: string)
    requires |pat| >= 2 && pat[1] != pat[0] && pat[1] !in a
    ensures ReplaceFirst(a + pat + c, pat, rep) == a + rep + c
    decreases |a|
  {
    var s := a + pat + c;
    if a == [] {
      assert s == pat + c;
      assert s[..|pat|] == pat && s[|pat|..] == c;
    } else {
      var tail := a[1..] + pat + c;
      assert s == [a[0]] + tail;
      assert s[1] == (if |a| > 1 then a[1] else pat[0]);
      assert s[..|pat|][1] != pat[1];
      assert s[..|pat|] != pat;
      assert s[1..] == tail;
      ReplaceFirstAfter(a[1..], pat, c, rep);
      assert ReplaceFirst(s, pat, rep) == [a[0]] + ReplaceFirst(tail, pat, rep);
      assert [a[0]] + (a[1..] + rep + c) == a + rep + c;
    }
  }

  /** Code-unit lexicographic order, the order `localeCompare` gives on the ASCII keys here. */
  predicate LexLess(a: string, b: string)
    decreases |a|
  {
    if a == [] then b != []
    else if b == [] then false
    else if a[0] != b[0] then a[0] < b[0]
    else LexLess(a[1..], b[1..])
  }

  predicate LexLessEq(a: string, b: string)
  {
    a == b || LexLess(a, b)
  }

  lemma {:induction false} LexLessIrreflexive(a: string)
    ensures !LexLess(a, a)
    decreases |a|
  {
    if a != [] {
      LexLessIrreflexive(a[1..]);
    }
  }

  lemma {:induction false} LexLessTotal(a: string, b: string)
    ensures a == b || LexLess(a, b) || LexLess(b, a)
    decreases |a|
  {
    if a != [] && b != [] && a[0] == b[0] {
      LexLessTotal(a[1..], b[1..]);
      if a[1..] == b[1..] {
        assert a == [a[0]] + a[1..] && b == [b[0]] + b[1..];
      }
    }
  }

  lemma {:induction false} LexLessTransitive(a: string, b: string, c: string)
    requires LexLess(a, b) && LexLess(b, c)
    ensures LexLess(a, c)
    decreases |a|
  {
    if a != [] && b != [] && c != [] && a[0] == b[0] && b[0] == c[0] {
      LexLessTransitive(a[1..], b[1..], c[1..]);
    }
  }

  lemma {:induction false} LexLessAsymmetric(a: string, b: string)
    requires LexLess(a, b)
    ensures !LexLess(b, a)
    decreases |a|
  {
    if a != [] && b != [] && a[0] == b[0] {
      LexLessAsymmetric(a[1..], b[1..]);
    }
  }

  /** Comparing two strings whose first parts have equal length: the first parts decide unless they are equal. */
  lemma {:induction false} LexLessAppend(a: string, b: string, c: string, d: string)
    requires |a| == |c|
    ensures LexLess(a + b, c + d) <==> LexLess(a, c) || (a == c && LexLess(b, d))
    decreases |a|
  {
    if a != [] {
      assert (a + b)[0] == a[0] && (c + d)[0] == c[0];
      assert (a + b)[1..] == a[1..] + b && (c + d)[1..] == c[1..] + d;
      LexLessAppend(a[1..], b, c[1..], d);
      if a[0] == c[0] && a[1..] == c[1..] {
        assert a == [a[0]] + a[1..] && c == [c[0]] + c[1..];
      }
    } else {
      assert a + b == b && c + d == d;
    }
  }

  /** On digit strings of one length, code-unit order is numeric order. */
  lemma {:induction false} LexLessDigits(a: string, b: string)
    requires |a| == |b| && AllDigits(a) && AllDigits(b)
    ensures LexLess(a, b) <==> DecimalValue(a) < DecimalValue(b)
    decreases |a|
  {
    if a != [] {
      var n := |a| - 1;
      assert a == a[..n] + [a[n]] && b == b[..n] + [b[n]];
      LexLessAppend(a[..n], [a[n]], b[..n], [b[n]]);
      LexLessDigits(a[..n], b[..n]);
      LexLessDigits(b[..n], a[..n]);
      LexLessTotal(a[..n], b[..n]);
    }
  }
}
