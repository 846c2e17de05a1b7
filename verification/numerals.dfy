/** JavaScript's `n.toString(base)` for a natural number, and `padStart`. */
module Numerals {
  import opened StringOrder
  import opened Rank
  import opened Arithmetic

  /** The lower-case digit of value d, in bases up to 36. */
  function NumeralDigit(d: nat): (c: char)
    requires d < 36
    ensures IsDigit(c)
  {
    if d < 10 then '0' + d as char else 'a' + (d - 10) as char
  }

  lemma NumeralDigitsAreOrdered(d: nat, e: nat)
    requires d < 36 && e < 36
    ensures NumeralDigit(d) < NumeralDigit(e) <==> d < e
    ensures NumeralDigit(d) == NumeralDigit(e) <==> d == e
  {
  }

  function Numeral(n: nat, base: nat): (s: string)
    requires 2 <= base <= 36
    ensures s != ""
  {
    if n < base then [NumeralDigit(n)]
    else DivDecreases(n, base); Numeral(n / base, base) + [NumeralDigit(n % base)]
  }

  function PadStart(s: string, width: nat): string {
    if |s| >= width then s else Zeros(width - |s|) + s
  }

  function Pow(base: nat, e: nat): nat {
    if e == 0 then 1 else base * Pow(base, e - 1)
  }

  /** n written with exactly `width` digits. */
  function Fixed(n: nat, base: nat, width: nat): (s: string)
    requires 2 <= base <= 36
    ensures |s| == width && Alphabet(s)
  {
    if width == 0 then "" else Fixed(n / base, base, width - 1) + [NumeralDigit(n % base)]
  }

  lemma {:induction false} FixedZero(base: nat, width: nat)
    requires 2 <= base <= 36
    ensures Fixed(0, base, width) == Zeros(width)
  {
    if width > 0 {
      FixedZero(base, width - 1);
      assert Zeros(width) == Zeros(width - 1) + "0";
    }
  }

  lemma PadSnoc(s: string, c: char, width: nat)
    requires width > 0
    ensures PadStart(s + [c], width) == PadStart(s, width - 1) + [c]
  {
    if |s| + 1 < width {
      assert Zeros(width - |s| - 1) + (s + [c]) == (Zeros(width - |s| - 1) + s) + [c];
    }
  }

  lemma PadSmall(n: nat, base: nat, width: nat)
    requires 2 <= base <= 36 && width > 0 && n < base
    ensures PadStart(Numeral(n, base), width) == Fixed(n, base, width)
  {
    DivModUnique(n, base, 0, n);
    FixedZero(base, width - 1);
    if width == 1 {
      assert Zeros(0) + Numeral(n, base) == Numeral(n, base);
    }
  }

  lemma PowStep(n: nat, base: nat, e: nat)
    requires base > 0 && n < Pow(base, e + 1)
    ensures 0 <= n / base < Pow(base, e) && 0 <= n % base < base
    ensures e == 0 ==> n < base
  {
    DivBelow(n, base, Pow(base, e));
  }

  /** Padding the numeral gives the fixed-width form while the number fits the width. */
  lemma {:induction false} PaddedIsFixed(n: nat, base: nat, width: nat)
    requires 2 <= base <= 36 && width > 0 && n < Pow(base, width)
    ensures PadStart(Numeral(n, base), width) == Fixed(n, base, width)
    decreases width
  {
    PowStep(n, base, width - 1);
    if n < base {
      PadSmall(n, base, width);
    } else {
      PaddedIsFixed(n / base, base, width - 1);
      PadSnoc(Numeral(n / base, base), NumeralDigit(n % base), width);
    }
  }

  lemma {:induction false} LessSnoc(s: string, c: char, t: string, d: char)
    requires |s| == |t|
    ensures Less(s + [c], t + [d]) <==> Less(s, t) || (s == t && c < d)
    decreases |s|
  {
    if s == "" {
      assert s + [c] == [c] && t + [d] == [d];
    } else {
      LessSnoc(s[1..], c, t[1..], d);
      assert (s + [c])[1..] == s[1..] + [c] && (t + [d])[1..] == t[1..] + [d];
      assert s[0] == t[0] && s[1..] == t[1..] ==> s == [s[0]] + s[1..] == t;
    }
  }

  lemma FixedSnoc(q: nat, d: nat, p: nat, e: nat, base: nat, width: nat)
    requires 2 <= base <= 36 && d < base && e < base
    ensures var s, t := Fixed(q, base, width), Fixed(p, base, width);
            var c, b := NumeralDigit(d), NumeralDigit(e);
            && (Less(s + [c], t + [b]) <==> Less(s, t) || (s == t && d < e))
            && (s + [c] == t + [b] <==> s == t && d == e)
  {
    var s, t := Fixed(q, base, width), Fixed(p, base, width);
    var c, b := NumeralDigit(d), NumeralDigit(e);
    LessSnoc(s, c, t, b);
    NumeralDigitsAreOrdered(d, e);
    assert (s + [c])[..width] == s && (t + [b])[..width] == t;
    assert (s + [c])[width] == c && (t + [b])[width] == b;
  }

  /** Among fixed-width numerals string order is numeric order. */
  lemma {:induction false} FixedOrder(m: nat, n: nat, base: nat, width: nat)
    requires 2 <= base <= 36 && m < Pow(base, width) && n < Pow(base, width)
    ensures Less(Fixed(m, base, width), Fixed(n, base, width)) <==> m < n
    ensures Fixed(m, base, width) == Fixed(n, base, width) <==> m == n
    decreases width
  {
    if width > 0 {
      PowStep(m, base, width - 1);
      PowStep(n, base, width - 1);
      DivModOrder(m, n, base);
      var q: nat, p: nat := m / base, n / base;
      var d: nat, e: nat := m % base, n % base;
      FixedOrder(q, p, base, width - 1);
      FixedSnoc(q, d, p, e, base, width - 1);
    }
  }

  /** Different numbers have different numerals. */
  lemma {:induction false} NumeralInjective(m: nat, n: nat, base: nat)
    requires 2 <= base <= 36 && Numeral(m, base) == Numeral(n, base)
    ensures m == n
  {
    var s := Numeral(m, base);
    var last := |s| - 1;
    if m >= base {
      DivDecreases(m, base);
      assert s[..last] == Numeral(m / base, base) && s[last] == NumeralDigit(m % base);
    }
    if n >= base {
      DivDecreases(n, base);
      assert s[..last] == Numeral(n / base, base) && s[last] == NumeralDigit(n % base);
    }
    if m >= base && n >= base {
      NumeralInjective(m / base, n / base, base);
      NumeralDigitsAreOrdered(m % base, n % base);
      DivModOrder(m, n, base);
    } else if m < base && n < base {
      NumeralDigitsAreOrdered(m, n);
    }
  }

  // ---- reading numerals back ---------------------------------------------------

  function ParseDigit(c: char): nat {
    if '0' <= c <= '9' then (c - '0') as nat else if 'a' <= c <= 'z' then (c - 'a') as nat + 10 else 0
  }

  /** The number a string of digits spells, read from left to right after `read` has been read. */
  function Parse(s: string, base: nat, read: nat): nat {
    if s == "" then read else Parse(s[1..], base, read * base + ParseDigit(s[0]))
  }

  lemma {:induction false} ParseSnoc(s: string, c: char, base: nat, read: nat)
    ensures Parse(s + [c], base, read) == Parse(s, base, read) * base + ParseDigit(c)
  {
    if s == "" {
      assert s + [c] == [c] && [c][1..] == "";
    } else {
      assert (s + [c])[1..] == s[1..] + [c];
      ParseSnoc(s[1..], c, base, read * base + ParseDigit(s[0]));
    }
  }

  /** s is the usual way to write n: digits of the base, without a '0' in front. */
  predicate Spells(s: string, n: nat, base: nat) {
    && s != "" && (forall i | 0 <= i < |s| :: ParseDigit(s[i]) < base && ('0' <= s[i] <= '9' || 'a' <= s[i] <= 'z'))
    && (s[0] == '0' ==> |s| == 1)
    && Parse(s, base, 0) == n
  }

  lemma DigitSpells(d: nat, base: nat)
    requires d < base <= 36
    ensures Spells([NumeralDigit(d)], d, base) && (d > 0 ==> NumeralDigit(d) != '0')
  {
    assert [NumeralDigit(d)][1..] == "";
    assert Parse([NumeralDigit(d)], base, 0) == 0 * base + d;
  }

  lemma SpellsSnoc(s: string, q: nat, d: nat, base: nat)
    requires d < base <= 36 && Spells(s, q, base) && s[0] != '0'
    ensures Spells(s + [NumeralDigit(d)], q * base + d, base)
  {
    ParseSnoc(s, NumeralDigit(d), base, 0);
    assert ParseDigit(NumeralDigit(d)) == d;
  }

  lemma SplitNumber(n: nat, base: nat)
    requires 2 <= base <= n
    ensures 0 < n / base < n && n % base < base && n == n / base * base + n % base
  {
    DivDecreases(n, base);
  }

  lemma {:induction false} NumeralSpells(n: nat, base: nat)
    requires 2 <= base <= 36
    ensures Spells(Numeral(n, base), n, base)
    ensures n > 0 ==> Numeral(n, base)[0] != '0'
  {
    if n < base {
      DigitSpells(n, base);
    } else {
      SplitNumber(n, base);
      NumeralSpells(n / base, base);
      SpellsSnoc(Numeral(n / base, base), n / base, n % base, base);
    }
  }

  lemma {:induction false} ParsePadded(s: string, zeros: nat, base: nat)
    ensures Parse(Zeros(zeros) + s, base, 0) == Parse(s, base, 0)
  {
    if zeros == 0 {
      assert Zeros(0) + s == s;
    } else {
      assert (Zeros(zeros) + s)[1..] == Zeros(zeros - 1) + s;
      ParsePadded(s, zeros - 1, base);
    }
  }
}
