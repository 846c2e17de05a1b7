/** Ranks as base-62 fractions with an implied leading "0.". */
module RankValue {
  import opened Wrappers
  import opened StringOrder
  import opened Rank
  import opened RankLaws

  /** The fraction 0.s in base 62. */
  function Val(s: string): (v: real)
    ensures 0.0 <= v < 1.0
    decreases |s|
  {
    if s == "" then 0.0 else (Digit(s[0]) as real + Val(s[1..])) / 62.0
  }

  lemma ValCons(c: char, s: string)
    ensures Val([c] + s) * 62.0 == Digit(c) as real + Val(s)
  {
    assert ([c] + s)[1..] == s;
  }

  lemma ValOf(s: string)
    ensures Val(s) * 62.0 == (if s != "" then Digit(s[0]) else 0) as real + Val(Tail(s))
  {
  }

  /** Trailing '0's do not change the value. */
  lemma {:induction false} TrailingZerosKeepValue(a: string, b: string)
    requires ZeroExtends(a, b)
    ensures Val(a) == Val(b)
    decreases |b|
  {
    if b == "" {
      assert a == b;
    } else {
      ZeroExtendsStep(a, b);
      TrailingZerosKeepValue(Tail(a), Tail(b));
      ValOf(a);
      ValOf(b);
    }
  }

  /** Over the alphabet the order on strings is the order on values, then on lengths. */
  lemma {:induction false} OrderIsValueThenLength(a: string, b: string)
    requires Alphabet(a) && Alphabet(b)
    ensures Less(a, b) <==> Val(a) < Val(b) || (Val(a) == Val(b) && |a| < |b|)
    ensures Val(a) == Val(b) && |a| <= |b| ==> ZeroExtends(a, b)
    decreases |a| + |b|
  {
    ValOf(a);
    ValOf(b);
    if b == "" {
      assert |a| <= |b| ==> a == "" + Zeros(0);
    } else if a == "" {
      ZeroExtendsStep(a, b);
      OrderIsValueThenLength("", Tail(b));
      assert Val(b) == 0.0 ==> Digit(b[0]) == 0 && Val(Tail(b)) == 0.0;
      DigitsAreOrdered('0', b[0]);
    } else {
      DigitsAreOrdered(a[0], b[0]);
      ZeroExtendsStep(a, b);
      OrderIsValueThenLength(Tail(a), Tail(b));
    }
  }

  /** On canonical ranks the two orders coincide, and equal values mean equal ranks. */
  lemma CanonicalOrderIsValueOrder(a: string, b: string)
    requires Canonical(a) && Canonical(b)
    ensures Less(a, b) <==> Val(a) < Val(b)
    ensures a == b <==> Val(a) == Val(b)
    ensures Val(a) > 0.0
  {
    OrderIsValueThenLength(a, b);
    OrderIsValueThenLength(b, a);
    if Val(a) == Val(b) {
      if |a| <= |b| {
        CanonicalHasNoZeroExtension(a, b);
      } else {
        CanonicalHasNoZeroExtension(b, a);
      }
    }
    LessIrreflexive(a);
    OrderIsValueThenLength("", a);
    if Val(a) == 0.0 {
      CanonicalHasNoZeroExtension("", a);
    }
  }

  /** The digit the loop picks in a gap lies strictly inside it, whatever follows. */
  lemma DigitInGap(da: nat, db: nat, ta: real, tb: real)
    requires 0.0 <= ta < 1.0 && 0.0 <= tb < 1.0
    ensures var mid := (da + db) / 2; mid > da ==> da as real + ta < mid as real < db as real + tb
    ensures da as real + ta < db as real + tb ==> da <= db
    ensures da as real + ta < db as real + tb && da == db ==> ta < tb
  {
  }

  /** One digit in front of the rest: the inequalities carry over. */
  lemma DigitInFront(da: nat, db: nat, ta: real, tb: real, tr: real, open: bool)
    requires 0.0 <= ta < tr < 1.0 && 0.0 <= tb && da <= db
    requires open || db > da || tr < tb
    ensures da as real + ta < da as real + tr
    ensures open || da as real + tr < db as real + tb
  {
  }

  lemma ValueInGap(a: string, b: string, open: bool, mid: nat)
    requires var da := if a != "" then Digit(a[0]) else 0;
             var db := if !open && b != "" then Digit(b[0]) else BASE;
             mid == (da + db) / 2 > da
    requires open || Val(a) < Val(b)
    ensures mid < BASE && Val(a) < Val([DigitChar(mid)])
    ensures open || Val([DigitChar(mid)]) < Val(b)
  {
    var da := if a != "" then Digit(a[0]) else 0;
    var db := if !open && b != "" then Digit(b[0]) else BASE;
    ValOf(a);
    ValOf(b);
    DigitInGap(da, db, Val(Tail(a)), Val(Tail(b)));
    DigitOfDigitChar(mid);
    ValCons(DigitChar(mid), "");
    assert [DigitChar(mid)] + "" == [DigitChar(mid)];
  }

  /** The answer's value lies above a's, and below b's unless the ceiling is open. */
  lemma {:induction false} BetweenValue(a: string, b: string, open: bool)
    requires open || Val(a) < Val(b)
    ensures Val(a) < Val(Between(a, b, open))
    ensures open || Val(Between(a, b, open)) < Val(b)
    decreases |a| + |b|
  {
    var da := if a != "" then Digit(a[0]) else 0;
    var db := if !open && b != "" then Digit(b[0]) else BASE;
    var mid := (da + db) / 2;
    if mid > da {
      ValueInGap(a, b, open, mid);
    } else {
      ValOf(a);
      ValOf(b);
      DigitInGap(da, db, Val(Tail(a)), Val(Tail(b)));
      DigitOfDigitChar(da);
      var rest := Between(Tail(a), Tail(b), open || db > da);
      BetweenValue(Tail(a), Tail(b), open || db > da);
      ValCons(DigitChar(da), rest);
      DigitInFront(da, db, Val(Tail(a)), Val(Tail(b)), Val(rest), open);
    }
  }

  /** An absent bound stands for the value 0 below and 1 above. */
  function LowValue(a: Option<string>): real {
    Val(a.GetOr(""))
  }

  function HighValue(b: Option<string>): real {
    if b.Some? then Val(b.value) else 1.0
  }

  /**
   rankBetween divides the interval whenever there is an interval: the value of the answer
   lies strictly between the bounds' values.
   */
  lemma MidpointValue(a: Option<string>, b: Option<string>)
    requires LowValue(a) < HighValue(b)
    ensures LowValue(a) < Val(Midpoint(a, b)) < HighValue(b)
  {
    BetweenValue(a.GetOr(""), b.GetOr(""), b.None?);
  }

  /** The failing bounds are exactly the ones that denote the same fraction. */
  lemma RoomIffValuesDiffer(a: Option<string>, b: Option<string>)
    requires Alphabet(a.GetOr("")) && Alphabet(b.GetOr("")) && Accepts(a, b)
    ensures HasRoom(a, b) <==> LowValue(a) < HighValue(b)
  {
    if b.Some? {
      var lo := a.GetOr("");
      OrderIsValueThenLength(lo, b.value);
      if ZeroExtends(lo, b.value) {
        TrailingZerosKeepValue(lo, b.value);
      }
    }
  }
}
