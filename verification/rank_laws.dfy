/** What rankBetween promises: order, closure, length and minimality. */
module RankLaws {
  import opened Wrappers
  import opened StringOrder
  import opened Rank

  /** A rank as rankBetween emits it: non-empty, over the alphabet, no '0' at the end. */
  predicate Canonical(s: string) {
    s != "" && Alphabet(s) && s[|s| - 1] != '0'
  }

  // ---- order -------------------------------------------------------------------

  lemma LessCons(c: char, s: string, d: char, t: string)
    ensures Less([c] + s, [d] + t) <==> c < d || (c == d && Less(s, t))
  {
    assert ([c] + s)[1..] == s && ([d] + t)[1..] == t;
  }

  /** The digit picked in a gap puts the answer above a. */
  lemma AboveInGap(a: string, mid: nat)
    requires a != "" && IsDigit(a[0]) && Digit(a[0]) < mid < BASE
    ensures Less(a, [DigitChar(mid)])
  {
    DigitOfDigitChar(mid);
    DigitsAreOrdered(a[0], DigitChar(mid));
  }

  lemma {:induction false} BetweenIsAbove(a: string, b: string, open: bool)
    requires Alphabet(a)
    ensures Less(a, Between(a, b, open))
    decreases |a| + |b|
  {
    if a != "" {
      var da := Digit(a[0]);
      var db := if !open && b != "" then Digit(b[0]) else BASE;
      var mid := (da + db) / 2;
      if mid > da {
        AboveInGap(a, mid);
      } else {
        var rest := Between(Tail(a), Tail(b), open || db > da);
        BetweenIsAbove(Tail(a), Tail(b), open || db > da);
        assert Between(a, b, open) == [a[0]] + rest;
        LessCons(a[0], Tail(a), a[0], rest);
        assert a == [a[0]] + Tail(a);
      }
    }
  }

  lemma ZeroExtendsStep(a: string, b: string)
    requires b != ""
    ensures ZeroExtends(a, b) <==>
            b[0] == (if a != "" then a[0] else '0') && ZeroExtends(Tail(a), Tail(b))
  {
    if ZeroExtends(a, b) {
      assert Tail(b) == Tail(a) + Zeros(|Tail(b)| - |Tail(a)|);
    }
    if b[0] == (if a != "" then a[0] else '0') && ZeroExtends(Tail(a), Tail(b)) {
      assert |a| <= |b| && b == [b[0]] + Tail(b);
      assert b == a + Zeros(|b| - |a|);
    }
  }

  /** Below the ceiling exactly when b is not a followed by '0's; then the answer is b + "V". */
  lemma {:induction false} BetweenIsBelow(a: string, b: string)
    requires Alphabet(a) && Alphabet(b) && !Less(b, a)
    ensures Less(Between(a, b, false), b) <==> !ZeroExtends(a, b)
    ensures ZeroExtends(a, b) ==> Between(a, b, false) == b + FIRST_RANK
    decreases |b|
  {
    if b == "" {
      assert Between(a, b, false) == b + FIRST_RANK;
    } else {
      var da := if a != "" then Digit(a[0]) else 0;
      var db := Digit(b[0]);
      var mid := (da + db) / 2;
      assert b == [b[0]] + Tail(b);
      DigitOfDigitChar(da);
      DigitsAreOrdered(DigitChar(da), b[0]);
      ZeroExtendsStep(a, b);
      if mid > da {
        DigitOfDigitChar(mid);
        DigitsAreOrdered(DigitChar(mid), b[0]);
        LessCons(DigitChar(mid), "", b[0], Tail(b));
        assert [DigitChar(mid)] + "" == Between(a, b, false);
      } else {
        var rest := Between(Tail(a), Tail(b), db > da);
        LessCons(DigitChar(da), rest, b[0], Tail(b));
        if db == da {
          BetweenIsBelow(Tail(a), Tail(b));
          assert [b[0]] + (Tail(b) + FIRST_RANK) == ([b[0]] + Tail(b)) + FIRST_RANK;
        }
      }
    }
  }

  /** The caller's condition: there is room below the ceiling. */
  predicate HasRoom(a: Option<string>, b: Option<string>) {
    b.Some? ==> !ZeroExtends(a.GetOr(""), b.value)
  }

  predicate StrictlyBetween(a: Option<string>, r: string, b: Option<string>) {
    (a.Some? ==> Less(a.value, r)) && (b.Some? ==> Less(r, b.value))
  }

  /**
   The law at the centre of rank.ts. For bounds over the alphabet that rankBetween
   accepts, the answer lies strictly between them if and only if the upper bound is open
   or is not the lower one followed by '0's.
   */
  lemma StrictlyBetweenIffRoom(a: Option<string>, b: Option<string>)
    requires Alphabet(a.GetOr("")) && Alphabet(b.GetOr("")) && Accepts(a, b)
    ensures Ranked(a, b).Success?
    ensures StrictlyBetween(a, Ranked(a, b).value, b) <==> HasRoom(a, b)
    ensures !HasRoom(a, b) ==> Ranked(a, b).value == b.value + "V"
  {
    BetweenIsAbove(a.GetOr(""), b.GetOr(""), b.None?);
    if b.Some? {
      if a.Some? {
        LessAsymmetric(a.value, b.value);
      }
      BetweenIsBelow(a.GetOr(""), b.value);
    }
  }

  // ---- characters outside the table --------------------------------------------

  function AsDigits(s: string): (r: string)
    ensures Alphabet(r) && |r| == |s|
  {
    seq(|s|, i requires 0 <= i < |s| => if IsDigit(s[i]) then s[i] else '0')
  }

  lemma HeadAsDigit(s: string)
    ensures Tail(AsDigits(s)) == AsDigits(Tail(s))
    ensures s != "" ==> Digit(AsDigits(s)[0]) == Digit(s[0])
  {
    assert Tail(AsDigits(s)) == AsDigits(Tail(s));
  }

  /** Characters outside the table count as '0': the answer is that for the bounds with '0's instead. */
  lemma {:induction false} StrangersCountAsZero(a: string, b: string, open: bool)
    ensures Between(a, b, open) == Between(AsDigits(a), AsDigits(b), open)
    decreases |a| + |b|
  {
    HeadAsDigit(a);
    HeadAsDigit(b);
    var da := if a != "" then Digit(a[0]) else 0;
    var db := if !open && b != "" then Digit(b[0]) else BASE;
    if (da + db) / 2 <= da {
      StrangersCountAsZero(Tail(a), Tail(b), open || db > da);
    }
  }

  // ---- closure -----------------------------------------------------------------

  lemma CanonicalCons(c: char, s: string)
    requires IsDigit(c) && Canonical(s)
    ensures Canonical([c] + s)
  {
    assert ([c] + s)[|s|] == s[|s| - 1];
  }

  /** Whatever the bounds, the answer is canonical. */
  lemma {:induction false} BetweenIsCanonical(a: string, b: string, open: bool)
    ensures Canonical(Between(a, b, open))
    decreases |a| + |b|
  {
    var da := if a != "" then Digit(a[0]) else 0;
    var db := if !open && b != "" then Digit(b[0]) else BASE;
    var mid := (da + db) / 2;
    if mid > da {
      DigitOfDigitChar(mid);
    } else {
      BetweenIsCanonical(Tail(a), Tail(b), open || db > da);
      CanonicalCons(DigitChar(da), Between(Tail(a), Tail(b), open || db > da));
    }
  }

  lemma CanonicalHasNoZeroExtension(a: string, b: string)
    requires Canonical(b) && ZeroExtends(a, b)
    ensures a == b
  {
    if |a| < |b| {
      assert false;
    }
    assert a + Zeros(0) == a;
  }

  /** Between canonical neighbours there is always room, so canonical ranks never get stuck. */
  lemma CanonicalRanksAreClosed(a: Option<string>, b: Option<string>)
    requires a.Some? ==> Canonical(a.value)
    requires b.Some? ==> Canonical(b.value)
    requires Accepts(a, b)
    ensures StrictlyBetween(a, Ranked(a, b).value, b) && Canonical(Ranked(a, b).value)
  {
    BetweenIsCanonical(a.GetOr(""), b.GetOr(""), b.None?);
    StrictlyBetweenIffRoom(a, b);
    if b.Some? {
      if !HasRoom(a, b) {
        CanonicalHasNoZeroExtension(a.GetOr(""), b.value);
      }
      if a.Some? {
        LessAsymmetric(a.value, b.value);
      }
    }
  }

  // ---- length ------------------------------------------------------------------

  lemma {:induction false} BetweenLength(a: string, b: string, open: bool)
    ensures 0 < |Between(a, b, open)| <= Max(|a|, |b|) + 1
    decreases |a| + |b|
  {
    var da := if a != "" then Digit(a[0]) else 0;
    var db := if !open && b != "" then Digit(b[0]) else BASE;
    if (da + db) / 2 <= da {
      BetweenLength(Tail(a), Tail(b), open || db > da);
    }
  }

  /** With an open upper bound the answer is as short as any rank above a can be. */
  lemma {:induction false} OpenAnswerIsShortest(a: string, b: string, s: string)
    requires Alphabet(a) && Alphabet(s) && Less(a, s)
    ensures |Between(a, b, true)| <= |s|
    decreases |a|
  {
    if a != "" {
      var da := Digit(a[0]);
      if (da + BASE) / 2 <= da {
        DigitsAreOrdered(a[0], s[0]);
        OpenAnswerIsShortest(a[1..], Tail(b), s[1..]);
      }
    }
  }

  /**
   The bounds are one apart where they first differ, a's missing digits read as '0', and
   the upper one goes on after that.
   */
  predicate Squeezed(a: string, b: string)
    decreases |b|
  {
    b != "" &&
    var da := if a != "" then Digit(a[0]) else 0;
    if Digit(b[0]) == da then Squeezed(Tail(a), Tail(b)) else Digit(b[0]) == da + 1 && Tail(b) != ""
  }

  /** The upper bound up to the digit where the bounds differ. */
  function CutAfterDifference(a: string, b: string): string
    requires Squeezed(a, b)
    decreases |b|
  {
    var da := if a != "" then Digit(a[0]) else 0;
    if Digit(b[0]) == da then [b[0]] + CutAfterDifference(Tail(a), Tail(b)) else [b[0]]
  }

  /** Squeezed bounds have a shorter canonical rank between them. */
  lemma {:induction false} SqueezedHasShorter(a: string, b: string)
    requires Alphabet(a) && Alphabet(b) && Squeezed(a, b) && !Less(b, a)
    ensures var s := CutAfterDifference(a, b);
            Canonical(s) && Less(a, s) && Less(s, b) && |s| < |Between(a, b, false)|
    decreases |b|
  {
    var c := if a != "" then a[0] else '0';
    var da, db := Digit(c), Digit(b[0]);
    var s := CutAfterDifference(a, b);
    DigitsAreOrdered(c, b[0]);
    assert b == [b[0]] + Tail(b) && (a != "" ==> a == [c] + Tail(a));
    if da == db {
      SqueezedHasShorter(Tail(a), Tail(b));
      var rest := CutAfterDifference(Tail(a), Tail(b));
      CanonicalCons(b[0], rest);
      LessCons(c, Tail(a), b[0], rest);
      LessCons(b[0], rest, b[0], Tail(b));
    } else {
      DigitsAreOrdered('0', b[0]);
      LessCons(b[0], "", b[0], Tail(b));
      assert s + "" == s && [b[0]] + "" == [b[0]];
      BetweenLength(Tail(a), Tail(b), true);
    }
  }

  /** What is left of a rank between the bounds after a first digit that is a's. */
  lemma SameFirstDigit(a: string, s: string)
    requires Alphabet(a) && Canonical(s) && Less(a, s) && Digit(s[0]) == (if a != "" then Digit(a[0]) else 0)
    ensures Canonical(Tail(s)) && Less(Tail(a), Tail(s))
  {
    DigitsAreOrdered(s[0], if a != "" then a[0] else '0');
  }

  lemma {:induction false} UnsqueezedIsShortest(a: string, b: string, s: string)
    requires Alphabet(a) && Alphabet(b) && !Squeezed(a, b) && !Less(b, a) && !ZeroExtends(a, b)
    requires Canonical(s) && Less(a, s) && Less(s, b)
    ensures |Between(a, b, false)| <= |s|
    decreases |b|
  {
    var c := if a != "" then a[0] else '0';
    var da, db := Digit(c), Digit(b[0]);
    DigitsAreOrdered(c, b[0]);
    DigitsAreOrdered(c, s[0]);
    DigitsAreOrdered(s[0], b[0]);
    ZeroExtendsStep(a, b);
    if (da + db) / 2 <= da {
      assert da <= Digit(s[0]) <= db;
      SameFirstDigit(a, s);
      if da == db {
        UnsqueezedIsShortest(Tail(a), Tail(b), Tail(s));
      } else {
        OpenAnswerIsShortest(Tail(a), Tail(b), Tail(s));
      }
    }
  }

  /**
   The header's "shortest midpoint", between bounds with room: no canonical rank strictly
   between them is shorter than the answer exactly when they are not squeezed. (With an open
   upper bound nothing at all is shorter.)
   */
  lemma ClosedAnswerIsShortestIff(a: Option<string>, b: string)
    requires Alphabet(a.GetOr("")) && Alphabet(b) && Accepts(a, Some(b)) && HasRoom(a, Some(b))
    ensures (forall s | Canonical(s) && StrictlyBetween(a, s, Some(b)) :: |Ranked(a, Some(b)).value| <= |s|)
            <==> !Squeezed(a.GetOr(""), b)
  {
    var lo := a.GetOr("");
    if a.Some? {
      LessAsymmetric(lo, b);
    }
    if Squeezed(lo, b) {
      SqueezedHasShorter(lo, b);
      var s := CutAfterDifference(lo, b);
      assert StrictlyBetween(a, s, Some(b));
    } else {
      forall s | Canonical(s) && StrictlyBetween(a, s, Some(b)) ensures |Ranked(a, Some(b)).value| <= |s| {
        UnsqueezedIsShortest(lo, b, s);
      }
    }
  }

  /** Squeezed bounds, and bounds that are not. */
  lemma ClosedAnswerIsNotShortest()
    ensures StrictlyBetween(Some("A5"), "B", Some("BV"))
    ensures Ranked(Some("A5"), Some("BV")) == Success("AX") && Squeezed("A5", "BV")
    ensures Ranked(Some("A"), Some("C")) == Success("B") && !Squeezed("A", "C")
  {
    AnswerInSqueeze();
    var a, b := "A", "C";
    assert Between(a, b, false) == "B";
  }

  lemma AnswerInSqueeze()
    ensures Between("A5", "BV", false) == "AX" && Squeezed("A5", "BV")
    ensures Less("A5", "B") && Less("B", "BV")
  {
    var a, b := "A5", "BV";
    assert a[1..] == "5" && b[1..] == "V" && Tail("5") == "" && Tail("V") == "";
    assert Between("5", "V", true) == "X";
    assert "A" + "X" == "AX";
  }
}
