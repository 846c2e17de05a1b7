/** Fractional ranking: packages/types/src/rank.ts. */
module Rank {
  import opened Wrappers
  import opened StringOrder

  const NUMBERS := "0123456789"
  const UPPER := "ABCDEFGHIJKLMNOPQRSTUVWXYZ"
  const LOWER := "abcdefghijklmnopqrstuvwxyz"
  const DIGITS := NUMBERS + UPPER + LOWER
  const BASE := 62

  /** The digit with value d: what the table DIGITS holds at index d. */
  function DigitChar(d: nat): (c: char)
    requires d < BASE
    ensures IsDigit(c)
  {
    if d < 10 then '0' + d as char
    else if d < 36 then 'A' + (d - 10) as char
    else 'a' + (d - 36) as char
  }

  predicate IsDigit(c: char) {
    '0' <= c <= '9' || 'A' <= c <= 'Z' || 'a' <= c <= 'z'
  }

  /** The value of a digit; a character outside the table reads as 0. */
  function Digit(c: char): (d: nat)
    ensures d < BASE
    ensures IsDigit(c) ==> DigitChar(d) == c
  {
    if '0' <= c <= '9' then (c - '0') as nat
    else if 'A' <= c <= 'Z' then (c - 'A') as nat + 10
    else if 'a' <= c <= 'z' then (c - 'a') as nat + 36
    else 0
  }

  lemma TablePieces(d: nat)
    ensures |NUMBERS| == 10 && |UPPER| == 26 && |LOWER| == 26
    ensures d < 10 ==> NUMBERS[d] == '0' + d as char
    ensures d < 26 ==> UPPER[d] == 'A' + d as char && LOWER[d] == 'a' + d as char
  {
  }

  lemma InPieces(a: string, b: string, c: string, d: nat)
    requires d < |a| + |b| + |c|
    ensures (a + b + c)[d] ==
            if d < |a| then a[d] else if d < |a| + |b| then b[d - |a|] else c[d - |a| - |b|]
  {
  }

  lemma TableIsDigitChar(d: nat)
    requires d < BASE
    ensures |DIGITS| == BASE && DIGITS[d] == DigitChar(d)
  {
    TablePieces(if d < 10 then d else if d < 36 then d - 10 else d - 36);
    InPieces(NUMBERS, UPPER, LOWER, d);
  }

  lemma DigitOfDigitChar(d: nat)
    requires d < BASE
    ensures Digit(DigitChar(d)) == d
  {
  }

  lemma DigitsAreOrdered(c: char, d: char)
    requires IsDigit(c) && IsDigit(d)
    ensures Digit(c) < Digit(d) <==> c < d
    ensures Digit(c) == Digit(d) <==> c == d
  {
  }

  predicate Alphabet(s: string) {
    forall i | 0 <= i < |s| :: IsDigit(s[i])
  }

  function Zeros(n: nat): string {
    seq(n, _ => '0')
  }

  /** b is a followed by zero or more '0's. */
  predicate ZeroExtends(a: string, b: string) {
    |a| <= |b| && b == a + Zeros(|b| - |a|)
  }

  function Tail(s: string): string {
    if s == "" then "" else s[1..]
  }

  /**
   The digits rankBetween still has to emit when the parts of its bounds not yet read
   are a and b; once `open`, b imposes no ceiling.
   */
  function Between(a: string, b: string, open: bool): (r: string)
    decreases |a| + |b|
  {
    var da := if a != "" then Digit(a[0]) else 0;
    var db := if !open && b != "" then Digit(b[0]) else BASE;
    var mid := (da + db) / 2;
    if mid > da then [DigitChar(mid)]
    else [DigitChar(da)] + Between(Tail(a), Tail(b), open || db > da)
  }

  /** rankBetween on bounds it accepts; a null lower bound reads as "". */
  function Midpoint(a: Option<string>, b: Option<string>): string {
    Between(a.GetOr(""), b.GetOr(""), b.None?)
  }

  datatype RankError = LowerMustSortBeforeUpper

  predicate Accepts(a: Option<string>, b: Option<string>) {
    a.Some? && b.Some? ==> Less(a.value, b.value)
  }

  /** What rankBetween returns or throws. */
  function Ranked(a: Option<string>, b: Option<string>): Result<string, RankError> {
    if Accepts(a, b) then Success(Midpoint(a, b)) else Failure(LowerMustSortBeforeUpper)
  }

  /** Initial rank for the first item in an empty column. */
  const FIRST_RANK := [DigitChar(BASE / 2)]

  function Drop(s: string, i: nat): string {
    if i <= |s| then s[i..] else ""
  }

  function Max(m: nat, n: nat): nat {
    if m < n then n else m
  }

  /** The digit of s at position i, or `past` when s has no position i. */
  function DigitAt(s: string, i: nat, past: nat): nat {
    if i < |s| then Digit(s[i]) else past
  }

  /** The digits the loop compares at position i. */
  function Upper(hi: string, i: nat, open: bool): nat {
    if open then BASE else DigitAt(hi, i, BASE)
  }

  lemma BetweenStops(lo: string, hi: string, i: nat, open: bool)
    requires (DigitAt(lo, i, 0) + Upper(hi, i, open)) / 2 > DigitAt(lo, i, 0)
    ensures DigitAt(lo, i, 0) < BASE && (DigitAt(lo, i, 0) + Upper(hi, i, open)) / 2 < BASE
    ensures Between(Drop(lo, i), Drop(hi, i), open) == [DigitChar((DigitAt(lo, i, 0) + Upper(hi, i, open)) / 2)]
  {
  }

  lemma BetweenGoesOn(lo: string, hi: string, i: nat, open: bool)
    requires (DigitAt(lo, i, 0) + Upper(hi, i, open)) / 2 <= DigitAt(lo, i, 0)
    ensures DigitAt(lo, i, 0) < BASE && i < Max(|lo|, |hi|)
    ensures Between(Drop(lo, i), Drop(hi, i), open) ==
            [DigitChar(DigitAt(lo, i, 0))]
            + Between(Drop(lo, i + 1), Drop(hi, i + 1), open || Upper(hi, i, open) > DigitAt(lo, i, 0))
  {
    assert Tail(Drop(lo, i)) == Drop(lo, i + 1) && Tail(Drop(hi, i)) == Drop(hi, i + 1);
  }

  /** The digits emitted so far, and those still to come, make up the answer. */
  ghost predicate OnTheWay(answer: string, result: string, lo: string, hi: string, i: nat, open: bool) {
    answer == result + Between(Drop(lo, i), Drop(hi, i), open)
  }

  lemma LoopStarts(a: Option<string>, b: Option<string>)
    ensures OnTheWay(Midpoint(a, b), "", a.GetOr(""), b.GetOr(""), 0, b.None?)
  {
    var lo, hi := a.GetOr(""), b.GetOr("");
    assert Drop(lo, 0) == lo && Drop(hi, 0) == hi && "" + Midpoint(a, b) == Midpoint(a, b);
  }

  /** The turn that returns. */
  lemma LastTurn(answer: string, result: string, lo: string, hi: string, i: nat, open: bool)
    requires OnTheWay(answer, result, lo, hi, i, open)
    requires (DigitAt(lo, i, 0) + Upper(hi, i, open)) / 2 > DigitAt(lo, i, 0)
    ensures (DigitAt(lo, i, 0) + Upper(hi, i, open)) / 2 < BASE
    ensures answer == result + [DigitChar((DigitAt(lo, i, 0) + Upper(hi, i, open)) / 2)]
  {
    BetweenStops(lo, hi, i, open);
  }

  /** A turn that does not. */
  lemma Turn(answer: string, result: string, lo: string, hi: string, i: nat, open: bool)
    requires OnTheWay(answer, result, lo, hi, i, open)
    requires (DigitAt(lo, i, 0) + Upper(hi, i, open)) / 2 <= DigitAt(lo, i, 0)
    ensures DigitAt(lo, i, 0) < BASE && i < Max(|lo|, |hi|)
    ensures OnTheWay(answer, result + [DigitChar(DigitAt(lo, i, 0))], lo, hi, i + 1,
                     open || Upper(hi, i, open) > DigitAt(lo, i, 0))
  {
    BetweenGoesOn(lo, hi, i, open);
  }

  /** DIGITS[d]. */
  method DigitOf(d: nat) returns (c: char)
    requires d < BASE
    ensures c == DigitChar(d)
  {
    TableIsDigitChar(d);
    c := DIGITS[d];
  }

  /** The loop of rank.ts: it meets `Ranked` on all strings, in the alphabet or not, without surrogate pairs. */
  method RankBetween(a: Option<string>, b: Option<string>) returns (r: Result<string, RankError>)
    ensures r == Ranked(a, b)
  {
    if a.Some? && b.Some? && !Less(a.value, b.value) {
      return Failure(LowerMustSortBeforeUpper);
    }
    var lo, hi := a.GetOr(""), b.GetOr("");
    ghost var answer := Midpoint(a, b);
    var result, i, upperOpen := "", 0, b.None?;
    LoopStarts(a, b);
    while true
      invariant 0 <= i == |result| <= Max(|lo|, |hi|)
      invariant OnTheWay(answer, result, lo, hi, i, upperOpen)
      decreases Max(|lo|, |hi|) + 1 - i
    {
      var da := DigitAt(lo, i, 0);
      var db := Upper(hi, i, upperOpen);
      var mid := (da + db) / 2;
      if mid > da {
        LastTurn(answer, result, lo, hi, i, upperOpen);
        var last := DigitOf(mid);
        return Success(result + [last]);
      }
      Turn(answer, result, lo, hi, i, upperOpen);
      var next := DigitOf(da);
      if db > da {
        upperOpen := true;
      }
      result := result + [next];
      i := i + 1;
    }
  }
}
