/** The demo seed's rank generator: packages/db/prisma/seed.ts. */
module Seed {
  import opened Wrappers
  import opened StringOrder
  import opened Rank
  import opened RankLaws
  import opened RankValue
  import opened Arithmetic
  import opened Numerals

  const WIDTH := 6
  const SPACING := 1000

  /** The last index whose numeral fits the width: 2176782000 < 36^6 = 2176782336. */
  const LAST_INDEX := 2176782

  function RankAt(i: nat): string {
    PadStart(Numeral(i * SPACING, 36), WIDTH)
  }

  lemma RankAtIsFixed(i: nat)
    requires i <= LAST_INDEX
    ensures RankAt(i) == Fixed(i * SPACING, 36, WIDTH)
    ensures i * SPACING < Pow(36, WIDTH)
  {
    assert Pow(36, 0) == 1 && Pow(36, 1) == 36 && Pow(36, 2) == 1296 && Pow(36, 3) == 46656;
    assert Pow(36, 4) == 1679616 && Pow(36, 5) == 60466176 && Pow(36, WIDTH) == 2176782336;
    PaddedIsFixed(i * SPACING, 36, WIDTH);
  }

  /** A seed rank spells 1000 times its index in base 36, in six digits as long as they suffice. */
  lemma SeedRankSpells(i: nat)
    ensures Parse(RankAt(i), 36, 0) == i * 1000
    ensures |RankAt(i)| >= 6 && (i <= 2176782 ==> |RankAt(i)| == 6)
    ensures |RankAt(i)| > 6 ==> RankAt(i)[0] != '0'
  {
    var s := Numeral(i * SPACING, 36);
    NumeralSpells(i * SPACING, 36);
    if |s| < WIDTH {
      ParsePadded(s, WIDTH - |s|, 36);
    }
    if i <= LAST_INDEX {
      RankAtIsFixed(i);
    }
  }

  /** Seed ranks sort in index order, and differ already as fractions. */
  lemma SeedOrder(i: nat, j: nat)
    requires i < j <= LAST_INDEX
    ensures Less(RankAt(i), RankAt(j)) && Val(RankAt(i)) < Val(RankAt(j))
    ensures Alphabet(RankAt(i)) && Alphabet(RankAt(j))
  {
    RankAtIsFixed(i);
    RankAtIsFixed(j);
    FixedOrder(i * SPACING, j * SPACING, 36, WIDTH);
    OrderIsValueThenLength(RankAt(i), RankAt(j));
  }

  /** A card can be dropped between any two seeded cards, although seed ranks may end in '0'. */
  lemma SeedGap(i: nat, j: nat)
    requires i < j <= LAST_INDEX
    ensures var a, b := Some(RankAt(i)), Some(RankAt(j));
            Ranked(a, b).Success? && StrictlyBetween(a, Ranked(a, b).value, b)
  {
    SeedOrder(i, j);
    var a, b := Some(RankAt(i)), Some(RankAt(j));
    RoomIffValuesDiffer(a, b);
    StrictlyBetweenIffRoom(a, b);
  }

  /** Above the first card there is room exactly because the seed counts from 1, not from 0. */
  lemma SeedTop(i: nat)
    requires i <= LAST_INDEX
    ensures var b := Some(RankAt(i));
            StrictlyBetween(None, Ranked(None, b).value, b) <==> i >= 1
    ensures Val(RankAt(i)) > 0.0 <==> i >= 1
  {
    var b := Some(RankAt(i));
    RankAtIsFixed(i);
    RoomIffValuesDiffer(None, b);
    StrictlyBetweenIffRoom(None, b);
    if i == 0 {
      FixedZero(36, WIDTH);
      TrailingZerosKeepValue("", Zeros(WIDTH));
    } else {
      SeedOrder(0, i);
    }
  }

  lemma SpacingModulo(i: nat)
    ensures i * SPACING % 36 == 28 * (i % 9) % 36
    ensures i * SPACING % 36 == 0 <==> i % 9 == 0
  {
    var q, k := i / 9, i % 9;
    var c := 27 * k + 28 * k / 36;
    DivModUnique(i * SPACING, 36, 250 * q + c, 28 * k % 36);
  }

  /** Every ninth seed rank is not canonical. */
  lemma SeedRankEndsInZero(i: nat)
    requires i <= LAST_INDEX
    ensures RankAt(i)[WIDTH - 1] == '0' <==> i % 9 == 0
    ensures Canonical(RankAt(i)) <==> i % 9 != 0
  {
    RankAtIsFixed(i);
    SpacingModulo(i);
    NumeralDigitsAreOrdered(i * SPACING % 36, 0);
  }
}
