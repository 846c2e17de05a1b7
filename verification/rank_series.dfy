/** How ranks grow when cards are only ever added at one end of a column. */
module RankSeries {
  import opened Wrappers
  import opened Rank
  import opened Arithmetic

  function Repeat(c: char, n: nat): string {
    seq(n, _ => c)
  }

  lemma RepeatStep(c: char, n: nat, s: string)
    ensures Repeat(c, n + 1) + s == [c] + (Repeat(c, n) + s)
  {
  }

  /** The rank `create` gives the n-th (from 0) card appended to a fresh column. */
  function Appended(n: nat): string {
    if n == 0 then FIRST_RANK else Midpoint(Some(Appended(n - 1)), None)
  }

  /** The rank of the n-th card put on top, counting the first card as 0. */
  function Prepended(n: nat): string {
    if n == 0 then FIRST_RANK else Midpoint(None, Some(Prepended(n - 1)))
  }

  const APPEND_CYCLE := "Vkswyz"
  const PREPEND_CYCLE := "VF731"

  lemma {:induction false} AboveZs(n: nat, c: char)
    ensures Between(Repeat('z', n) + [c], "", true) == Repeat('z', n) + Between([c], "", true)
  {
    if n == 0 {
      assert Repeat('z', 0) + [c] == [c] && Repeat('z', 0) + Between([c], "", true) == Between([c], "", true);
    } else {
      RepeatStep('z', n - 1, [c]);
      RepeatStep('z', n - 1, Between([c], "", true));
      AboveZs(n - 1, c);
      var s := Repeat('z', n) + [c];
      assert Tail(s) == Repeat('z', n - 1) + [c];
    }
  }

  lemma {:induction false} BelowZeros(n: nat, c: char)
    ensures Between("", Repeat('0', n) + [c], false) == Repeat('0', n) + Between("", [c], false)
  {
    if n == 0 {
      assert Repeat('0', 0) + [c] == [c] && Repeat('0', 0) + Between("", [c], false) == Between("", [c], false);
    } else {
      RepeatStep('0', n - 1, [c]);
      RepeatStep('0', n - 1, Between("", [c], false));
      BelowZeros(n - 1, c);
      var s := Repeat('0', n) + [c];
      assert Tail(s) == Repeat('0', n - 1) + [c];
    }
  }

  function AppendedForm(q: nat, k: nat): string
    requires k < 6
  {
    Repeat('z', q) + [APPEND_CYCLE[k]]
  }

  function PrependedForm(q: nat, k: nat): string
    requires k < 5
  {
    Repeat('0', q) + [PREPEND_CYCLE[k]]
  }

  /** The rank above one of the closed form is the next of the closed form. */
  lemma NextAbove(q: nat, k: nat)
    requires k < 6
    ensures Midpoint(Some(AppendedForm(q, k)), None) ==
            if k < 5 then AppendedForm(q, k + 1) else AppendedForm(q + 1, 0)
  {
    var c := [APPEND_CYCLE[k]];
    AboveZs(q, APPEND_CYCLE[k]);
    assert Tail(c) == "";
    if k < 5 {
      assert Between(c, "", true) == [APPEND_CYCLE[k + 1]];
    } else {
      assert Between(c, "", true) == "z" + "V";
      assert Repeat('z', q) + ("z" + "V") == Repeat('z', q + 1) + "V";
    }
  }

  lemma NextBelow(q: nat, k: nat)
    requires k < 5
    ensures Midpoint(None, Some(PrependedForm(q, k))) ==
            if k < 4 then PrependedForm(q, k + 1) else PrependedForm(q + 1, 0)
  {
    var c := [PREPEND_CYCLE[k]];
    BelowZeros(q, PREPEND_CYCLE[k]);
    assert Tail(c) == "";
    if k < 4 {
      assert Between("", c, false) == [PREPEND_CYCLE[k + 1]];
    } else {
      assert Between("", c, false) == "0" + "V";
      assert Repeat('0', q) + ("0" + "V") == Repeat('0', q + 1) + "V";
    }
  }

  lemma FirstForms()
    ensures FIRST_RANK == AppendedForm(0, 0) && FIRST_RANK == PrependedForm(0, 0)
  {
    assert Repeat('z', 0) + "V" == "V" && Repeat('0', 0) + "V" == "V";
  }

  lemma FormAboveForm(n: nat, last: string, next: string)
    requires n > 0 && last == AppendedForm((n - 1) / 6, (n - 1) % 6) && next == Midpoint(Some(last), None)
    ensures next == AppendedForm(n / 6, n % 6)
  {
    DivModStep(n, 6);
    NextAbove((n - 1) / 6, (n - 1) % 6);
  }

  lemma FormBelowForm(n: nat, top: string, next: string)
    requires n > 0 && top == PrependedForm((n - 1) / 5, (n - 1) % 5) && next == Midpoint(None, Some(top))
    ensures next == PrependedForm(n / 5, n % 5)
  {
    DivModStep(n, 5);
    NextBelow((n - 1) / 5, (n - 1) % 5);
  }

  lemma {:induction false} AppendedIsForm(n: nat)
    ensures Appended(n) == AppendedForm(n / 6, n % 6)
  {
    if n == 0 {
      FirstForms();
    } else {
      AppendedIsForm(n - 1);
      FormAboveForm(n, Appended(n - 1), Appended(n));
    }
  }

  lemma {:induction false} PrependedIsForm(n: nat)
    ensures Prepended(n) == PrependedForm(n / 5, n % 5)
  {
    if n == 0 {
      FirstForms();
    } else {
      PrependedIsForm(n - 1);
      FormBelowForm(n, Prepended(n - 1), Prepended(n));
    }
  }

  /** Appending n cards costs one more digit every six cards. */
  lemma AppendedClosedForm(n: nat)
    ensures Appended(n) == Repeat('z', n / 6) + [APPEND_CYCLE[n % 6]]
    ensures |Appended(n)| == n / 6 + 1
  {
    AppendedIsForm(n);
  }

  /** Putting n cards on top costs one more digit every five cards. */
  lemma PrependedClosedForm(n: nat)
    ensures Prepended(n) == Repeat('0', n / 5) + [PREPEND_CYCLE[n % 5]]
    ensures |Prepended(n)| == n / 5 + 1
  {
    PrependedIsForm(n);
  }
}
