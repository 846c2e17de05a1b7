/** Slugs of new organisations: apps/api/src/modules/auth/auth.service.ts. */
module Slug {
  import opened Numerals

  predicate Alnum(c: char) {
    'a' <= c <= 'z' || '0' <= c <= '9'
  }

  /** s after its leading characters that are not letters or digits. */
  function SkipOther(s: string): (r: string)
    ensures |r| <= |s| && (r != "" ==> Alnum(r[0]))
  {
    if s == "" || Alnum(s[0]) then s else SkipOther(s[1..])
  }

  /** replace(/[^a-z0-9]+/g, '-') */
  function Dashed(s: string): string
    decreases |s|
  {
    if s == "" then ""
    else if Alnum(s[0]) then [s[0]] + Dashed(s[1..])
    else "-" + Dashed(SkipOther(s[1..]))
  }

  function TrimFront(s: string): string {
    if s != "" && s[0] == '-' then TrimFront(s[1..]) else s
  }

  function TrimBack(s: string): string
    decreases |s|
  {
    if s != "" && s[|s| - 1] == '-' then TrimBack(s[..|s| - 1]) else s
  }

  function Cut(s: string): string {
    if |s| <= 40 then s else s[..40]
  }

  /** What trim() removes: white space and line terminators. */
  predicate IsSpace(c: char) {
    '\U{9}' <= c <= '\U{D}' || c == ' ' || c == '\U{A0}' || c == '\U{1680}' || '\U{2000}' <= c <= '\U{200A}'
    || c == '\U{2028}' || c == '\U{2029}' || c == '\U{202F}' || c == '\U{205F}' || c == '\U{3000}' || c == '\U{FEFF}'
  }

  function TrimStart(s: string): string {
    if s != "" && IsSpace(s[0]) then TrimStart(s[1..]) else s
  }

  function TrimEnd(s: string): string
    decreases |s|
  {
    if s != "" && IsSpace(s[|s| - 1]) then TrimEnd(s[..|s| - 1]) else s
  }

  /** slugify; toLowerCase is the library's. */
  function Slugify(name: string, toLowerCase: string -> string): string {
    Cut(TrimBack(TrimFront(Dashed(TrimEnd(TrimStart(toLowerCase(name)))))))
  }

  // ---- what it means -----------------------------------------------------------

  function WordLength(s: string): (n: nat)
    ensures n <= |s|
    ensures forall i | 0 <= i < n :: Alnum(s[i])
    ensures n < |s| ==> !Alnum(s[n])
  {
    if s == "" || !Alnum(s[0]) then 0 else 1 + WordLength(s[1..])
  }

  /** The maximal runs of letters and digits. */
  function Words(s: string): seq<string>
    decreases |s|
  {
    var r := SkipOther(s);
    if r == "" then [] else [r[..WordLength(r)]] + Words(r[WordLength(r)..])
  }

  function Join(words: seq<string>): string {
    if words == [] then ""
    else if |words| == 1 then words[0]
    else words[0] + "-" + Join(words[1..])
  }

  predicate IsWord(w: string) {
    w != "" && forall i | 0 <= i < |w| :: Alnum(w[i])
  }

  lemma {:induction false} WordsAreWords(s: string)
    ensures forall w | w in Words(s) :: IsWord(w)
    decreases |s|
  {
    var r := SkipOther(s);
    if r != "" {
      WordsAreWords(r[WordLength(r)..]);
    }
  }

  lemma {:induction false} DashedWord(s: string, n: nat)
    requires n <= |s| && forall i | 0 <= i < n :: Alnum(s[i])
    ensures Dashed(s) == s[..n] + Dashed(s[n..])
  {
    if n > 0 {
      DashedWord(s[1..], n - 1);
      assert s[1..][..n - 1] == s[1..n] && s[1..][n - 1..] == s[n..];
      assert s[..n] == [s[0]] + s[1..n];
    }
  }

  lemma {:induction false} SkipThenDash(s: string)
    ensures s != "" && !Alnum(s[0]) ==> SkipOther(s) == SkipOther(s[1..])
    ensures TrimFront(Dashed(s)) == Dashed(SkipOther(s))
  {
    var r := SkipOther(s);
    if s != "" && !Alnum(s[0]) {
      assert Dashed(s)[1..] == Dashed(SkipOther(s[1..]));
    }
    if r != "" {
      assert Dashed(r)[0] == r[0];
    }
  }

  lemma {:induction false} TrimBackKeepsFront(front: string, s: string)
    requires TrimBack(s) != ""
    ensures TrimBack(front + s) == front + TrimBack(s)
    decreases |s|
  {
    if s[|s| - 1] == '-' {
      assert (front + s)[..|front + s| - 1] == front + s[..|s| - 1];
      TrimBackKeepsFront(front, s[..|s| - 1]);
    }
  }

  lemma TrimBackOfWord(w: string)
    requires IsWord(w)
    ensures TrimBack(w) == w && TrimBack(w + "-") == w
  {
    assert (w + "-")[..|w|] == w;
    assert Alnum(w[|w| - 1]);
  }

  lemma {:induction false} TrimmedIsJoined(s: string)
    requires s != "" ==> Alnum(s[0])
    ensures TrimBack(Dashed(s)) == Join(Words(s))
    ensures s != "" ==> Join(Words(s)) != ""
    decreases |s|
  {
    if s != "" {
      var n := WordLength(s);
      var w, r := s[..n], s[n..];
      assert SkipOther(s) == s && Words(s) == [w] + Words(r) && IsWord(w);
      DashedWord(s, n);
      TrimBackOfWord(w);
      var next := SkipOther(r);
      if r == "" {
        assert Dashed(s) == w + "" == w;
      } else {
        assert Dashed(r) == "-" + Dashed(SkipOther(r[1..])) && SkipOther(r[1..]) == next;
        WordsAfterSkip(r);
        if next == "" {
          assert Dashed(r) == "-";
        } else {
          TrimmedIsJoined(next);
          TrimBackKeepsFront(w + "-", Dashed(next));
          assert Dashed(s) == (w + "-") + Dashed(next);
          assert Words(s)[1..] == Words(next);
        }
      }
    }
  }

  lemma {:induction false} SkipTwice(s: string)
    ensures SkipOther(SkipOther(s)) == SkipOther(s)
  {
    if s != "" && !Alnum(s[0]) {
      SkipTwice(s[1..]);
    }
  }

  lemma WordsAfterSkip(s: string)
    ensures Words(s) == Words(SkipOther(s))
  {
    SkipTwice(s);
  }

  lemma {:induction false} TrimStartKeepsWords(s: string)
    ensures SkipOther(TrimStart(s)) == SkipOther(s)
    ensures Words(TrimStart(s)) == Words(s)
  {
    if s != "" && IsSpace(s[0]) {
      TrimStartKeepsWords(s[1..]);
    }
    WordsAfterSkip(s);
    WordsAfterSkip(TrimStart(s));
  }

  lemma {:induction false} SkipSnoc(s: string, c: char)
    requires !Alnum(c)
    ensures SkipOther(s + [c]) == if SkipOther(s) == "" then "" else SkipOther(s) + [c]
  {
    if s == "" {
      assert s + [c] == [c] && [c][1..] == "";
    } else if !Alnum(s[0]) {
      assert (s + [c])[1..] == s[1..] + [c];
      SkipSnoc(s[1..], c);
    }
  }

  lemma {:induction false} WordLengthSnoc(s: string, c: char)
    requires !Alnum(c)
    ensures WordLength(s + [c]) == WordLength(s)
  {
    if s != "" && Alnum(s[0]) {
      assert (s + [c])[1..] == s[1..] + [c];
      WordLengthSnoc(s[1..], c);
    }
  }

  lemma {:induction false} WordsSnoc(s: string, c: char)
    requires !Alnum(c)
    ensures Words(s + [c]) == Words(s)
    decreases |s|
  {
    var r := SkipOther(s);
    SkipSnoc(s, c);
    if r != "" {
      var n := WordLength(r);
      WordLengthSnoc(r, c);
      assert (r + [c])[..n] == r[..n] && (r + [c])[n..] == r[n..] + [c];
      WordsSnoc(r[n..], c);
    }
  }

  lemma {:induction false} TrimEndKeepsWords(s: string)
    ensures Words(TrimEnd(s)) == Words(s)
    decreases |s|
  {
    if s != "" && IsSpace(s[|s| - 1]) {
      assert s == s[..|s| - 1] + [s[|s| - 1]];
      WordsSnoc(s[..|s| - 1], s[|s| - 1]);
      TrimEndKeepsWords(s[..|s| - 1]);
    }
  }

  /**
   slugify joins the words of the lower-cased name with dashes and keeps the first 40
   characters; trimming the name first makes no difference.
   */
  lemma SlugifyJoinsWords(name: string, toLowerCase: string -> string)
    ensures var joined := Join(Words(toLowerCase(name)));
            Slugify(name, toLowerCase) == if |joined| <= 40 then joined else joined[..40]
  {
    var lower := toLowerCase(name);
    var trimmed := TrimEnd(TrimStart(lower));
    SkipThenDash(trimmed);
    TrimmedIsJoined(SkipOther(trimmed));
    WordsAfterSkip(trimmed);
    TrimEndKeepsWords(TrimStart(lower));
    TrimStartKeepsWords(lower);
  }

  /** Only [a-z0-9-], no dash in front, no two dashes in a row. */
  predicate Clean(s: string) {
    && (forall i | 0 <= i < |s| :: 'a' <= s[i] <= 'z' || '0' <= s[i] <= '9' || s[i] == '-')
    && (s != "" ==> s[0] != '-')
    && (forall i | 0 <= i < |s| - 1 :: s[i] != '-' || s[i + 1] != '-')
  }

  lemma {:induction false} JoinIsClean(words: seq<string>)
    requires forall w | w in words :: IsWord(w)
    ensures Clean(Join(words))
    ensures words != [] ==> Join(words) != "" && Join(words)[|Join(words)| - 1] != '-'
  {
    if |words| == 1 {
      assert words[0] in words;
    } else if |words| > 1 {
      assert words[0] in words;
      JoinIsClean(words[1..]);
    }
  }

  /** The slug is clean and short; it ends in a dash only where the cut fell on one. */
  lemma SlugShape(name: string, toLowerCase: string -> string)
    ensures var slug, lower := Slugify(name, toLowerCase), toLowerCase(name);
            && Clean(slug) && |slug| <= 40
            && (slug == "" <==> forall i | 0 <= i < |lower| :: !Alnum(lower[i]))
            && (slug != "" && slug[|slug| - 1] == '-' ==> |Join(Words(lower))| > 40)
  {
    var lower := toLowerCase(name);
    SlugifyJoinsWords(name, toLowerCase);
    WordsAreWords(lower);
    JoinIsClean(Words(lower));
    NoWords(lower);
  }

  lemma {:induction false} NoWords(s: string)
    ensures SkipOther(s) == "" <==> forall i | 0 <= i < |s| :: !Alnum(s[i])
  {
    if s != "" && !Alnum(s[0]) {
      NoWords(s[1..]);
      assert forall i | 0 <= i < |s[1..]| :: s[1..][i] == s[i + 1];
      assert (forall i | 0 <= i < |s[1..]| :: !Alnum(s[1..][i])) ==> forall i | 0 <= i < |s| :: !Alnum(s[i]) by {
        if forall i | 0 <= i < |s[1..]| :: !Alnum(s[1..][i]) {
          forall i | 0 <= i < |s| ensures !Alnum(s[i]) {
            if i > 0 {
              assert s[i] == s[1..][i - 1];
            }
          }
        }
      }
    }
  }

  // ---- the free slug -----------------------------------------------------------

  /** base, base-1, base-2, ... */
  function Candidate(base: string, k: nat): string {
    if k == 0 then base else base + "-" + Numeral(k, 10)
  }

  lemma CandidatesDiffer(base: string, j: nat, k: nat)
    requires j != k
    ensures Candidate(base, j) != Candidate(base, k)
  {
    if j > 0 && k > 0 && Candidate(base, j) == Candidate(base, k) {
      assert Numeral(j, 10) == Candidate(base, j)[|base| + 1..];
      assert Numeral(k, 10) == Candidate(base, k)[|base| + 1..];
      NumeralInjective(j, k, 10);
    }
  }

  /** `tried` holds the first n candidates. */
  ghost predicate Probed(base: string, tried: set<string>, n: nat) {
    && |tried| == n
    && (forall k | 0 <= k < n :: Candidate(base, k) in tried)
    && (forall s | s in tried :: exists k :: 0 <= k < n && Candidate(base, k) == s)
  }

  lemma ProbeNext(base: string, tried: set<string>, n: nat)
    requires Probed(base, tried, n)
    ensures Candidate(base, n) !in tried && Probed(base, tried + {Candidate(base, n)}, n + 1)
  {
    if Candidate(base, n) in tried {
      var k :| 0 <= k < n && Candidate(base, k) == Candidate(base, n);
      CandidatesDiffer(base, k, n);
    }
    var next := tried + {Candidate(base, n)};
    forall s | s in next ensures exists k :: 0 <= k < n + 1 && Candidate(base, k) == s {
      if s in tried {
        var k :| 0 <= k < n && Candidate(base, k) == s;
      } else {
        assert Candidate(base, n) == s;
      }
    }
  }

  /** slugify(name) || 'org' */
  function BaseSlug(name: string, toLowerCase: string -> string): string {
    var base := Slugify(name, toLowerCase);
    if base == "" then "org" else base
  }

  lemma BaseSlugIs(name: string, toLowerCase: string -> string)
    ensures var lower, base := toLowerCase(name), BaseSlug(name, toLowerCase);
            if exists i :: 0 <= i < |lower| && ('a' <= lower[i] <= 'z' || '0' <= lower[i] <= '9')
            then base == Slugify(name, toLowerCase) && base != ""
            else base == "org"
  {
    SlugShape(name, toLowerCase);
  }

  /** The slug is the base, a dash and the usual decimal spelling of n. */
  predicate IsNumbered(slug: string, base: string, n: nat) {
    |base| + 1 < |slug| && slug[..|base| + 1] == base + "-" && Spells(slug[|base| + 1..], n, 10)
  }

  lemma CandidateIsNumbered(base: string, k: nat)
    ensures Candidate(base, 0) == base
    ensures k > 0 ==> IsNumbered(Candidate(base, k), base, k)
  {
    if k > 0 {
      var s := Candidate(base, k);
      assert s[..|base| + 1] == base + "-" && s[|base| + 1..] == Numeral(k, 10);
      NumeralSpells(k, 10);
    }
  }

  ghost predicate IsTaken(used: set<string>, base: string, k: nat) {
    exists slug :: slug in used && IsNumbered(slug, base, k)
  }

  /** The slug is the base when that is free, else base-n for the least n from 1 on that is free. */
  ghost predicate IsFirstFree(slug: string, base: string, used: set<string>, n: nat) {
    && slug !in used
    && if base !in used then slug == base
       else n > 0 && IsNumbered(slug, base, n) && forall k | 1 <= k < n :: IsTaken(used, base, k)
  }

  lemma FirstFreeCandidate(base: string, used: set<string>, slug: string, n: nat)
    requires slug == Candidate(base, n) && slug !in used && forall k | 0 <= k < n :: Candidate(base, k) in used
    ensures IsFirstFree(slug, base, used, n)
  {
    CandidateIsNumbered(base, n);
    if n > 0 {
      assert Candidate(base, 0) in used;
    }
    forall k | 1 <= k < n ensures IsTaken(used, base, k) {
      CandidateIsNumbered(base, k);
      assert Candidate(base, k) in used;
    }
  }

  /**
   The probing loop against the slugs in use: it ends at the first free candidate, after at
   most one probe more than there are slugs in use.
   */
  method AllocateSlug(name: string, toLowerCase: string -> string, used: set<string>)
    returns (slug: string, probes: nat)
    ensures slug !in used
    ensures 1 <= probes <= |used| + 1
    ensures slug == Candidate(BaseSlug(name, toLowerCase), probes - 1)
    ensures forall k | 0 <= k < probes - 1 :: Candidate(BaseSlug(name, toLowerCase), k) in used
    ensures IsFirstFree(slug, BaseSlug(name, toLowerCase), used, probes - 1)
  {
    var base := BaseSlug(name, toLowerCase);
    slug := base;
    var i := 1;
    ghost var tried: set<string> := {};
    while slug in used
      invariant i >= 1 && slug == Candidate(base, i - 1)
      invariant tried <= used && Probed(base, tried, i - 1)
      decreases used - tried
    {
      ProbeNext(base, tried, i - 1);
      tried := tried + {slug};
      slug := base + "-" + Numeral(i, 10);
      i := i + 1;
    }
    probes := i;
    FirstFreeCandidate(base, used, slug, i - 1);
    assert |tried| <= |used| by {
      assert used == tried + (used - tried);
    }
  }
}
