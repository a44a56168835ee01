/** Slugs derived from product names (product.routes.js), and the search for a free one. */
module Slugs {
  import opened Text

  /** The two character classes whose runs the slug pipeline replaces by one `-`. */
  datatype RunClass = Whitespace | Hyphen

  predicate InClass(c: char, k: RunClass)
  {
    match k
    case Whitespace => IsSpace(c)
    case Hyphen => c == '-'
  }

  /** The input without the run of class `k` it starts with. */
  function SkipRun(s: string, k: RunClass): (r: string)
    ensures |r| <= |s| && r == s[|s| - |r|..]
    ensures s != [] && InClass(s[0], k) ==> |r| < |s|
    ensures r == [] || !InClass(r[0], k)
  {
    if s != [] && InClass(s[0], k) then SkipRun(s[1..], k) else s
  }

  /** A global regular-expression replace of every maximal run of class `k` by one `-`:
      `/\s+/g` for whitespace, and `/\-\-+/g` for hyphens (a lone `-` replaced by `-` is
      left as it was, so replacing every run is the same). */
  function SquashRuns(s: string, k: RunClass): (r: string)
    ensures s != [] && !InClass(s[0], k) ==> r != [] && r[0] == s[0]
    decreases |s|
  {
    if s == [] then []
    else if InClass(s[0], k) then "-" + SquashRuns(SkipRun(s, k), k)
    else [s[0]] + SquashRuns(s[1..], k)
  }

  /** Squashing only writes `-` and characters of its input, so it adds no capital... */
  lemma {:induction false} SquashKeepsNoUpper(s: string, k: RunClass)
    requires NoUpper(s)
    ensures NoUpper(SquashRuns(s, k))
    decreases |s|
  {
    if s != [] {
      if InClass(s[0], k) {
        var t := SkipRun(s, k);
        assert NoUpper(t) by {
          forall i | 0 <= i < |t|
            ensures !IsUpper(t[i])
          {
            assert t[i] == s[|s| - |t| + i];
          }
        }
        SquashKeepsNoUpper(t, k);
        assert SquashRuns(s, k) == "-" + SquashRuns(t, k);
      } else {
        SquashKeepsNoUpper(s[1..], k);
        assert SquashRuns(s, k) == [s[0]] + SquashRuns(s[1..], k);
      }
    }
  }

  /** ... and slug characters stay slug characters. */
  lemma {:induction false} SquashKeepsSlugChars(s: string, k: RunClass)
    requires AllSlugChars(s)
    ensures AllSlugChars(SquashRuns(s, k))
    decreases |s|
  {
    if s != [] {
      if InClass(s[0], k) {
        var t := SkipRun(s, k);
        assert AllSlugChars(t) by {
          forall i | 0 <= i < |t|
            ensures IsSlugChar(t[i])
          {
            assert t[i] == s[|s| - |t| + i];
          }
        }
        SquashKeepsSlugChars(t, k);
        assert SquashRuns(s, k) == "-" + SquashRuns(t, k);
      } else {
        SquashKeepsSlugChars(s[1..], k);
        assert SquashRuns(s, k) == [s[0]] + SquashRuns(s[1..], k);
      }
    }
  }

  /** Skipping a run that ends inside `a` does not look at what follows `a`. */
  lemma {:induction false} SkipRunAppend(a: string, b: string, k: RunClass)
    requires a != [] && !InClass(a[|a| - 1], k)
    ensures SkipRun(a + b, k) == SkipRun(a, k) + b
    decreases |a|
  {
    assert (a + b)[0] == a[0];
    if InClass(a[0], k) {
      assert |a| >= 2;
      var a' := a[1..];
      assert (a + b)[1..] == a' + b;
      SkipRunAppend(a', b, k);
      assert SkipRun(a + b, k) == SkipRun(a' + b, k);
      assert SkipRun(a, k) == SkipRun(a', k);
    } else {
      assert SkipRun(a + b, k) == a + b;
      assert SkipRun(a, k) == a;
    }
  }

  /** A maximal run of class `k` becomes exactly one `-`. */
  lemma {:induction false} SquashRunToOne(run: string, s: string, k: RunClass)
    requires run != [] && forall i :: 0 <= i < |run| ==> InClass(run[i], k)
    requires s == [] || !InClass(s[0], k)
    ensures SquashRuns(run + s, k) == "-" + SquashRuns(s, k)
    decreases |run|
  {
    assert SkipRun(run + s, k) == s by {
      SkipRunOf(run, s, k);
    }
  }

  lemma {:induction false} SkipRunOf(run: string, s: string, k: RunClass)
    requires forall i :: 0 <= i < |run| ==> InClass(run[i], k)
    requires s == [] || !InClass(s[0], k)
    ensures SkipRun(run + s, k) == s
    decreases |run|
  {
    if run == [] {
      assert run + s == s;
    } else {
      assert (run + s)[1..] == run[1..] + s;
      SkipRunOf(run[1..], s, k);
    }
  }

  lemma ConcatAssoc(x: string, y: string, z: string)
    ensures x + (y + z) == (x + y) + z
  {
  }

  /** Squashing works piece by piece when the cut does not fall inside a run. */
  lemma {:induction false} SquashAppend(a: string, b: string, k: RunClass)
    requires a == [] || !InClass(a[|a| - 1], k)
    ensures SquashRuns(a + b, k) == SquashRuns(a, k) + SquashRuns(b, k)
    decreases |a|
  {
    if a == [] {
      assert a + b == b;
      assert SquashRuns(a, k) == [];
      assert SquashRuns(a, k) + SquashRuns(b, k) == SquashRuns(b, k);
    } else if InClass(a[0], k) {
      var t := SkipRun(a, k);
      SkipRunAppend(a, b, k);
      assert t == [] || t[|t| - 1] == a[|a| - 1] by {
        if t != [] {
          assert t == a[|a| - |t|..];
        }
      }
      SquashAppend(t, b, k);
      assert (a + b)[0] == a[0];
      assert SquashRuns(a + b, k) == "-" + SquashRuns(t + b, k);
      assert SquashRuns(a, k) == "-" + SquashRuns(t, k);
      ConcatAssoc("-", SquashRuns(t, k), SquashRuns(b, k));
    } else {
      assert (a + b)[1..] == a[1..] + b;
      SquashAppend(a[1..], b, k);
      assert (a + b)[0] == a[0];
      assert SquashRuns(a + b, k) == [a[0]] + SquashRuns(a[1..] + b, k);
      assert SquashRuns(a, k) == [a[0]] + SquashRuns(a[1..], k);
      ConcatAssoc([a[0]], SquashRuns(a[1..], k), SquashRuns(b, k));
    }
  }

  predicate IsSlugChar(c: char) { IsLower(c) || IsDigit(c) || c == '_' || c == '-' }

  predicate AllSlugChars(s: string) { forall i :: 0 <= i < |s| ==> IsSlugChar(s[i]) }

  /** The characters that `/[^\w\-]+/g` does not remove. */
  predicate Kept(c: char) { IsWordChar(c) || c == '-' }

  /** `replace(/[^\w\-]+/g, '')`. */
  function DropUnkept(s: string): (r: string)
    ensures |r| <= |s|
    ensures forall i :: 0 <= i < |r| ==> Kept(r[i])
    ensures NoUpper(s) ==> AllSlugChars(r)
    ensures (forall i :: 0 <= i < |s| ==> Kept(s[i])) ==> r == s
  {
    if s == [] then []
    else (if Kept(s[0]) then [s[0]] else []) + DropUnkept(s[1..])
  }

  /** One character is kept or removed on its own ... */
  lemma DropUnkeptChar(c: char)
    ensures DropUnkept([c]) == if Kept(c) then [c] else []
  {
    assert [c][1..] == [];
  }

  /** ... and the filter works piece by piece, so the kept characters stay in order. */
  lemma {:induction false} DropUnkeptAppend(a: string, b: string)
    ensures DropUnkept(a + b) == DropUnkept(a) + DropUnkept(b)
    decreases |a|
  {
    if a == [] {
      assert a + b == b;
    } else {
      assert (a + b)[1..] == a[1..] + b;
      DropUnkeptAppend(a[1..], b);
    }
  }

  predicate NoDoubleHyphen(s: string)
  {
    forall i :: 0 <= i < |s| - 1 ==> !(s[i] == '-' && s[i + 1] == '-')
  }

  /** What the slug pipeline can produce. */
  predicate IsSlug(s: string)
  {
    (forall i :: 0 <= i < |s| ==> IsSlugChar(s[i])) && NoDoubleHyphen(s)
  }

  /** The pipeline of product.routes.js: lower-case, whitespace runs to `-`, drop what is
      not `[A-Za-z0-9_-]`, hyphen runs to one `-`, trim. */
  function Slugify(name: string): string
  {
    Trim(SquashRuns(DropUnkept(SquashRuns(Lower(name), Whitespace)), Hyphen))
  }

  lemma {:induction false} SquashHyphensNoDouble(s: string)
    ensures NoDoubleHyphen(SquashRuns(s, Hyphen))
    decreases |s|
  {
    if s == [] {
    } else if s[0] == '-' {
      var t := SkipRun(s, Hyphen);
      SquashHyphensNoDouble(t);
      var u := SquashRuns(t, Hyphen);
      assert SquashRuns(s, Hyphen) == "-" + u;
      assert u != [] ==> u[0] == t[0] && t[0] != '-';
    } else {
      SquashHyphensNoDouble(s[1..]);
    }
  }

  /** Every slug the pipeline produces uses only `[a-z0-9_-]` and has no `--`. */
  lemma SlugifyIsSlug(name: string)
    ensures IsSlug(Slugify(name))
  {
    var lowered := Lower(name);
    var dashed := SquashRuns(lowered, Whitespace);
    assert NoUpper(lowered);
    SquashKeepsNoUpper(lowered, Whitespace);
    var kept := DropUnkept(dashed);
    var squashed := SquashRuns(kept, Hyphen);
    SquashKeepsSlugChars(kept, Hyphen);
    SquashHyphensNoDouble(kept);
    TrimWithoutSpace(squashed);
  }

  lemma {:induction false} SquashWithoutRun(s: string, k: RunClass)
    requires k == Whitespace ==> NoSpace(s)
    requires k == Hyphen ==> NoDoubleHyphen(s)
    ensures SquashRuns(s, k) == s
    decreases |s|
  {
    if s != [] {
      SquashWithoutRun(s[1..], k);
      if InClass(s[0], k) {
        assert k == Hyphen;
        assert SkipRun(s, k) == s[1..];
      }
    }
  }

  lemma {:induction false} DropUnkeptKeepsSlug(s: string)
    requires forall i :: 0 <= i < |s| ==> IsSlugChar(s[i])
    ensures DropUnkept(s) == s
  {
    if s != [] {
      DropUnkeptKeepsSlug(s[1..]);
    }
  }

  /** A slug is a fixed point of the pipeline, and only a slug is. */
  lemma SlugFixedPoint(s: string)
    ensures Slugify(s) == s <==> IsSlug(s)
  {
    if IsSlug(s) {
      assert Lower(s) == s;
      SquashWithoutRun(s, Whitespace);
      DropUnkeptKeepsSlug(s);
      SquashWithoutRun(s, Hyphen);
      TrimWithoutSpace(s);
    }
    SlugifyIsSlug(s);
  }

  /** Normalising an already normalised slug returns it unchanged. */
  lemma SlugifyIdempotent(name: string)
    ensures Slugify(Slugify(name)) == Slugify(name)
  {
    SlugifyIsSlug(name);
    SlugFixedPoint(Slugify(name));
  }

  /** A non-empty run of small letters and digits. */
  predicate IsWord(s: string)
  {
    s != [] && forall i :: 0 <= i < |s| ==> IsLower(s[i]) || IsDigit(s[i])
  }

  /** What the pipeline does to a two-word lowercase name: the space becomes `-` and
      nothing else changes. */
  lemma SlugifyJoinsWords(a: string, b: string)
    requires IsWord(a) && IsWord(b)
    ensures Slugify(a + " " + b) == a + "-" + b
  {
    var name := a + " " + b;
    var dashed := a + "-" + b;
    assert NoUpper(name) by {
      forall i | 0 <= i < |name|
        ensures !IsUpper(name[i])
      {
        if i < |a| { assert name[i] == a[i]; }
        else if i > |a| { assert name[i] == b[i - |a| - 1]; }
      }
    }
    LowerFixedPoint(name);
    SpaceBetweenWords(a, b);
    JoinedWordsAreSlug(a, b);
    DropUnkeptKeepsSlug(dashed);
    SquashWithoutRun(dashed, Hyphen);
    TrimWithoutSpace(dashed);
  }

  lemma SpaceBetweenWords(a: string, b: string)
    requires IsWord(a) && IsWord(b)
    ensures SquashRuns(a + " " + b, Whitespace) == a + "-" + b
  {
    assert NoSpace(a) && NoSpace(b);
    ConcatAssoc(a, " ", b);
    SquashAppend(a, " " + b, Whitespace);
    SquashWithoutRun(a, Whitespace);
    SquashRunToOne(" ", b, Whitespace);
    SquashWithoutRun(b, Whitespace);
    ConcatAssoc(a, "-", b);
  }

  lemma JoinedWordsAreSlug(a: string, b: string)
    requires IsWord(a) && IsWord(b)
    ensures AllSlugChars(a + "-" + b) && NoSpace(a + "-" + b) && NoDoubleHyphen(a + "-" + b)
  {
    var dashed := a + "-" + b;
    forall i | 0 <= i < |dashed|
      ensures IsSlugChar(dashed[i]) && !IsSpace(dashed[i])
      ensures dashed[i] == '-' ==> i == |a|
    {
      if i < |a| { assert dashed[i] == a[i]; }
      else if i > |a| { assert dashed[i] == b[i - |a| - 1]; }
    }
  }

  /** A slug is stored lowercase: the schema's `lowercase` setter does not change it. */
  lemma SlugIsLowercase(s: string)
    requires forall i :: 0 <= i < |s| ==> IsSlugChar(s[i])
    ensures NoUpper(s) && Lower(s) == s
  {
    LowerFixedPoint(s);
  }

  function DigitChar(d: nat): (c: char)
    requires d < 10
    ensures IsDigit(c)
  {
    ('0' as int + d) as char
  }

  /** The decimal numeral of `n`, as a template literal writes a counter. */
  function Decimal(n: nat): (r: string)
    ensures |r| >= 1
    ensures forall i :: 0 <= i < |r| ==> IsDigit(r[i])
    ensures r[0] == '0' ==> n == 0
  {
    if n < 10 then [DigitChar(n)] else Decimal(n / 10) + [DigitChar(n % 10)]
  }

  function DigitsValue(s: string): nat
    requires forall i :: 0 <= i < |s| ==> IsDigit(s[i])
  {
    if s == [] then 0
    else
      assert IsDigit(s[|s| - 1]);
      10 * DigitsValue(s[..|s| - 1]) + (s[|s| - 1] as int - '0' as int)
  }

  /** Reading the numeral back gives the counter. */
  lemma {:induction false} DecimalRoundTrip(n: nat)
    ensures DigitsValue(Decimal(n)) == n
  {
    if n >= 10 {
      DecimalRoundTrip(n / 10);
      var s := Decimal(n);
      assert s[..|s| - 1] == Decimal(n / 10);
    }
  }

  /** The n-th name the collision loop tries: suffixes accumulate, `x`, `x-1`, `x-1-2`, ... */
  function Candidate(base: string, n: nat): (r: string)
    ensures |r| >= |base| + 2 * n
  {
    if n == 0 then base else Candidate(base, n - 1) + "-" + Decimal(n)
  }

  /** `slug` is the first candidate for `base` that is not taken. */
  ghost predicate FirstFreeCandidate(slug: string, base: string, taken: set<string>)
  {
    slug !in taken &&
    exists n: nat :: slug == Candidate(base, n) && forall j: nat :: j < n ==> Candidate(base, j) in taken
  }

  /** Appending a suffix to a slug keeps it within `[a-z0-9_-]`. */
  lemma {:induction false} CandidateChars(base: string, n: nat)
    requires forall i :: 0 <= i < |base| ==> IsSlugChar(base[i])
    ensures forall i :: 0 <= i < |Candidate(base, n)| ==> IsSlugChar(Candidate(base, n)[i])
  {
    if n > 0 {
      CandidateChars(base, n - 1);
    }
  }

  /** The suffix does not keep the no-`--` property: a base ending in `-` gives `--`. */
  lemma SuffixAfterTrailingHyphen()
    ensures IsSlug("cap-") && Candidate("cap-", 1) == "cap--1" && !NoDoubleHyphen("cap--1")
  {
    assert "cap--1"[3] == '-' && "cap--1"[4] == '-';
  }

  /** The candidates taken that are at least as long as `slug`: the loop's measure. */
  function TakenFrom(taken: set<string>, slug: string): set<string>
  {
    set t | t in taken && |t| >= |slug|
  }

  /** The collision loop of product.routes.js: while the slug is taken, append `-counter`
      to it and bump the counter. */
  method FreeSlug(base: string, taken: set<string>) returns (slug: string)
    ensures slug !in taken
    ensures base !in taken ==> slug == base
    ensures FirstFreeCandidate(slug, base, taken)
  {
    slug := base;
    var counter := 1;
    ghost var n: nat := 0;
    while slug in taken
      invariant counter == n + 1
      invariant slug == Candidate(base, n)
      invariant forall j: nat :: j < n ==> Candidate(base, j) in taken
      decreases TakenFrom(taken, slug)
    {
      var next := slug + "-" + Decimal(counter);
      assert slug in TakenFrom(taken, slug) && slug !in TakenFrom(taken, next);
      assert TakenFrom(taken, next) <= TakenFrom(taken, slug);
      slug := next;
      counter := counter + 1;
      n := n + 1;
    }
  }
}
