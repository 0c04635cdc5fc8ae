/** URL slugs of locations and services: the slug grammar both schemas use
    and the duplicate-slug check both validators run after the schema
    passes. */
module Slugs {

  import opened Strings
  import opened Sequences
  import opened Issues

  predicate IsSlugChar(c: char) {
    'a' <= c <= 'z' || IsDigit(c)
  }

  /** `[a-z0-9]+` */
  predicate IsSegment(s: string) {
    |s| > 0 && forall i :: 0 <= i < |s| ==> IsSlugChar(s[i])
  }

  /** `/^[a-z0-9]+(?:-[a-z0-9]+)*$/`: the hyphen-separated pieces of the
      string are all `[a-z0-9]+` segments. */
  predicate MatchesSlugPattern(s: string) {
    var parts := Split(s, '-');
    forall i :: 0 <= i < |parts| ==> IsSegment(parts[i])
  }

  /** `z.string().min(1).regex(...)` */
  predicate IsValidSlug(s: string) {
    |s| >= 1 && MatchesSlugPattern(s)
  }

  /** The character-level reading of the grammar: non-empty, only
      `[a-z0-9-]`, no hyphen at either end and no two hyphens in a row. */
  predicate HyphenatedLowercase(s: string) {
    && |s| > 0
    && (forall i :: 0 <= i < |s| ==> IsSlugChar(s[i]) || s[i] == '-')
    && s[0] != '-' && s[|s| - 1] != '-'
    && (forall i :: 0 <= i < |s| - 1 ==> !(s[i] == '-' && s[i + 1] == '-'))
  }

  /** A slug is valid exactly when it is lowercase letters and digits in
      runs joined by single hyphens. */
  lemma {:induction false} SlugGrammar(s: string)
    ensures IsValidSlug(s) <==> HyphenatedLowercase(s)
  {
    if |s| > 0 {
      PatternByChars(s);
    }
  }

  lemma {:induction false} PatternByChars(s: string)
    requires |s| > 0
    ensures MatchesSlugPattern(s) <==> HyphenatedLowercase(s)
    decreases |s|
  {
    var c := s[0];
    var t := s[1..];
    var rest := Split(t, '-');
    var parts := Split(s, '-');
    if c == '-' {
      assert parts[0] == "";
    } else if |t| == 0 {
      assert rest == [""];
      assert parts == [[c] + rest[0]] + rest[1..];
      assert [c] + rest[0] == [c] && rest[1..] == [];
      assert parts == [[c]];
      assert s == [c];
    } else if t[0] == '-' {
      var u := t[1..];
      assert rest == [""] + Split(u, '-');
      assert parts == [[c] + rest[0]] + rest[1..];
      assert [c] + rest[0] == [c] && rest[1..] == Split(u, '-');
      assert parts == [[c]] + Split(u, '-');
      if |u| == 0 {
        assert Split(u, '-') == [""];
        assert !IsSegment(parts[1]);
      } else {
        PatternByChars(u);
        if HyphenatedLowercase(s) {
          assert u == s[2..];
          assert HyphenatedLowercase(u);
          forall i | 0 <= i < |parts| ensures IsSegment(parts[i]) {
            if i > 0 { assert parts[i] == Split(u, '-')[i - 1]; }
          }
        }
        if MatchesSlugPattern(s) {
          assert IsSegment(parts[0]);
          forall i | 0 <= i < |Split(u, '-')| ensures IsSegment(Split(u, '-')[i]) {
            assert Split(u, '-')[i] == parts[i + 1];
          }
          assert HyphenatedLowercase(u);
          assert s == [c, '-'] + u;
          forall i | 0 <= i < |s| - 1 ensures !(s[i] == '-' && s[i + 1] == '-') {
            if i >= 2 { assert s[i] == u[i - 2] && s[i + 1] == u[i - 1]; }
          }
        }
      }
    } else {
      PatternByChars(t);
      assert parts == [[c] + rest[0]] + rest[1..];
      if HyphenatedLowercase(s) {
        assert HyphenatedLowercase(t) by {
          forall i | 0 <= i < |t| - 1 ensures !(t[i] == '-' && t[i + 1] == '-') {
            assert t[i] == s[i + 1] && t[i + 1] == s[i + 2];
          }
        }
        forall i | 0 <= i < |parts| ensures IsSegment(parts[i]) {
          if i > 0 { assert parts[i] == rest[i]; }
          else {
            assert IsSegment(rest[0]);
            forall k | 0 <= k < |parts[0]| ensures IsSlugChar(parts[0][k]) {
              if k > 0 { assert parts[0][k] == rest[0][k - 1]; }
            }
          }
        }
      }
      if MatchesSlugPattern(s) {
        forall i | 0 <= i < |rest| ensures IsSegment(rest[i]) {
          if i > 0 { assert rest[i] == parts[i]; }
          else {
            assert IsSegment(parts[0]);
            assert t[0] in rest[0] by {
              assert rest == Split(t, '-');
              assert rest[0] == [t[0]] + Split(t[1..], '-')[0];
            }
            forall k | 0 <= k < |rest[0]| ensures IsSlugChar(rest[0][k]) {
              assert rest[0][k] == parts[0][k + 1];
            }
          }
        }
        assert HyphenatedLowercase(t);
        assert s == [c] + t;
        assert IsSlugChar(c) by { assert parts[0][0] == c; }
        forall i | 0 <= i < |s| - 1 ensures !(s[i] == '-' && s[i + 1] == '-') {
          if i >= 1 { assert s[i] == t[i - 1] && s[i + 1] == t[i]; }
        }
      }
    }
  }

  /* -------------------------------------------------------- duplicates */

  /** The issues of the slug property, identical for both schemas: the
      length check, then the pattern; an empty slug fails both. */
  function SlugIssues(slug: string): (r: seq<Issue>)
    ensures r == [] <==> IsValidSlug(slug)
    ensures slug == "" ==> r == [Issue([Key("slug")], "Slug is required"),
                                 Issue([Key("slug")], "Slug must be lowercase with hyphens only")]
  {
    assert slug == "" ==> Split(slug, '-') == [""] && !IsSegment(Split(slug, '-')[0]);
    Check(|slug| >= 1, [Key("slug")], "Slug is required")
    + Check(MatchesSlugPattern(slug), [Key("slug")], "Slug must be lowercase with hyphens only")
  }

  /** `slugs.filter((slug, index) => slugs.indexOf(slug) !== index)`: every
      slug at a position where it already occurred earlier. */
  function Repeats(slugs: seq<string>): seq<string> {
    if |slugs| == 0 then []
    else
      var earlier := slugs[..|slugs| - 1];
      var slug := slugs[|slugs| - 1];
      Repeats(earlier) + (if slug in earlier then [slug] else [])
  }

  /** `[...new Set(duplicates)]`: the duplicates the error message lists. */
  function DuplicateSlugs(slugs: seq<string>): seq<string> {
    Dedupe(Repeats(slugs))
  }

  /** The index of the second occurrence of a slug that occurs at least
      twice. */
  function SecondIndex(slugs: seq<string>, slug: string): (k: nat)
    requires multiset(slugs)[slug] >= 2
    ensures FirstIndex(slugs, slug) < k < |slugs| && slugs[k] == slug
    ensures multiset(slugs[..k])[slug] == 1
  {
    var i := FirstIndex(slugs, slug);
    var after := slugs[i + 1..];
    SplitAround(slugs, i);
    assert multiset(slugs[..i])[slug] == 0;
    assert multiset(after)[slug] >= 1;
    var j := FirstIndex(after, slug);
    var k := i + 1 + j;
    assert slugs[..k] == slugs[..i] + [slug] + after[..j];
    assert multiset(after[..j])[slug] == 0;
    k
  }

  lemma SplitAround(s: seq<string>, i: nat)
    requires i < |s|
    ensures s == s[..i] + [s[i]] + s[i + 1..]
    ensures multiset(s) == multiset(s[..i]) + multiset{s[i]} + multiset(s[i + 1..])
  {
    assert s == s[..i] + [s[i]] + s[i + 1..];
  }

  lemma RepeatsMembership(slugs: seq<string>, x: string)
    ensures x in Repeats(slugs) <==> multiset(slugs)[x] >= 2
  {
    if |slugs| > 0 {
      var earlier := slugs[..|slugs| - 1];
      RepeatsMembership(earlier, x);
      assert slugs == earlier + [slugs[|slugs| - 1]];
    }
  }

  lemma SecondIndexAppend(slugs: seq<string>, y: string, x: string)
    requires multiset(slugs)[x] >= 2
    ensures multiset(slugs + [y])[x] >= 2
    ensures SecondIndex(slugs + [y], x) == SecondIndex(slugs, x)
  {
    var s := slugs + [y];
    var k := SecondIndex(slugs, x);
    assert s[..k] == slugs[..k];
    SecondIndexUnique(s, x, k);
  }

  /** The second occurrence is the one position holding the slug with exactly
      one occurrence before it. */
  lemma SecondIndexUnique(slugs: seq<string>, x: string, k: nat)
    requires k < |slugs| && slugs[k] == x && multiset(slugs[..k])[x] == 1
    ensures multiset(slugs)[x] >= 2
    ensures SecondIndex(slugs, x) == k
  {
    assert slugs == slugs[..k] + [x] + slugs[k + 1..];
    var k' := SecondIndex(slugs, x);
    if k' < k {
      assert slugs[..k' + 1] == slugs[..k'] + [x];
      PrefixCountGrows(slugs, k' + 1, k, x);
      assert false;
    } else if k < k' {
      assert slugs[..k + 1] == slugs[..k] + [x];
      PrefixCountGrows(slugs, k + 1, k', x);
      assert false;
    }
  }

  lemma PrefixCountGrows(s: seq<string>, a: nat, b: nat, x: string)
    requires a <= b <= |s|
    ensures multiset(s[..a])[x] <= multiset(s[..b])[x]
  {
    assert s[..b] == s[..a] + s[a..b];
  }

  lemma DuplicateSlugsMembership(slugs: seq<string>, x: string)
    ensures x in DuplicateSlugs(slugs) <==> multiset(slugs)[x] >= 2
  {
    RepeatsMembership(slugs, x);
    var r := Repeats(slugs);
    if x in r {
      var i :| 0 <= i < |r| && r[i] == x;
      assert r[i] in Dedupe(r);
    }
  }

  /** Appending a slug adds it to the duplicate list exactly when it is the
      slug's second occurrence. */
  lemma DuplicateSlugsSnoc(earlier: seq<string>, y: string)
    ensures DuplicateSlugs(earlier + [y]) ==
              if multiset(earlier)[y] == 1 then DuplicateSlugs(earlier) + [y] else DuplicateSlugs(earlier)
  {
    var slugs := earlier + [y];
    assert slugs[..|slugs| - 1] == earlier;
    var r0 := Repeats(earlier);
    RepeatsMembership(earlier, y);
    if y in earlier {
      assert Repeats(slugs) == r0 + [y];
      DedupeSnoc(r0, y);
    } else {
      assert Repeats(slugs) == r0;
    }
  }

  /** The duplicate list names every slug occurring more than once, each
      exactly once, in the order of their second occurrences. */
  lemma DuplicateSlugsSpec(slugs: seq<string>)
    ensures forall x :: x in DuplicateSlugs(slugs) <==> multiset(slugs)[x] >= 2
    ensures NoDuplicates(DuplicateSlugs(slugs))
    ensures OrderedBySecondOccurrence(slugs, DuplicateSlugs(slugs))
  {
    forall x ensures x in DuplicateSlugs(slugs) <==> multiset(slugs)[x] >= 2 {
      DuplicateSlugsMembership(slugs, x);
    }
    DuplicateSlugsOrder(slugs);
  }

  ghost predicate OrderedBySecondOccurrence(slugs: seq<string>, d: seq<string>) {
    forall i, j :: 0 <= i < j < |d| ==>
      && multiset(slugs)[d[i]] >= 2
      && multiset(slugs)[d[j]] >= 2
      && SecondIndex(slugs, d[i]) < SecondIndex(slugs, d[j])
  }

  lemma {:induction false} DuplicateSlugsOrder(slugs: seq<string>)
    ensures OrderedBySecondOccurrence(slugs, DuplicateSlugs(slugs))
  {
    if |slugs| > 0 {
      var earlier := slugs[..|slugs| - 1];
      var y := slugs[|slugs| - 1];
      assert slugs == earlier + [y];
      DuplicateSlugsOrder(earlier);
      DuplicateSlugsSnoc(earlier, y);
      var d := DuplicateSlugs(slugs);
      var d0 := DuplicateSlugs(earlier);
      assert d == d0 || (d == d0 + [y] && multiset(earlier)[y] == 1);
      forall i, j | 0 <= i < j < |d|
        ensures multiset(slugs)[d[i]] >= 2 && multiset(slugs)[d[j]] >= 2
        ensures SecondIndex(slugs, d[i]) < SecondIndex(slugs, d[j])
      {
        assert d[i] == d0[i];
        DuplicateSlugsMembership(earlier, d[i]);
        SecondIndexAppend(earlier, y, d[i]);
        if j < |d0| {
          assert d[j] == d0[j];
          DuplicateSlugsMembership(earlier, d[j]);
          SecondIndexAppend(earlier, y, d[j]);
        } else {
          assert d[j] == y && multiset(earlier)[y] == 1;
          assert slugs[..|earlier|] == earlier;
          SecondIndexUnique(slugs, y, |earlier|);
        }
      }
      assert OrderedBySecondOccurrence(slugs, d);
    } else {
      assert Repeats(slugs) == [];
    }
  }

  /** No duplicates are reported exactly when all slugs are distinct. */
  lemma DuplicateSlugsEmpty(slugs: seq<string>)
    ensures DuplicateSlugs(slugs) == [] <==> NoDuplicates(slugs)
  {
    if !NoDuplicates(slugs) {
      var i, j :| 0 <= i < j < |slugs| && slugs[i] == slugs[j];
      var x := slugs[i];
      assert slugs[..j + 1] == slugs[..i] + [x] + slugs[i + 1..j] + [x];
      PrefixCountGrows(slugs, j + 1, |slugs|, x);
      assert slugs[..|slugs|] == slugs;
      DuplicateSlugsMembership(slugs, x);
    }
    if DuplicateSlugs(slugs) != [] {
      var x := DuplicateSlugs(slugs)[0];
      DuplicateSlugsMembership(slugs, x);
      var k := SecondIndex(slugs, x);
      var f := FirstIndex(slugs, x);
      assert slugs[f] == slugs[k] && f < k;
    }
  }

  /** `"a", "b"`: the slugs in double quotes, separated by a comma and a
      space. */
  function QuotedList(slugs: seq<string>): string {
    Join(seq(|slugs|, i requires 0 <= i < |slugs| => "\"" + slugs[i] + "\""), ", ")
  }

  /** The text of the duplicate-slug error, for `entity` `location` or
      `service`. */
  function DuplicateMessage(duplicates: seq<string>, entity: string): string {
    "Duplicate slugs found: " + QuotedList(duplicates) + ". Each " + entity + " must have a unique slug."
  }
}
