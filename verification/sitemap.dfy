/** The sitemap filter: a page is left out of the sitemap when its path is
    a second or later page of the blog listing, of a tag listing or of a
    category listing. The three patterns are anchored at the end of the
    path only, so they match wherever the listing sits. The filter starts
    from the page's path name; parsing the URL is not modelled. */
module Sitemap {

  import opened Wrappers
  import opened Strings
  import opened Sequences

  /** One of the filter's regular expressions: the literal `head`, then
      (when `segment` holds) one path segment and a slash, then one or more
      digits, a slash and the end of the path. */
  datatype Pattern = Pattern(head: string, segment: bool)

  /** `/\/blog\/\d+\/$/` */
  const BlogPage := Pattern("/blog/", false)

  /** `/\/blog\/tags\/[^/]+\/\d+\/$/` */
  const TagPage := Pattern("/blog/tags/", true)

  /** `/\/blog\/categories\/[^/]+\/\d+\/$/` */
  const CategoryPage := Pattern("/blog/categories/", true)

  /** `\d+\/$`: the whole of `t` is digits followed by one slash. */
  predicate DigitsToEnd(t: string) {
    |t| >= 2 && t[|t| - 1] == '/' && AllDigits(t[..|t| - 1])
  }

  /** `[^/]+\/\d+\/$`: a non-empty segment without slashes, then a slash,
      then `DigitsToEnd`. The segment cannot hold a slash, so it ends at
      the first one. */
  predicate SegmentThenDigits(t: string) {
    '/' in t && var k := FirstIndex(t, '/'); k >= 1 && DigitsToEnd(t[k + 1..])
  }

  /** The pattern matches the path starting at index `i`. */
  predicate MatchesAt(p: Pattern, path: string, i: nat) {
    && IsAt(path, i, p.head)
    && var rest := path[i + |p.head|..];
       if p.segment then SegmentThenDigits(rest) else DigitsToEnd(rest)
  }

  /** `RegExp.prototype.test`: the first index at which the pattern
      matches, trying the start positions from `from` onwards. */
  function FirstMatch(p: Pattern, path: string, from: nat): (r: Option<nat>)
    requires from <= |path|
    ensures r.Some? ==> from <= r.value <= |path| && MatchesAt(p, path, r.value)
    ensures r.Some? ==> forall i :: from <= i < r.value ==> !MatchesAt(p, path, i)
    ensures r.None? ==> forall i :: from <= i <= |path| ==> !MatchesAt(p, path, i)
    decreases |path| - from
  {
    if MatchesAt(p, path, from) then Some(from)
    else if from == |path| then None
    else FirstMatch(p, path, from + 1)
  }

  /** The last segment of the path is a number: the path ends with a slash,
      and between it and an earlier slash there are one or more digits. */
  ghost predicate NumericLastSegment(path: string) {
    exists k :: 0 <= k < |path| - 2 && path[k] == '/' && path[|path| - 1] == '/'
                && forall m :: k < m < |path| - 1 ==> IsDigit(path[m])
  }

  /** One or more decimal digits: a page number. */
  predicate IsNumber(digits: string) {
    |digits| > 0 && AllDigits(digits)
  }

  /** A non-empty path segment without slashes: a tag or category name. */
  predicate IsSegment(segment: string) {
    |segment| > 0 && '/' !in segment
  }

  /** The paths of the pages a pattern describes, written out: anything,
      the pattern's literal, a segment and a slash when the pattern has
      one, then a page number and a slash. */
  ghost predicate ListingPageOf(p: Pattern, path: string) {
    if p.segment then
      exists prefix, segment, digits ::
        IsSegment(segment) && IsNumber(digits) && path == prefix + p.head + segment + "/" + digits + "/"
    else
      exists prefix, digits :: IsNumber(digits) && path == prefix + p.head + digits + "/"
  }

  /** A second or later page of the blog listing, of a tag listing or of a
      category listing. */
  ghost predicate PaginatedListing(path: string) {
    ListingPageOf(BlogPage, path) || ListingPageOf(TagPage, path) || ListingPageOf(CategoryPage, path)
  }

  /** The filter: true keeps the page in the sitemap. Exactly the second
      and later pages of the three listings are left out, and only a page
      whose last segment is a number can be. */
  function KeepInSitemap(path: string): (keep: bool)
    ensures keep <==> !PaginatedListing(path)
    ensures !keep ==> NumericLastSegment(path)
  {
    var blog := FirstMatch(BlogPage, path, 0);
    var tag := FirstMatch(TagPage, path, 0);
    var category := FirstMatch(CategoryPage, path, 0);
    MatchIffListing(BlogPage, path);
    MatchIffListing(TagPage, path);
    MatchIffListing(CategoryPage, path);
    if blog.Some? then MatchedPathIsNumeric(BlogPage, path, blog.value); false
    else if tag.Some? then MatchedPathIsNumeric(TagPage, path, tag.value); false
    else if category.Some? then MatchedPathIsNumeric(CategoryPage, path, category.value); false
    else true
  }

  /** A pattern matches somewhere in the path exactly when the path has the
      form the pattern describes. */
  lemma MatchIffListing(p: Pattern, path: string)
    ensures FirstMatch(p, path, 0).Some? <==> ListingPageOf(p, path)
  {
    var m := FirstMatch(p, path, 0);
    if m.Some? {
      MatchIsListing(p, path, m.value);
    }
    if ListingPageOf(p, path) {
      ListingMatches(p, path);
    }
  }

  lemma MatchIsListing(p: Pattern, path: string, i: nat)
    requires MatchesAt(p, path, i)
    ensures ListingPageOf(p, path)
  {
    var prefix := path[..i];
    var rest := path[i + |p.head|..];
    SplitAtHead(path, i, p.head);
    if p.segment {
      var segment, digits := SegmentParts(rest);
      SegmentWitness(p, path, prefix, segment, digits);
    } else {
      var digits := rest[..|rest| - 1];
      assert rest == digits + "/";
      NumberWitness(p, path, prefix, digits);
    }
  }

  lemma SegmentWitness(p: Pattern, path: string, prefix: string, segment: string, digits: string)
    requires p.segment && IsSegment(segment) && IsNumber(digits)
    requires path == prefix + p.head + (segment + "/" + digits + "/")
    ensures ListingPageOf(p, path)
  {
    assert path == prefix + p.head + segment + "/" + digits + "/";
  }

  lemma NumberWitness(p: Pattern, path: string, prefix: string, digits: string)
    requires !p.segment && IsNumber(digits)
    requires path == prefix + p.head + (digits + "/")
    ensures ListingPageOf(p, path)
  {
    assert path == prefix + p.head + digits + "/";
  }

  lemma SplitAtHead(path: string, i: nat, head: string)
    requires IsAt(path, i, head)
    ensures path == path[..i] + head + path[i + |head|..]
  {
    assert path[i..i + |head|] == head;
  }

  /** The segment and the page number of a tail `[^/]+\/\d+\/`. */
  lemma SegmentParts(rest: string) returns (segment: string, digits: string)
    requires SegmentThenDigits(rest)
    ensures IsSegment(segment) && IsNumber(digits)
    ensures rest == segment + "/" + digits + "/"
  {
    var k := FirstIndex(rest, '/');
    segment := rest[..k];
    var tail := rest[k + 1..];
    digits := tail[..|tail| - 1];
    assert tail == digits + "/";
    assert rest == segment + "/" + tail;
  }

  lemma ListingMatches(p: Pattern, path: string)
    requires ListingPageOf(p, path)
    ensures FirstMatch(p, path, 0).Some?
  {
    if p.segment {
      var prefix, segment, digits :|
        IsSegment(segment) && IsNumber(digits) && path == prefix + p.head + segment + "/" + digits + "/";
      SegmentMatch(path, prefix, p, segment, digits);
    } else {
      var prefix, digits :| IsNumber(digits) && path == prefix + p.head + digits + "/";
      HeadMatch(path, prefix, p, digits);
    }
  }

  lemma HeadMatch(path: string, prefix: string, p: Pattern, digits: string)
    requires !p.segment && IsNumber(digits)
    requires path == prefix + p.head + digits + "/"
    ensures MatchesAt(p, path, |prefix|)
  {
    var start := |prefix| + |p.head|;
    assert path[|prefix|..start] == p.head;
    assert path[start..] == digits + "/";
    DigitsThenSlash(digits);
  }

  /* ---------------------------------------------------------- properties */

  /** Every pattern ends in a slash, digits and a slash, so a match means a
      numeric last segment. */
  lemma MatchedPathIsNumeric(p: Pattern, path: string, i: nat)
    requires |p.head| > 0 && p.head[|p.head| - 1] == '/'
    requires MatchesAt(p, path, i)
    ensures NumericLastSegment(path)
  {
    var start := i + |p.head|;
    if p.segment {
      SegmentTail(path, start);
    } else {
      assert path[start - 1] == path[i..i + |p.head|][|p.head| - 1];
      SlashThenDigits(path, start - 1);
    }
  }

  /** A tail of the form `[^/]+\/\d+\/$` is a numeric last segment. */
  lemma SegmentTail(path: string, start: nat)
    requires start <= |path| && SegmentThenDigits(path[start..])
    ensures NumericLastSegment(path)
  {
    var rest := path[start..];
    var j := FirstIndex(rest, '/');
    var k := start + j;
    assert path[k] == rest[j];
    assert path[k + 1..] == rest[j + 1..];
    SlashThenDigits(path, k);
  }

  /** A slash followed by `\d+\/$` is a numeric last segment. */
  lemma SlashThenDigits(path: string, k: nat)
    requires k < |path| && path[k] == '/' && DigitsToEnd(path[k + 1..])
    ensures NumericLastSegment(path)
  {
    var digits := path[k + 1..];
    forall m | k < m < |path| - 1 ensures IsDigit(path[m]) {
      assert path[m] == digits[..|digits| - 1][m - k - 1];
    }
    assert path[|path| - 1] == digits[|digits| - 1];
  }

  /** `/blog/2/`, `/blog/3/`, … are left out, wherever the blog sits. */
  lemma BlogPageDropped(prefix: string, digits: string)
    requires |digits| > 0 && AllDigits(digits)
    ensures !KeepInSitemap(prefix + "/blog/" + digits + "/")
  {
    var path := prefix + "/blog/" + digits + "/";
    assert path[|prefix|..|prefix| + 6] == "/blog/";
    var rest := path[|prefix| + 6..];
    assert rest == digits + "/";
    assert rest[..|rest| - 1] == digits;
    assert MatchesAt(BlogPage, path, |prefix|);
  }

  /** The second and later pages of a tag listing are left out. */
  lemma TagPageDropped(prefix: string, tag: string, digits: string)
    requires |tag| > 0 && '/' !in tag
    requires |digits| > 0 && AllDigits(digits)
    ensures !KeepInSitemap(prefix + "/blog/tags/" + tag + "/" + digits + "/")
  {
    var path := prefix + "/blog/tags/" + tag + "/" + digits + "/";
    SegmentMatch(path, prefix, TagPage, tag, digits);
  }

  /** The second and later pages of a category listing are left out. */
  lemma CategoryPageDropped(prefix: string, category: string, digits: string)
    requires |category| > 0 && '/' !in category
    requires |digits| > 0 && AllDigits(digits)
    ensures !KeepInSitemap(prefix + "/blog/categories/" + category + "/" + digits + "/")
  {
    var path := prefix + "/blog/categories/" + category + "/" + digits + "/";
    SegmentMatch(path, prefix, CategoryPage, category, digits);
  }

  lemma SegmentMatch(path: string, prefix: string, p: Pattern, segment: string, digits: string)
    requires p.segment
    requires |segment| > 0 && '/' !in segment
    requires |digits| > 0 && AllDigits(digits)
    requires path == prefix + p.head + segment + "/" + digits + "/"
    ensures MatchesAt(p, path, |prefix|)
  {
    var start := |prefix| + |p.head|;
    assert path[|prefix|..start] == p.head;
    assert path[start..] == segment + "/" + digits + "/";
    SegmentTailMatches(segment, digits);
  }

  lemma SegmentTailMatches(segment: string, digits: string)
    requires |segment| > 0 && '/' !in segment
    requires |digits| > 0 && AllDigits(digits)
    ensures SegmentThenDigits(segment + "/" + digits + "/")
  {
    var t := segment + "/" + digits + "/";
    var k := |segment|;
    assert t[..k] == segment;
    assert t[k] == '/';
    assert FirstIndex(t, '/') == k;
    DigitsThenSlash(digits);
    assert t[k + 1..] == digits + "/";
  }

  lemma DigitsThenSlash(digits: string)
    requires |digits| > 0 && AllDigits(digits)
    ensures DigitsToEnd(digits + "/")
  {
    assert (digits + "/")[..|digits|] == digits;
  }

  /** A path that does not end with a slash is always kept: `/blog/2`
      stays in the sitemap. */
  lemma NoTrailingSlashKept(path: string)
    requires |path| == 0 || path[|path| - 1] != '/'
    ensures KeepInSitemap(path)
  {
  }

  /** A path whose last segment is not a number is always kept: the first
      page of every listing stays in the sitemap. */
  lemma NonNumericLastSegmentKept(prefix: string, segment: string)
    requires '/' !in segment
    requires !(|segment| > 0 && AllDigits(segment))
    ensures KeepInSitemap(prefix + "/" + segment + "/")
  {
    var path := prefix + "/" + segment + "/";
    var n := |prefix|;
    assert path[n] == '/';
    forall m | n < m < |path| - 1 ensures path[m] == segment[m - n - 1] {
    }
    forall k | 0 <= k < |path| - 2 && path[k] == '/' && path[|path| - 1] == '/'
      ensures exists m :: k < m < |path| - 1 && !IsDigit(path[m])
    {
      if k < n {
        assert !IsDigit(path[n]);
      } else {
        assert k == n;
        var j :| 0 <= j < |segment| && !IsDigit(segment[j]);
        assert !IsDigit(path[n + 1 + j]);
      }
    }
  }

  lemma BlogIndexKept()
    ensures KeepInSitemap("/blog/")
    ensures KeepInSitemap("/blog/tags/astro/")
  {
    assert !IsDigit("blog"[0]);
    NonNumericLastSegmentKept("", "blog");
    assert "" + "/" + "blog" + "/" == "/blog/";
    assert !IsDigit("astro"[0]);
    NonNumericLastSegmentKept("/blog/tags", "astro");
    assert "/blog/tags" + "/" + "astro" + "/" == "/blog/tags/astro/";
  }

  lemma NestedBlogPageDropped()
    ensures !KeepInSitemap("/x/blog/2/")
    ensures KeepInSitemap("/blog/2")
  {
    BlogPageDropped("/x", "2");
    assert "/x" + "/blog/" + "2" + "/" == "/x/blog/2/";
    NoTrailingSlashKept("/blog/2");
  }
}
