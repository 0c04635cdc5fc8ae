/** Related posts: candidates are scored by the tags and categories they
    share with the current post (ten points a tag, five a category), ranked
    by score with a deterministic hash tie-break, and cut to a limit. */
module RelatedPosts {

  import opened Strings
  import opened Sequences
  import opened Sorting
  import opened Blog

  /* ---------------------------------------------------------------- hash */

  /** The UTF-16 code units of one character: itself below U+10000, a
      surrogate pair above. */
  function CodeUnitsOf(c: char): (r: seq<int>)
    ensures 1 <= |r| <= 2
    ensures forall k :: 0 <= k < |r| ==> 0 <= r[k] < 0x1_0000
    ensures |r| == 1 <==> c as int < 0x1_0000
    ensures |r| == 1 ==> r[0] == c as int
    ensures |r| == 2 ==> && 0xD800 <= r[0] < 0xDC00 && 0xDC00 <= r[1] < 0xE000
                         && 0x1_0000 + (r[0] - 0xD800) * 0x400 + (r[1] - 0xDC00) == c as int
  {
    if c as int < 0x1_0000 then [c as int]
    else
      var v := c as int - 0x1_0000;
      [0xD800 + v / 0x400, 0xDC00 + v % 0x400]
  }

  /** The string as JavaScript sees it: `str.length` code units, each
      `str.charCodeAt(i)`. */
  function CodeUnits(s: string): (r: seq<int>)
    ensures |s| <= |r| <= 2 * |s|
    ensures forall k :: 0 <= k < |r| ==> 0 <= r[k] < 0x1_0000
  {
    if |s| == 0 then []
    else CodeUnits(s[..|s| - 1]) + CodeUnitsOf(s[|s| - 1])
  }

  /** djb2: start at 5381, then `hash * 33 ^ unit` for every code unit,
      in 32-bit arithmetic. */
  function Djb2(units: seq<int>): bv32
    requires forall k :: 0 <= k < |units| ==> 0 <= units[k] < 0x1_0000
  {
    if |units| == 0 then 5381
    else
      var n := |units| - 1;
      Djb2Step(Djb2(units[..n]), units[n])
  }

  /** `(hash * 33) ^ unit`, wrapping at 32 bits. */
  function Djb2Step(hash: bv32, unit: int): bv32
    requires 0 <= unit < 0x1_0000
  {
    (hash * 33) ^ (unit as bv32)
  }

  function HashBits(s: string): bv32 {
    Djb2(CodeUnits(s))
  }

  /** `hashString(str)`, an unsigned 32-bit number. */
  function HashString(s: string): (h: int)
    ensures 0 <= h < 0x1_0000_0000
    ensures h == HashBits(s) as int
  {
    HashBits(s) as int
  }

  /** The loop of `hashString` over the code units; it computes the fold. */
  method ComputeHash(s: string) returns (h: int)
    ensures h == HashString(s)
  {
    var units := CodeUnits(s);
    var hash: bv32 := 5381;
    var i := 0;
    while i < |units|
      invariant 0 <= i <= |units|
      invariant hash == Djb2(units[..i])
    {
      assert units[..i + 1][..i] == units[..i];
      hash := Djb2Step(hash, units[i]);
      i := i + 1;
    }
    assert units[..|units|] == units;
    h := hash as int;
  }

  /** ECMAScript ToInt32: the 32 bits read as a signed number. */
  function ToInt32(x: bv32): (r: int)
    ensures -0x8000_0000 <= r < 0x8000_0000
    ensures r == x as int || r == x as int - 0x1_0000_0000
  {
    var v := x as int;
    if v < 0x8000_0000 then v else v - 0x1_0000_0000
  }

  /** `hashString(post.id) ^ hashString(currentPost.id)`, the tie-break key. */
  function TieKey(current: BlogPost, p: BlogPost): int {
    ToInt32(HashBits(p.id) ^ HashBits(current.id))
  }

  /* --------------------------------------------------------------- score */

  /** `set1.has(item.toLowerCase())` where `set1` holds the lower-cased
      elements of `a`. */
  predicate SharesWith(a: seq<string>, x: string) {
    exists i :: 0 <= i < |a| && Lower(a[i]) == Lower(x)
  }

  /** `countSharedElements(a, b)`: the elements of `b`, repeats included,
      that occur in `a` up to case. */
  function CountShared(a: seq<string>, b: seq<string>): (n: nat)
    ensures n <= |b|
    ensures n == 0 <==> forall j :: 0 <= j < |b| ==> !SharesWith(a, b[j])
    ensures n == |b| <==> forall j :: 0 <= j < |b| ==> SharesWith(a, b[j])
  {
    if |b| == 0 then 0
    else
      var k := |b| - 1;
      var m := CountShared(a, b[..k]);
      assert forall j :: 0 <= j < k ==> b[..k][j] == b[j];
      m + (if SharesWith(a, b[k]) then 1 else 0)
  }

  /** Counting over two lists is counting over each, so every repeat of a
      shared element in `b` counts. */
  lemma {:induction false} CountSharedAppend(a: seq<string>, b: seq<string>, c: seq<string>)
    ensures CountShared(a, b + c) == CountShared(a, b) + CountShared(a, c)
  {
    if |c| == 0 {
      assert b + c == b;
    } else {
      var k := |c| - 1;
      CountSharedAppend(a, b, c[..k]);
      SnocParts(b, c);
      CountSharedSnoc(a, b + c);
      CountSharedSnoc(a, c);
    }
  }

  lemma SnocParts(b: seq<string>, c: seq<string>)
    requires |c| > 0
    ensures (b + c)[..|b + c| - 1] == b + c[..|c| - 1]
    ensures (b + c)[|b + c| - 1] == c[|c| - 1]
  {
  }

  lemma CountSharedSnoc(a: seq<string>, b: seq<string>)
    requires |b| > 0
    ensures CountShared(a, b) == CountShared(a, b[..|b| - 1]) + (if SharesWith(a, b[|b| - 1]) then 1 else 0)
  {
  }

  function LowerAll(a: seq<string>): (r: seq<string>)
    ensures |r| == |a| && forall i :: 0 <= i < |a| ==> r[i] == Lower(a[i])
  {
    seq(|a|, i requires 0 <= i < |a| => Lower(a[i]))
  }

  lemma SharesWithLower(a: seq<string>, x: string)
    ensures SharesWith(LowerAll(a), Lower(x)) <==> SharesWith(a, x)
  {
    LowerIdempotent(x);
    forall i | 0 <= i < |a| ensures Lower(LowerAll(a)[i]) == Lower(a[i]) {
      LowerIdempotent(a[i]);
    }
  }

  /** Lower-casing either list does not change the count. */
  lemma {:induction false} CountSharedCaseInsensitive(a: seq<string>, b: seq<string>)
    ensures CountShared(LowerAll(a), LowerAll(b)) == CountShared(a, b)
  {
    var la := LowerAll(a);
    var lb := LowerAll(b);
    if |b| == 0 {
      assert |lb| == 0;
    } else {
      var k := |b| - 1;
      CountSharedCaseInsensitive(a, b[..k]);
      assert lb[..k] == LowerAll(b[..k]);
      var before := CountShared(a, b[..k]);
      assert CountShared(la, lb[..k]) == before;
      SharesWithLower(a, b[k]);
      var shared := SharesWith(a, b[k]);
      assert SharesWith(la, lb[k]) == shared;
      assert |lb| == |b|;
      CountSharedSnoc(la, lb);
      assert CountShared(la, lb) == before + (if shared then 1 else 0);
      CountSharedSnoc(a, b);
    }
  }

  /** Ten points for each shared tag, five for each shared category. */
  function Score(current: BlogPost, p: BlogPost): (s: nat)
    ensures s == 10 * CountShared(current.data.tags, p.data.tags)
                 + 5 * CountShared(current.data.categories, p.data.categories)
    ensures s <= 10 * |p.data.tags| + 5 * |p.data.categories|
  {
    var sharedTags := CountShared(current.data.tags, p.data.tags);
    var sharedCategories := CountShared(current.data.categories, p.data.categories);
    sharedTags * 10 + sharedCategories * 5
  }

  /* ------------------------------------------------------------- ranking */

  /** The main comparator: `b.score - a.score` when the scores differ,
      `hashA - hashB` otherwise. The source sorts records that carry the
      score next to the post; as the score is a function of the post, the
      posts are sorted here directly. */
  predicate RankLe(current: BlogPost, p: BlogPost, q: BlogPost) {
    var sp := Score(current, p);
    var sq := Score(current, q);
    if sp != sq then sq - sp <= 0 else TieKey(current, p) - TieKey(current, q) <= 0
  }

  /** The fallback comparator: `hashA - hashB` alone. */
  predicate TieLe(current: BlogPost, p: BlogPost, q: BlogPost) {
    TieKey(current, p) - TieKey(current, q) <= 0
  }

  function RankOrder(current: BlogPost): (BlogPost, BlogPost) -> bool {
    (p, q) => RankLe(current, p, q)
  }

  function TieOrder(current: BlogPost): (BlogPost, BlogPost) -> bool {
    (p, q) => TieLe(current, p, q)
  }

  lemma RankOrderConsistent(current: BlogPost)
    ensures TotalPreorder(RankOrder(current))
    ensures TotalPreorder(TieOrder(current))
  {
  }

  /** Highest score first, and among equal scores the smaller tie key
      first. */
  predicate Ranked(current: BlogPost, s: seq<BlogPost>) {
    forall i, j :: 0 <= i < j < |s| ==>
      && Score(current, s[i]) >= Score(current, s[j])
      && (Score(current, s[i]) == Score(current, s[j]) ==> TieKey(current, s[i]) <= TieKey(current, s[j]))
  }

  /** `allPosts.filter((post) => post.id !== currentPost.id)`: every post
      whose id differs from the current one, as often as `all` holds it and
      in the order of `all`. */
  function Others(current: BlogPost, all: seq<BlogPost>): (r: seq<BlogPost>)
    ensures forall i :: 0 <= i < |r| ==> r[i].id != current.id && r[i] in all
    ensures forall i :: 0 <= i < |all| && all[i].id != current.id ==> all[i] in r
    ensures forall p: BlogPost :: p.id != current.id ==> multiset(r)[p] == multiset(all)[p]
    ensures Subsequence(r, all)
  {
    var keep := (p: BlogPost) => p.id != current.id;
    var r := Filter(all, keep);
    assert forall i :: 0 <= i < |r| ==> r[i] in multiset(all);
    FilterKeepsCounts(all, keep);
    FilterIsSubsequence(all, keep);
    r
  }

  /** When every score is zero the main order is the tie order, so the
      fallback sort leaves the sequence as it is. */
  lemma FallbackIsIdentity(current: BlogPost, s: seq<BlogPost>)
    requires Sorted(s, RankOrder(current))
    requires forall i :: 0 <= i < |s| ==> Score(current, s[i]) == 0
    ensures Sort(s, TieOrder(current)) == s
  {
    assert Sorted(s, TieOrder(current)) by {
      forall i, j | 0 <= i < j < |s| ensures TieOrder(current)(s[i], s[j]) {
        assert RankOrder(current)(s[i], s[j]);
      }
    }
    SortOfSorted(s, TieOrder(current));
  }

  lemma RankedPrefix(current: BlogPost, s: seq<BlogPost>, n: nat)
    requires n <= |s| && Ranked(current, s)
    ensures Ranked(current, s[..n])
  {
    assert forall i :: 0 <= i < n ==> s[..n][i] == s[i];
  }

  /** The other posts in the order the function returns them before the
      cut: a permutation of the other posts, ranked. */
  function Ranking(current: BlogPost, all: seq<BlogPost>): (r: seq<BlogPost>)
    ensures multiset(r) == multiset(Others(current, all))
    ensures |r| == |Others(current, all)|
    ensures forall i :: 0 <= i < |r| ==> r[i].id != current.id && r[i] in all
    ensures Ranked(current, r)
  {
    var others := Others(current, all);
    RankOrderConsistent(current);
    SortSorted(others, RankOrder(current));
    var sorted := Sort(others, RankOrder(current));
    assert Ranked(current, sorted) by {
      forall i, j | 0 <= i < j < |sorted|
        ensures Score(current, sorted[i]) >= Score(current, sorted[j])
        ensures Score(current, sorted[i]) == Score(current, sorted[j]) ==>
                  TieKey(current, sorted[i]) <= TieKey(current, sorted[j])
      {
        assert RankOrder(current)(sorted[i], sorted[j]);
      }
    }
    forall i | 0 <= i < |sorted| ensures sorted[i].id != current.id && sorted[i] in all {
      assert sorted[i] in multiset(others);
    }
    if exists i :: 0 <= i < |sorted| && Score(current, sorted[i]) > 0 then sorted
    else
      FallbackIsIdentity(current, sorted);
      Sort(sorted, TieOrder(current))
  }

  /** The number of related posts when the caller gives no limit. */
  const DefaultLimit := 3

  /** `getRelatedPosts(currentPost, allPosts, limit)`: never the current
      post, `min(limit, #others)` posts for a non-negative limit (a
      negative one counts from the end, as `slice` does), and the first
      ones of the ranking. */
  function GetRelatedPosts(current: BlogPost, all: seq<BlogPost>, limit: int := DefaultLimit): (r: seq<BlogPost>)
    ensures forall i :: 0 <= i < |r| ==> r[i].id != current.id && r[i] in all
    ensures |r| == SliceLength(|Others(current, all)|, limit)
    ensures r == Take(Ranking(current, all), limit)
    ensures Ranked(current, r)
  {
    var ranking := Ranking(current, all);
    RankedPrefix(current, ranking, SliceLength(|ranking|, limit));
    if |Others(current, all)| == 0 then []
    else Take(ranking, limit)
  }

  /** Called without a limit, the function returns the three best-ranked
      other posts, or all of them when there are fewer. */
  lemma DefaultLimitIsThree(current: BlogPost, all: seq<BlogPost>)
    ensures var r := GetRelatedPosts(current, all);
            && |r| == (if |Others(current, all)| < 3 then |Others(current, all)| else 3)
            && r == Take(Ranking(current, all), 3)
  {
  }
}
