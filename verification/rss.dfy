/** The RSS feed of the blog: the published posts, newest first, at most
    25 of them, each turned into an item with its link, author name and
    combined categories. Fetching the posts and the authors is replaced by
    parameters, and the feed is the channel record before serialisation. */
module Rss {

  import opened Wrappers
  import opened Sequences
  import opened Sorting
  import opened Blog
  import opened SiteConfig

  /** Maximum number of posts in the feed. */
  const MaxItems := 25

  const UnknownAuthor := "Unknown Author"

  const CustomData := "<language>en-us</language>"

  datatype Item = Item(
    title: string,
    description: string,
    link: string,
    pubDate: int,
    author: string,
    categories: seq<string>)

  datatype Channel = Channel(
    title: string,
    description: string,
    site: string,
    items: seq<Item>,
    customData: string)

  /* ------------------------------------------------------------ selection */

  predicate Published(post: BlogPost) {
    !post.data.draft
  }

  /** The comparator `b.pubDate - a.pubDate`. */
  predicate NewestFirst(a: BlogPost, b: BlogPost) {
    b.data.pubDate - a.data.pubDate <= 0
  }

  lemma NewestFirstOrder()
    ensures TotalPreorder(NewestFirst)
  {
  }

  /** The posts of the feed: drafts dropped, sorted by date with the newest
      first, the first 25 kept. They are the newest published posts: no
      published post left out is newer than any post kept. */
  function RecentPosts(posts: seq<BlogPost>): (r: seq<BlogPost>)
    ensures exists sorted :: && multiset(sorted) == multiset(Filter(posts, Published))
                             && Sorted(sorted, NewestFirst)
                             && r == Take(sorted, MaxItems)
    ensures multiset(r) <= multiset(Filter(posts, Published))
    ensures |r| == SliceLength(|Filter(posts, Published)|, MaxItems)
    ensures forall i :: 0 <= i < |r| ==> r[i] in posts && !r[i].data.draft
    ensures forall i, j :: 0 <= i < j < |r| ==> r[i].data.pubDate >= r[j].data.pubDate
    ensures forall p :: p in posts && !p.data.draft && p !in r ==>
              forall i :: 0 <= i < |r| ==> r[i].data.pubDate >= p.data.pubDate
  {
    var published := Filter(posts, Published);
    NewestFirstOrder();
    SortSorted(published, NewestFirst);
    var sorted := Sort(published, NewestFirst);
    var r := Take(sorted, MaxItems);
    PublishedMembers(posts, sorted);
    PrefixIsNewest(sorted, |r|);
    PrefixMultiset(sorted, |r|);
    r
  }

  lemma PrefixMultiset<T>(s: seq<T>, k: nat)
    requires k <= |s|
    ensures multiset(s[..k]) <= multiset(s)
  {
    assert s == s[..k] + s[k..];
  }

  lemma PublishedMembers(posts: seq<BlogPost>, sorted: seq<BlogPost>)
    requires multiset(sorted) == multiset(Filter(posts, Published))
    ensures forall i :: 0 <= i < |sorted| ==> sorted[i] in posts && !sorted[i].data.draft
    ensures forall p :: p in posts && !p.data.draft ==> p in sorted
  {
    var published := Filter(posts, Published);
    forall i | 0 <= i < |sorted| ensures sorted[i] in posts && !sorted[i].data.draft {
      assert sorted[i] in multiset(published);
      var k :| 0 <= k < |published| && published[k] == sorted[i];
      assert Published(published[k]);
      assert published[k] in multiset(posts);
    }
    forall p | p in posts && !p.data.draft ensures p in sorted {
      var k :| 0 <= k < |posts| && posts[k] == p;
      assert Published(posts[k]);
      assert p in multiset(published);
    }
  }

  /** In a list sorted newest first, nothing after the first `k` posts is
      newer than any of them. */
  lemma PrefixIsNewest(sorted: seq<BlogPost>, k: nat)
    requires Sorted(sorted, NewestFirst) && k <= |sorted|
    ensures forall p :: p in sorted && p !in sorted[..k] ==>
              forall i :: 0 <= i < k ==> sorted[i].data.pubDate >= p.data.pubDate
  {
    forall m | 0 <= m < k ensures sorted[m] in sorted[..k] {
      assert sorted[..k][m] == sorted[m];
    }
    forall p | p in sorted && p !in sorted[..k]
      ensures forall i :: 0 <= i < k ==> sorted[i].data.pubDate >= p.data.pubDate
    {
      var j :| 0 <= j < |sorted| && sorted[j] == p;
      forall i | 0 <= i < k ensures sorted[i].data.pubDate >= p.data.pubDate {
        assert NewestFirst(sorted[i], sorted[j]);
      }
    }
  }

  /** Drafts never reach the feed: adding one changes nothing. */
  lemma AddingDraftChangesNothing(posts: seq<BlogPost>, draft: BlogPost)
    requires draft.data.draft
    ensures RecentPosts(posts + [draft]) == RecentPosts(posts)
  {
    FilterAppend(posts, [draft], Published);
    assert Filter([draft], Published) == [];
    assert Filter(posts, Published) + [] == Filter(posts, Published);
  }

  /* ---------------------------------------------------------------- items */

  /** `author?.data.name ?? 'Unknown Author'`, with the team entries given
      as a map from author id to name. */
  function AuthorName(authors: map<string, string>, id: string): (name: string)
    ensures id in authors ==> name == authors[id]
    ensures id !in authors ==> name == UnknownAuthor
  {
    if id in authors then authors[id] else UnknownAuthor
  }

  function PostLink(id: string): string {
    "/blog/" + id + "/"
  }

  /** Distinct post ids give distinct links, so no two items of the feed
      share a link. */
  lemma PostLinkInjective(a: string, b: string)
    requires PostLink(a) == PostLink(b)
    ensures a == b
  {
    assert a == PostLink(a)[6..|PostLink(a)| - 1];
    assert b == PostLink(b)[6..|PostLink(b)| - 1];
  }

  function ToItem(post: BlogPost, authors: map<string, string>): Item {
    Item(post.data.title, post.data.description, PostLink(post.id), post.data.pubDate,
         AuthorName(authors, post.data.author), post.data.categories + post.data.tags)
  }

  /** `GET`: the channel of the feed. The site is the request's site when
      there is one and the configured site URL otherwise. */
  function Get(contextSite: Option<string>, config: Config, posts: seq<BlogPost>,
               authors: map<string, string>): (c: Channel)
    ensures c.title == config.name && c.description == config.description
    ensures c.site == if contextSite.Some? then contextSite.value else config.seo.siteUrl
    ensures |c.items| <= MaxItems
    ensures |c.items| == |RecentPosts(posts)|
    ensures forall i :: 0 <= i < |c.items| ==>
              var post := RecentPosts(posts)[i];
              && post in posts && !post.data.draft
              && c.items[i] == Item(post.data.title, post.data.description, "/blog/" + post.id + "/",
                                    post.data.pubDate, AuthorName(authors, post.data.author),
                                    post.data.categories + post.data.tags)
    ensures forall i, j :: 0 <= i < j < |c.items| ==> c.items[i].pubDate >= c.items[j].pubDate
  {
    var recent := RecentPosts(posts);
    var items := seq(|recent|, i requires 0 <= i < |recent| => ToItem(recent[i], authors));
    Channel(config.name, config.description, contextSite.GetOr(config.seo.siteUrl), items, CustomData)
  }
}
