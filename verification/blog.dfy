/** The blog post record shared by the feed and the related-posts ranking:
    an entry id and its frontmatter, with the collection's defaults for
    the optional lists and the draft flag. */
module Blog {

  import opened Wrappers

  /** The frontmatter after validation. `pubDate` is the publication time
      in milliseconds, as `Date.getTime()` gives it; `author` is the id of
      a team entry. */
  datatype PostData = PostData(
    title: string,
    description: string,
    pubDate: int,
    author: string,
    image: Option<string>,
    tags: seq<string>,
    categories: seq<string>,
    draft: bool)

  datatype BlogPost = BlogPost(id: string, data: PostData)

  /** Frontmatter as written, where the lists and the flag may be left out. */
  datatype Frontmatter = Frontmatter(
    title: string,
    description: string,
    pubDate: int,
    author: string,
    image: Option<string>,
    tags: Option<seq<string>>,
    categories: Option<seq<string>>,
    draft: Option<bool>)

  /** `.default([])` for the lists and `.default(false)` for the flag;
      values that are present are kept. */
  function WithDefaults(f: Frontmatter): (d: PostData)
    ensures d.tags == (if f.tags.Some? then f.tags.value else [])
    ensures d.categories == (if f.categories.Some? then f.categories.value else [])
    ensures d.draft <==> f.draft == Some(true)
    ensures d.title == f.title && d.description == f.description && d.pubDate == f.pubDate
    ensures d.author == f.author && d.image == f.image
  {
    PostData(f.title, f.description, f.pubDate, f.author, f.image,
             f.tags.GetOr([]), f.categories.GetOr([]), f.draft.GetOr(false))
  }
}
