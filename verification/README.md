# astro-template content logic in Dafny

This project models the pure content logic of an Astro website template
for a local service business. It covers:

- the build-time validators of the locations, services, homepage and
  pages data and of the site configuration;
- the sorted listings and slug lookups of locations and services;
- the two renderings of a location's opening hours;
- the taxonomy title and description templates;
- the icon registry and its SVG rendering;
- the reading-time estimate of a blog post;
- the RSS feed's choice and shape of items;
- the related-posts ranking;
- the sitemap's page filter.

Data that the site loads from JSON or from content collections becomes a
parameter. Every validator returns a `Result` in place of throwing. It
carries the data on success and the exact error text on failure.

Modules, one file each:

| module | file | models |
|---|---|---|
| `Wrappers` | wrappers.dfy | `Option`, `Result`, `Outcome` |
| `Strings` | strings.dfy | JS string operations the code uses: `trim`, `split`, `indexOf`, `includes`, `toLowerCase`, `padStart` and the like |
| `Sequences` | sequences.dfy | `filter`, `find`, `indexOf` on arrays, `new Set` de-duplication, `slice` |
| `Sorting` | sorting.dfy | `Array.prototype.sort` as a stable insertion sort over a comparator |
| `Issues` | issues.dfy | Zod issues and the `  - path: message` error lines |
| `Slugs` | slugs.dfy | the slug pattern and the duplicate-slug check shared by locations and services |
| `Hours` | hours.dfy | days of the week and the `HH:MM` time pattern |
| `Locations`, `Services`, `Homepage`, `Pages`, `SiteConfig` | locations.dfy, services.dfy, homepage.dfy, pages.dfy, site_config.dfy | the data schemas, validators and helpers |
| `Blog` | blog.dfy | the blog post record with its collection defaults |
| `ReadingTime`, `Rss`, `RelatedPosts`, `Icons`, `Sitemap` | reading_time.dfy, rss.dfy, related_posts.dfy, icons.dfy, sitemap.dfy | the utilities of the same names |

## Model

| member | source | states |
|---|---|---|
| `Slugs.SlugGrammar` | src/content/locations/locations.schema.ts:57-60 | a slug passes `min(1)` and the pattern exactly when it is non-empty lowercase letters and digits, with no leading, trailing or doubled hyphen |
| `Slugs.SlugIssues` | src/content/locations/locations.schema.ts:57-60 | no issue exactly for a valid slug; an empty slug gets both "Slug is required" and the pattern message, in that order |
| `Slugs.DuplicateSlugsSpec` | src/content/locations/locations.schema.ts:130-134 | the reported duplicates are exactly the slugs occurring at least twice, each once, ordered by their second occurrence |
| `Slugs.DuplicateSlugsEmpty` | src/content/locations/locations.schema.ts:131-133 | nothing is reported exactly when all slugs are distinct |
| `Hours.TimeGrammar` | src/content/locations/locations.schema.ts:28 | a time is accepted iff it is `HH:MM` for some hour below 24 and minute below 60, both zero-padded |
| `Hours.ValidTimeParts` | src/content/locations/locations.schema.ts:47-49 | a valid time is rebuilt from its hour and minute, so parsing and printing are inverse |
| `Locations.CoordinatesIssues` | src/content/locations/locations.schema.ts:33-38 | no issue exactly when the latitude is in [-90, 90] and the longitude in [-180, 180], bounds included |
| `Locations.EntryIssues` | src/content/locations/locations.schema.ts:43-50 | no issue exactly when the day is a weekday name and both times match the time pattern; at most three issues |
| `Locations.KeywordsIssues` | src/content/locations/locations.schema.ts:76-78 | no issue exactly when there is at least one keyword and none is empty |
| `Locations.OperatingHoursIssues` | src/content/locations/locations.schema.ts:80 | absent hours pass; present hours pass exactly when every entry is valid |
| `Locations.LocationIssues` | src/content/locations/locations.schema.ts:55-81 | no issue exactly when the location satisfies every field rule |
| `Locations.ValidateLocations` | src/content/locations/locations.schema.ts:116-142 | success iff every location is valid and the slugs are distinct, returning the data unchanged; schema issues are reported before duplicates, with the exact messages |
| `Locations.GetAllLocationSlugs` | src/content/locations/locations.schema.ts:183-185 | one slug per location, in order; the partner of the lookup round trip |
| `Locations.LocationOrder` | src/content/locations/locations.schema.ts:157-165 | the city-then-state comparator is a total preorder, so the sort is well defined |
| `Locations.GetSortedLocations` | src/content/locations/locations.schema.ts:156-166 | the result is a permutation of the input, ordered by city and, for equal cities, by state |
| `Locations.GetLocationBySlug` | src/content/locations/locations.schema.ts:174-176 | none exactly when no location has the slug; otherwise the first location in the list that has it |
| `Locations.LookupRoundTrip` | src/content/locations/locations.schema.ts:174-185 | with distinct slugs, looking up any location's slug gives back that location |
| `Locations.FindGroup` | src/content/locations/locations.schema.ts:212 | the first group with the same opening and closing times, or none when no group has them |
| `Locations.GroupHoursSpec` | src/content/locations/locations.schema.ts:208-219 | the grouping loop builds one group per distinct pair of times, in order of first occurrence, holding every day that has those times |
| `Locations.FormatSchemaOrgHours` | src/content/locations/locations.schema.ts:196-229 | one string per distinct pair of times, in order of first occurrence, naming the first and last day with those times even when the days are not consecutive |
| `Locations.Hour12` | src/content/locations/locations.schema.ts:243-244 | the 12-hour clock value is in 1..12 and, with the period, gives back the hour of day |
| `Locations.MinutesText` | src/content/locations/locations.schema.ts:245 | the zero-padded minute text equals the minutes as written in the time |
| `Locations.FormatTime` | src/content/locations/locations.schema.ts:241-246 | `h:MM AM/PM` with the 12-hour value, the minutes exactly as given and the period |
| `Locations.FormatTimeInjective` | src/content/locations/locations.schema.ts:241-246 | the 12-hour text loses nothing: two valid times with the same text are the same time |
| `Locations.FormatDisplayHours` | src/content/locations/locations.schema.ts:237-251 | as many lines as entries, the i-th naming the i-th entry's day and its two times in 12-hour form |
| `Services.OrderIssues` | src/content/services/services.schema.ts:55 | no issue exactly for a non-negative integer; a negative fraction gets both messages |
| `Services.FeaturesIssues` | src/content/services/services.schema.ts:51 | no issue exactly when there is at least one feature and every feature is valid |
| `Services.ServiceIssues` | src/content/services/services.schema.ts:36-56 | no issue exactly when the service satisfies every field rule |
| `Services.ValidateServices` | src/content/services/services.schema.ts:91-117 | success iff every service is valid and the slugs are distinct, returning the data unchanged; schema issues come before duplicates |
| `Services.ServiceOrder` | src/content/services/services.schema.ts:132-139 | the order-then-title comparator is a total preorder |
| `Services.GetSortedServices` | src/content/services/services.schema.ts:131-140 | a permutation of the input, ascending by order and, for equal orders, by title |
| `Services.GetServiceBySlug` | src/content/services/services.schema.ts:148-150 | none exactly when no service has the slug; otherwise the first service in the list that has it |
| `Services.GetAllServiceSlugs` | src/content/services/services.schema.ts:157-158 | one slug per service, in order; the partner of the service lookup round trip |
| `Services.LookupRoundTrip` | src/content/services/services.schema.ts:148-159 | with distinct slugs, looking up any service's slug gives back that service |
| `Homepage.HeroIssues` | src/data/homepage.schema.ts:26-33 | no issue exactly for a valid hero; an empty headline is the first issue |
| `Homepage.ListIssues` | src/data/homepage.schema.ts:96-100 | no issue exactly when every feature, stat and testimonial is valid |
| `Homepage.HomepageIssues` | src/data/homepage.schema.ts:92-107 | no issue exactly when the whole homepage data is valid |
| `Homepage.ValidateHomepage` | src/data/homepage.schema.ts:139-152 | success iff valid, returning the data unchanged; otherwise the heading and every issue line |
| `Homepage.EmptyListsAllowed` | src/data/homepage.schema.ts:96-104 | the four lists may be empty |
| `Homepage.AttributionOptional` | src/data/homepage.schema.ts:66 | changing, adding or removing an attribution never changes the verdict |
| `Homepage.EmptyHeadlineFirst` | src/data/homepage.schema.ts:28 | an empty headline is reported first, at path `hero.headline` |
| `Pages.TemplateIssues` | src/data/pages.schema.ts:28-40 | no issue exactly when the template is non-empty and contains `%s`; an empty template gets both messages |
| `Pages.MemberIssues` | src/data/pages.schema.ts:48-58 | a missing key is reported as "Required" at that key |
| `Pages.PagesIssues` | src/data/pages.schema.ts:46-59 | no issue exactly when all four listings and both taxonomies are present and valid |
| `Pages.ValidatePagesData` | src/data/pages.schema.ts:76-89 | success iff the input is valid, keeping the four listings and two taxonomies; otherwise the heading and every issue line |
| `Pages.MissingListingReported` | src/data/pages.schema.ts:48-53 | a missing listing is reported at `listings.<key>` and fails the validation |
| `Pages.GetListingMeta` | src/data/pages.schema.ts:104-106 | on validated data the returned metadata has a non-empty title and description |
| `Pages.ListingMetaFromInput` | src/data/pages.schema.ts:104-106 | the metadata returned is the one the input held under that key |
| `Pages.SubstituteFirst` | src/data/pages.schema.ts:115-117 | replacing `%s` in `p + "%s" + q`, where `p` has no `%s`, gives `p`, the expanded term and `q`; the term itself when it has no `$` |
| `Pages.TaxonomyTitleSubstitution` | src/data/pages.schema.ts:115-117 | the title is the template with its first `%s` replaced by the term |
| `Pages.TaxonomyDescriptionSubstitution` | src/data/pages.schema.ts:126-128 | the description is the template with its first `%s` replaced by the term |
| `Pages.GetTaxonomyTitle` | src/data/pages.schema.ts:115-117 | a template without `%s` comes back unchanged |
| `Pages.GetTaxonomyDescription` | src/data/pages.schema.ts:126-128 | a template without `%s` comes back unchanged |
| `Pages.DollarAmpersandKeepsPlaceholder` | src/data/pages.schema.ts:116 | a term holding `$&` re-inserts the matched `%s`, since `replace` expands `$` patterns |
| `SiteConfig.CheckLinks` | src/config/site.ts:157-170 | passes exactly when every present, non-empty link starts with `https://` and one more character; otherwise the message names the first bad link |
| `SiteConfig.CheckEntry` | src/config/site.ts:174-194 | the day is checked first, then the opening time, then the closing time, each with its own message |
| `SiteConfig.Warnings` | src/config/site.ts:198-215 | at most three warnings, none exactly when logo, phone and address are all set |
| `SiteConfig.ValidateConfig` | src/config/site.ts:143-216 | success iff the configuration is valid, returning the warnings; the name, description and site URL are checked in that order with their messages, then the social links and then the opening hours, each failing with the message of its first bad item |
| `SiteConfig.OpenCloseNotCompared` | src/config/site.ts:182-194 | an entry closing before it opens is still accepted |
| `SiteConfig.WarningsDoNotFail` | src/config/site.ts:198-215 | the optional logo, phone and address never change the verdict |
| `SiteConfig.DemoConfigValid` | src/config/site.ts:223-284 | the shipped configuration passes and sets off no warning |
| `Blog.WithDefaults` | src/content.config.ts:64-68 | absent tags and categories become empty lists and an absent draft flag becomes false; other fields are kept |
| `ReadingTime.StripMdxAndCodeBlocks` | src/utils/reading-time.ts:26-51 | the cleaned text is never longer than the content and holds only characters of the content |
| `ReadingTime.FencedBlockRemoved` | src/utils/reading-time.ts:30 | a fenced code block is removed from its opening fence to the first closing fence, whatever backticks it holds, and the text before it is kept, as long as no fence starts earlier |
| `ReadingTime.StatementLineRemoved` | src/utils/reading-time.ts:36-39 | an import or export line at a line start is removed up to, not including, its line break |
| `ReadingTime.FirstFrontmatterOnly` | src/utils/reading-time.ts:48 | only the first `---...---` span is removed, up to the first `---` after the opening one, so frontmatter with dates and lists goes whole and a later span stays |
| `ReadingTime.TagPassLeavesNoTag` | src/utils/reading-time.ts:42 | after the tag pass no `<` is followed later by a `>` |
| `ReadingTime.TagsBeforeComments` | src/utils/reading-time.ts:42-45 | the comment pass, run after the tag pass, never changes anything |
| `ReadingTime.NonEmptyPieces` | src/utils/reading-time.ts:61-68 | splitting on whitespace runs and dropping empty pieces leaves one piece per word start |
| `ReadingTime.CountWords` | src/utils/reading-time.ts:61-68 | the count is the number of word starts, and zero exactly for blank text |
| `ReadingTime.MinutesFor` | src/utils/reading-time.ts:89-92 | at least one minute; for a non-zero count the smallest `m` with `238 * m` at least the count |
| `ReadingTime.CalculateReadingTime` | src/utils/reading-time.ts:86-93 | at least one minute, computed from the word count of the cleaned content |
| `Rss.RecentPosts` | src/pages/rss.xml.ts:23-31 | the first 25 of some newest-first ordering of exactly the published posts: no post more often than it is published, none left out newer than one kept |
| `Rss.AddingDraftChangesNothing` | src/pages/rss.xml.ts:23 | adding a draft never changes the feed's posts |
| `Rss.PostLinkInjective` | src/pages/rss.xml.ts:56 | distinct post ids give distinct item links |
| `Rss.AuthorName` | src/pages/rss.xml.ts:36-39 | the team member's name for a known author id, "Unknown Author" for an unknown one |
| `Rss.Get` | src/pages/rss.xml.ts:44-67 | channel title and description from the configuration; site from the request, falling back to the configured URL; one item per selected post, newest first, carrying that post's title, description, `/blog/<id>/` link, date, author name, and categories followed by tags |
| `RelatedPosts.HashString` | src/utils/related-posts.ts:20-26 | the djb2 hash over UTF-16 code units, as an unsigned 32-bit number |
| `RelatedPosts.ComputeHash` | src/utils/related-posts.ts:20-26 | the loop computes the same hash as the fold |
| `RelatedPosts.CountShared` | src/utils/related-posts.ts:35-38 | at most the second list's length; zero exactly when no element is shared, full exactly when all are |
| `RelatedPosts.CountSharedAppend` | src/utils/related-posts.ts:37 | repeated elements of the second list each count |
| `RelatedPosts.CountSharedCaseInsensitive` | src/utils/related-posts.ts:36-37 | lowercasing both lists first changes nothing, so the count ignores case |
| `RelatedPosts.Score` | src/utils/related-posts.ts:76-81 | ten points per shared tag and five per shared category, bounded by the other post's list lengths |
| `RelatedPosts.RankOrderConsistent` | src/utils/related-posts.ts:89-111 | both comparators are total preorders |
| `RelatedPosts.FallbackIsIdentity` | src/utils/related-posts.ts:101-112 | when no post scores, the second sort by hash leaves the ranking unchanged |
| `RelatedPosts.Others` | src/utils/related-posts.ts:65 | exactly the posts whose id differs from the current one, each as often as the input holds it, in the input's order |
| `RelatedPosts.Ranking` | src/utils/related-posts.ts:75-112 | a permutation of the other posts, by descending score, ties broken by the xor-ed hash |
| `RelatedPosts.GetRelatedPosts` | src/utils/related-posts.ts:59-116 | the first `limit` posts of the ranking, never the current post; `limit` defaults to 3 |
| `RelatedPosts.DefaultLimitIsThree` | src/utils/related-posts.ts:62 | called without a limit, the three best-ranked other posts, or all of them when there are fewer |
| `Icons.GetIcon` | src/components/icons/index.ts:109-111 | a definition exactly for the registered keys |
| `Icons.HasIcon` | src/components/icons/index.ts:119-121 | true exactly when the lookup finds a definition |
| `Icons.GetIconKeys` | src/components/icons/index.ts:128-130 | the 15 registered keys, each once |
| `Icons.RenderIconToSvg` | src/components/icons/index.ts:144-155 | the fixed `<svg ...>` element holding one `<path>` per defined path, each with the definition's stroke-linecap and stroke-linejoin (`round` when unset); reading its `d` attributes gives back the definition's first path and, when non-empty, its second, in order |
| `Icons.PathCount` | src/components/icons/index.ts:148-152 | the markup holds two `<path` elements when there is a non-empty second path and one otherwise |
| `Icons.DefaultStrokesAreRound` | src/components/icons/index.ts:145-146 | absent stroke styles render as `round` |
| `Icons.MapPinHasTwoPaths` | src/components/icons/index.ts:24-101 | the registered map pin renders two paths |
| `Icons.RenderIcon` | src/components/icons/index.ts:180-184 | none exactly for an unknown key, else the rendered definition |
| `Icons.GetIconOrPlaceholder` | src/components/icons/index.ts:163-172 | the rendered icon for a known key and the placeholder markup otherwise |
| `Icons.PlaceholderIsDefaultIcon` | src/components/icons/index.ts:135-171 | the placeholder markup is what rendering the placeholder path with default strokes gives |
| `Sitemap.KeepInSitemap` | astro.config.mjs:14-23 | a page is dropped exactly when its path ends in `/blog/<n>/`, `/blog/tags/<tag>/<n>/` or `/blog/categories/<category>/<n>/`; every other page is kept, and a dropped page always ends in a number segment |
| `Sitemap.MatchIffListing` | astro.config.mjs:19-21 | each pattern matches somewhere in the path exactly when the path ends in the form that pattern describes |
| `Sitemap.BlogPageDropped` | astro.config.mjs:19 | `.../blog/<digits>/` is dropped wherever it occurs in the path |
| `Sitemap.TagPageDropped` | astro.config.mjs:20 | `.../blog/tags/<segment>/<digits>/` is dropped |
| `Sitemap.CategoryPageDropped` | astro.config.mjs:21 | `.../blog/categories/<segment>/<digits>/` is dropped |
| `Sitemap.NoTrailingSlashKept` | astro.config.mjs:19-22 | a path not ending in a slash, such as `/blog/2`, is kept |
| `Sitemap.NonNumericLastSegmentKept` | astro.config.mjs:19-22 | a path whose last segment is not a number is kept |
| `Sitemap.BlogIndexKept` | astro.config.mjs:18 | `/blog/` and `/blog/tags/astro/` are kept |
| `Sitemap.NestedBlogPageDropped` | astro.config.mjs:19 | `/x/blog/2/` is dropped and `/blog/2` is kept |
| `Issues.IssueLinesRoundTrip` | src/content/locations/locations.schema.ts:122-126 | splitting the joined issue text at line breaks gives back one line per issue |

## Left out

- Loading data from JSON files, content collections and the network, and running validators at import time: the data is a parameter.
- Throwing exceptions: each validator returns a `Result` holding the message the thrown error would carry.
- `console.warn`: `SiteConfig.Warnings` returns the warning texts.
- Fetching authors in `rss.xml.ts`: a map from author id to name is a parameter.
- XML serialisation of the feed: the model stops at the channel record.
- Parsing the page URL in the sitemap filter: the model starts from the path name.
- The sitemap's frequency, priority and last-modified options, and the Tailwind and MDX settings of astro.config.mjs.
- Values of the wrong JSON type, for example a number where a string belongs: the data is typed, so only the value rules are modelled. Missing object keys are modelled for the pages data only, where the listing and taxonomy keys form a record.
- Issue messages for enum and number-bound failures follow the wording of Zod 3.
- Strings.Lower: lowercases ASCII letters only, not the full Unicode case mapping of `toLowerCase`.
- Locations.GetSortedLocations: orders by code point, not by the locale order of `localeCompare`.
- Services.GetSortedServices: orders titles by code point, not by the locale order of `localeCompare`.
- Locations.FormatTime: requires a valid `HH:MM` time; the `NaN` text that a malformed time would give is not modelled. Validated data always passes.
- Locations.FormatDisplayHours: requires valid opening and closing times in every entry, because it formats them with `FormatTime`; the `NaN` lines for malformed times are not modelled.
- Locations.FormatSchemaOrgHours: requires every day to be a weekday name, which the day type guarantees.
- Icons.PathCount: requires path data without `<`; every registered path meets this.
- RelatedPosts.GetRelatedPosts: `limit` is an integer, not a fractional number.
- Floating point: coordinates and the service order are reals.
- Dates are milliseconds since the epoch, as `getTime` gives them.
- Object keys inherited from the prototype chain, such as `constructor`, are not looked up in the icon registry.
