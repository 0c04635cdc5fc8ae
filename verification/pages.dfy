/** The pages data: SEO metadata of the four listing pages and the title
    and description templates of the two taxonomy archives. The schema
    demands every listing and taxonomy entry, non-empty texts, and a `%s`
    placeholder in every template; the helpers read a listing entry and
    fill a template with a term, replacing its first placeholder only. */
module Pages {

  import opened Wrappers
  import opened Strings
  import opened Issues

  datatype PageMeta = PageMeta(title: string, description: string)

  datatype TaxonomyTemplate = TaxonomyTemplate(titleTemplate: string, descriptionTemplate: string)

  /** The pages data as it is read, before validation: the two groups are
      objects whose entries may be missing, and either group may be missing
      as a whole. */
  datatype PagesInput = PagesInput(
    listings: Option<map<string, PageMeta>>,
    taxonomies: Option<map<string, TaxonomyTemplate>>)

  datatype Listings = Listings(blog: PageMeta, services: PageMeta, locations: PageMeta, team: PageMeta)

  datatype Taxonomies = Taxonomies(tags: TaxonomyTemplate, categories: TaxonomyTemplate)

  /** The validated data; keys the schema does not name are not kept. */
  datatype PagesData = PagesData(listings: Listings, taxonomies: Taxonomies)

  datatype ListingKey = BlogListing | ServicesListing | LocationsListing | TeamListing

  datatype TaxonomyKind = Tags | Categories

  function ListingName(key: ListingKey): string {
    match key
    case BlogListing => "blog"
    case ServicesListing => "services"
    case LocationsListing => "locations"
    case TeamListing => "team"
  }

  function TaxonomyName(kind: TaxonomyKind): string {
    match kind
    case Tags => "tags"
    case Categories => "categories"
  }

  /* -------------------------------------------------------------- schema */

  const Placeholder := "%s"

  predicate ValidPageMeta(m: PageMeta) {
    |m.title| >= 1 && |m.description| >= 1
  }

  /** A template is non-empty and holds the placeholder. */
  predicate ValidTemplate(t: string) {
    |t| >= 1 && Contains(t, Placeholder)
  }

  predicate ValidTaxonomy(t: TaxonomyTemplate) {
    ValidTemplate(t.titleTemplate) && ValidTemplate(t.descriptionTemplate)
  }

  predicate HasValidMeta(listings: map<string, PageMeta>, key: string) {
    key in listings && ValidPageMeta(listings[key])
  }

  predicate HasValidTaxonomy(taxonomies: map<string, TaxonomyTemplate>, key: string) {
    key in taxonomies && ValidTaxonomy(taxonomies[key])
  }

  predicate ValidListings(listings: map<string, PageMeta>) {
    && HasValidMeta(listings, "blog")
    && HasValidMeta(listings, "services")
    && HasValidMeta(listings, "locations")
    && HasValidMeta(listings, "team")
  }

  predicate ValidTaxonomies(taxonomies: map<string, TaxonomyTemplate>) {
    HasValidTaxonomy(taxonomies, "tags") && HasValidTaxonomy(taxonomies, "categories")
  }

  predicate ValidInput(input: PagesInput) {
    && input.listings.Some? && ValidListings(input.listings.value)
    && input.taxonomies.Some? && ValidTaxonomies(input.taxonomies.value)
  }

  /** What validation guarantees of the data it returns. */
  predicate ValidPagesData(data: PagesData) {
    && ValidPageMeta(data.listings.blog)
    && ValidPageMeta(data.listings.services)
    && ValidPageMeta(data.listings.locations)
    && ValidPageMeta(data.listings.team)
    && ValidTaxonomy(data.taxonomies.tags)
    && ValidTaxonomy(data.taxonomies.categories)
  }

  function PageMetaIssues(m: PageMeta): (r: seq<Issue>)
    ensures r == [] <==> ValidPageMeta(m)
  {
    Check(|m.title| >= 1, [Key("title")], "Title is required")
    + Check(|m.description| >= 1, [Key("description")], "Description is required")
  }

  /** `z.string().min(1, required).refine(includes '%s', placeholder)`. The
      refinement also runs when the length check has failed, so an empty
      template is reported twice. */
  function TemplateIssues(field: string, t: string, required: string, placeholder: string): (r: seq<Issue>)
    ensures r == [] <==> ValidTemplate(t)
    ensures t == "" ==> r == [Issue([Key(field)], required), Issue([Key(field)], placeholder)]
  {
    Check(|t| >= 1, [Key(field)], required) + Check(Contains(t, Placeholder), [Key(field)], placeholder)
  }

  function TaxonomyIssues(t: TaxonomyTemplate): (r: seq<Issue>)
    ensures r == [] <==> ValidTaxonomy(t)
  {
    TemplateIssues("titleTemplate", t.titleTemplate,
                   "Title template is required", "Title template must include %s placeholder")
    + TemplateIssues("descriptionTemplate", t.descriptionTemplate,
                     "Description template is required", "Description template must include %s placeholder")
  }

  /** The issues of one named entry of an object: `Required` when the key is
      missing, otherwise the entry's own issues under its key. */
  function MemberIssues<T>(members: map<string, T>, key: string, f: T -> seq<Issue>): (r: seq<Issue>)
    ensures r == [] <==> key in members && f(members[key]) == []
    ensures key !in members ==> r == [Issue([Key(key)], "Required")]
  {
    if key in members then Under(Key(key), f(members[key])) else [Issue([Key(key)], "Required")]
  }

  function ListingsIssues(listings: Option<map<string, PageMeta>>): (r: seq<Issue>)
    ensures r == [] <==> listings.Some? && ValidListings(listings.value)
  {
    match listings
    case None => [Issue([], "Required")]
    case Some(l) =>
      MemberIssues(l, "blog", PageMetaIssues) + MemberIssues(l, "services", PageMetaIssues)
      + MemberIssues(l, "locations", PageMetaIssues) + MemberIssues(l, "team", PageMetaIssues)
  }

  function TaxonomiesIssues(taxonomies: Option<map<string, TaxonomyTemplate>>): (r: seq<Issue>)
    ensures r == [] <==> taxonomies.Some? && ValidTaxonomies(taxonomies.value)
  {
    match taxonomies
    case None => [Issue([], "Required")]
    case Some(t) => MemberIssues(t, "tags", TaxonomyIssues) + MemberIssues(t, "categories", TaxonomyIssues)
  }

  /** The issues of the whole data, listings first. */
  function PagesIssues(input: PagesInput): (r: seq<Issue>)
    ensures r == [] <==> ValidInput(input)
  {
    Under(Key("listings"), ListingsIssues(input.listings))
    + Under(Key("taxonomies"), TaxonomiesIssues(input.taxonomies))
  }

  const FailureHeading := "Pages data validation failed:"

  /** `validatePagesData`: the typed data when the schema accepts the input,
      otherwise the message listing every issue. */
  function ValidatePagesData(input: PagesInput): (r: Result<PagesData, string>)
    ensures r.Success? <==> ValidInput(input)
    ensures r.Success? ==> ValidPagesData(r.value)
    ensures r.Success? ==>
              && r.value.listings == Listings(input.listings.value["blog"], input.listings.value["services"],
                                              input.listings.value["locations"], input.listings.value["team"])
              && r.value.taxonomies == Taxonomies(input.taxonomies.value["tags"],
                                                  input.taxonomies.value["categories"])
    ensures r.Failure? ==> |PagesIssues(input)| > 0
                           && r.error == FailureMessage(FailureHeading, PagesIssues(input))
  {
    var issues := PagesIssues(input);
    if issues != [] then Failure(FailureMessage(FailureHeading, issues))
    else
      var l := input.listings.value;
      var t := input.taxonomies.value;
      Success(PagesData(Listings(l["blog"], l["services"], l["locations"], l["team"]),
                        Taxonomies(t["tags"], t["categories"])))
  }

  /** A listing entry that is missing is reported as `Required` under its
      key. */
  lemma MissingListingReported(input: PagesInput, key: ListingKey)
    requires input.listings.Some? && ListingName(key) !in input.listings.value
    ensures Issue([Key("listings"), Key(ListingName(key))], "Required") in PagesIssues(input)
    ensures ValidatePagesData(input).Failure?
  {
    var l := input.listings.value;
    var name := ListingName(key);
    var all := ListingsIssues(input.listings);
    var missing := MemberIssues(l, name, PageMetaIssues);
    assert missing == [Issue([Key(name)], "Required")];
    assert missing[0] in all by {
      var blog := MemberIssues(l, "blog", PageMetaIssues);
      var services := MemberIssues(l, "services", PageMetaIssues);
      var locations := MemberIssues(l, "locations", PageMetaIssues);
      var team := MemberIssues(l, "team", PageMetaIssues);
      assert all == blog + services + locations + team;
    }
    var k :| 0 <= k < |all| && all[k] == missing[0];
    var under := Under(Key("listings"), all);
    assert under[k] == Issue([Key("listings")] + [Key(name)], "Required");
    assert [Key("listings")] + [Key(name)] == [Key("listings"), Key(name)];
    assert PagesIssues(input)[k] == under[k];
  }

  /* ------------------------------------------------------------- helpers */

  /** `getListingMeta`: the entry of a listing page; validated data has a
      non-empty title and description there. */
  function GetListingMeta(data: PagesData, key: ListingKey): (m: PageMeta)
    ensures ValidPagesData(data) ==> ValidPageMeta(m)
  {
    match key
    case BlogListing => data.listings.blog
    case ServicesListing => data.listings.services
    case LocationsListing => data.listings.locations
    case TeamListing => data.listings.team
  }

  /** The entry read from validated data is the input's entry under the
      listing's name. */
  lemma ListingMetaFromInput(input: PagesInput, key: ListingKey)
    requires ValidatePagesData(input).Success?
    ensures GetListingMeta(ValidatePagesData(input).value, key) == input.listings.value[ListingName(key)]
  {
  }

  function Template(data: PagesData, kind: TaxonomyKind): TaxonomyTemplate {
    match kind
    case Tags => data.taxonomies.tags
    case Categories => data.taxonomies.categories
  }

  /** The replacement text of `String.prototype.replace` with a string
      pattern: `$$` stands for `$`, `$&` for the matched text, `` $` `` for
      the text before the match and `$'` for the text after it; with no
      capture groups every other `$` is literal. */
  function Expand(replacement: string, matched: string, before: string, after: string): (r: string)
    ensures '$' !in replacement ==> r == replacement
  {
    if |replacement| == 0 then ""
    else if replacement[0] == '$' && |replacement| >= 2 && replacement[1] in "$&`'" then
      var token := match replacement[1]
        case '$' => "$"
        case '&' => matched
        case '`' => before
        case _ => after;
      token + Expand(replacement[2..], matched, before, after)
    else
      assert replacement == [replacement[0]] + replacement[1..];
      [replacement[0]] + Expand(replacement[1..], matched, before, after)
  }

  /** `s.replace(pattern, replacement)` with a string pattern: only the first
      occurrence is replaced, and a string without one is returned as is. */
  function ReplaceFirst(s: string, pattern: string, replacement: string): (r: string)
    ensures !Contains(s, pattern) ==> r == s
  {
    match IndexOf(s, pattern)
    case None => s
    case Some(i) =>
      var before := s[..i];
      var after := s[i + |pattern|..];
      before + Expand(replacement, pattern, before, after) + after
  }

  /** In `p + "%s" + q`, the first placeholder is the one after `p` when `p`
      holds none. */
  lemma FirstPlaceholder(p: string, q: string)
    requires !Contains(p, Placeholder)
    ensures IndexOf(p + Placeholder + q, Placeholder) == Some(|p|)
  {
    var u := p + Placeholder + q;
    assert IsAt(u, |p|, Placeholder);
    assert Contains(u, Placeholder);
    forall j: nat | j < |p| ensures !IsAt(u, j, Placeholder) {
      if j + 1 < |p| {
        assert !IsAt(p, j, Placeholder);
        assert u[j..j + 2] == p[j..j + 2];
      } else {
        assert u[j + 1] == '%';
      }
    }
  }

  /** Filling a template replaces its first placeholder and nothing else:
      the text before it is kept, and so is the text after it, later
      placeholders included. */
  lemma SubstituteFirst(p: string, q: string, term: string)
    requires !Contains(p, Placeholder)
    ensures ReplaceFirst(p + Placeholder + q, Placeholder, term) == p + Expand(term, Placeholder, p, q) + q
    ensures '$' !in term ==> ReplaceFirst(p + Placeholder + q, Placeholder, term) == p + term + q
  {
    FirstPlaceholder(p, q);
    var u := p + Placeholder + q;
    assert u[..|p|] == p;
    assert u[|p| + 2..] == q;
  }

  /** `getTaxonomyTitle`. */
  function GetTaxonomyTitle(data: PagesData, kind: TaxonomyKind, term: string): (r: string)
    ensures !Contains(Template(data, kind).titleTemplate, Placeholder) ==> r == Template(data, kind).titleTemplate
  {
    ReplaceFirst(Template(data, kind).titleTemplate, Placeholder, term)
  }

  /** `getTaxonomyDescription`. */
  function GetTaxonomyDescription(data: PagesData, kind: TaxonomyKind, term: string): (r: string)
    ensures !Contains(Template(data, kind).descriptionTemplate, Placeholder) ==> r == Template(data, kind).descriptionTemplate
  {
    ReplaceFirst(Template(data, kind).descriptionTemplate, Placeholder, term)
  }

  /** A title template split at its first placeholder gives the title as
      prefix, term, suffix. */
  lemma TaxonomyTitleSubstitution(data: PagesData, kind: TaxonomyKind, p: string, q: string, term: string)
    requires Template(data, kind).titleTemplate == p + Placeholder + q && !Contains(p, Placeholder)
    requires '$' !in term
    ensures GetTaxonomyTitle(data, kind, term) == p + term + q
  {
    SubstituteFirst(p, q, term);
  }

  lemma TaxonomyDescriptionSubstitution(data: PagesData, kind: TaxonomyKind, p: string, q: string, term: string)
    requires Template(data, kind).descriptionTemplate == p + Placeholder + q && !Contains(p, Placeholder)
    requires '$' !in term
    ensures GetTaxonomyDescription(data, kind, term) == p + term + q
  {
    SubstituteFirst(p, q, term);
  }

  lemma NoPercentNoPlaceholder(p: string)
    requires '%' !in p
    ensures !Contains(p, Placeholder)
  {
    forall j: nat | j <= |p| ensures !IsAt(p, j, Placeholder) {
      if j + 2 <= |p| {
        assert p[j..j + 2][0] == p[j];
      }
    }
  }

  /** A term holding `$&` puts the placeholder itself back. */
  lemma DollarAmpersandKeepsPlaceholder()
    ensures ReplaceFirst("Tag: %s", Placeholder, "a$&b") == "Tag: a%sb"
  {
    var p := "Tag: ";
    assert '%' !in p;
    NoPercentNoPlaceholder(p);
    assert p + Placeholder + "" == "Tag: %s";
    SubstituteFirst(p, "", "a$&b");
    ExpandAmpersand();
    assert p + "a%sb" + "" == "Tag: a%sb";
  }

  lemma ExpandAmpersand()
    ensures Expand("a$&b", Placeholder, "Tag: ", "") == "a%sb"
  {
    var tail := "$&b";
    assert "a$&b"[1..] == tail;
    assert tail[2..] == "b";
    assert Expand("b", Placeholder, "Tag: ", "") == "b";
    assert Expand(tail, Placeholder, "Tag: ", "") == Placeholder + "b";
  }
}
