/** The homepage data: the hero, the feature, stat, testimonial and FAQ
    lists, the closing call to action and the contact-section switch. The
    schema demands non-empty texts everywhere except a testimonial's
    attribution; the lists themselves may be empty. */
module Homepage {

  import opened Wrappers
  import opened Issues

  datatype CtaButton = CtaButton(text: string, link: string)

  datatype Hero = Hero(headline: string, subheadline: string, cta: CtaButton)

  datatype Feature = Feature(icon: string, title: string, description: string)

  datatype Stat = Stat(value: string, labelText: string)

  datatype Testimonial = Testimonial(quote: string, name: string, attribution: Option<string>)

  datatype CtaSection = CtaSection(headline: string, button: CtaButton)

  datatype FaqItem = FaqItem(question: string, answer: string)

  datatype HomepageData = HomepageData(
    hero: Hero,
    features: seq<Feature>,
    stats: seq<Stat>,
    testimonials: seq<Testimonial>,
    cta: CtaSection,
    faq: seq<FaqItem>,
    showContact: bool)

  /* -------------------------------------------------------------- schema */

  predicate ValidButton(b: CtaButton) {
    |b.text| >= 1 && |b.link| >= 1
  }

  predicate ValidHero(h: Hero) {
    |h.headline| >= 1 && |h.subheadline| >= 1 && ValidButton(h.cta)
  }

  predicate ValidFeature(f: Feature) {
    |f.icon| >= 1 && |f.title| >= 1 && |f.description| >= 1
  }

  predicate ValidStat(s: Stat) {
    |s.value| >= 1 && |s.labelText| >= 1
  }

  /** The attribution is optional and, when present, may be any string. */
  predicate ValidTestimonial(t: Testimonial) {
    |t.quote| >= 1 && |t.name| >= 1
  }

  predicate ValidCtaSection(c: CtaSection) {
    |c.headline| >= 1 && ValidButton(c.button)
  }

  predicate ValidFaqItem(f: FaqItem) {
    |f.question| >= 1 && |f.answer| >= 1
  }

  predicate ValidHomepage(d: HomepageData) {
    && ValidHero(d.hero)
    && (forall i :: 0 <= i < |d.features| ==> ValidFeature(d.features[i]))
    && (forall i :: 0 <= i < |d.stats| ==> ValidStat(d.stats[i]))
    && (forall i :: 0 <= i < |d.testimonials| ==> ValidTestimonial(d.testimonials[i]))
    && ValidCtaSection(d.cta)
    && (forall i :: 0 <= i < |d.faq| ==> ValidFaqItem(d.faq[i]))
  }

  function ButtonIssues(b: CtaButton): (r: seq<Issue>)
    ensures r == [] <==> ValidButton(b)
  {
    Check(|b.text| >= 1, [Key("text")], "CTA text is required")
    + Check(|b.link| >= 1, [Key("link")], "CTA link is required")
  }

  function HeroIssues(h: Hero): (r: seq<Issue>)
    ensures r == [] <==> ValidHero(h)
    ensures h.headline == "" ==> |r| > 0 && r[0] == Issue([Key("headline")], "Headline is required")
  {
    Check(|h.headline| >= 1, [Key("headline")], "Headline is required")
    + Check(|h.subheadline| >= 1, [Key("subheadline")], "Subheadline is required")
    + Under(Key("cta"), ButtonIssues(h.cta))
  }

  function FeatureIssues(f: Feature): (r: seq<Issue>)
    ensures r == [] <==> ValidFeature(f)
  {
    Check(|f.icon| >= 1, [Key("icon")], "Icon key is required")
    + Check(|f.title| >= 1, [Key("title")], "Feature title is required")
    + Check(|f.description| >= 1, [Key("description")], "Feature description is required")
  }

  function StatIssues(s: Stat): (r: seq<Issue>)
    ensures r == [] <==> ValidStat(s)
  {
    Check(|s.value| >= 1, [Key("value")], "Stat value is required")
    + Check(|s.labelText| >= 1, [Key("label")], "Stat label is required")
  }

  function TestimonialIssues(t: Testimonial): (r: seq<Issue>)
    ensures r == [] <==> ValidTestimonial(t)
  {
    Check(|t.quote| >= 1, [Key("quote")], "Quote is required")
    + Check(|t.name| >= 1, [Key("name")], "Name is required")
  }

  function CtaSectionIssues(c: CtaSection): (r: seq<Issue>)
    ensures r == [] <==> ValidCtaSection(c)
  {
    Check(|c.headline| >= 1, [Key("headline")], "CTA headline is required")
    + Under(Key("button"), ButtonIssues(c.button))
  }

  function FaqItemIssues(f: FaqItem): (r: seq<Issue>)
    ensures r == [] <==> ValidFaqItem(f)
  {
    Check(|f.question| >= 1, [Key("question")], "Question is required")
    + Check(|f.answer| >= 1, [Key("answer")], "Answer is required")
  }

  /** The issues of the lists, each under its key and index. */
  function ListIssues(d: HomepageData): (r: seq<Issue>)
    ensures r == [] <==>
              && (forall i :: 0 <= i < |d.features| ==> ValidFeature(d.features[i]))
              && (forall i :: 0 <= i < |d.stats| ==> ValidStat(d.stats[i]))
              && (forall i :: 0 <= i < |d.testimonials| ==> ValidTestimonial(d.testimonials[i]))
  {
    IndexedEmpty(d.features, FeatureIssues);
    IndexedEmpty(d.stats, StatIssues);
    IndexedEmpty(d.testimonials, TestimonialIssues);
    Under(Key("features"), Indexed(d.features, FeatureIssues))
    + Under(Key("stats"), Indexed(d.stats, StatIssues))
    + Under(Key("testimonials"), Indexed(d.testimonials, TestimonialIssues))
  }

  function FaqIssues(faq: seq<FaqItem>): (r: seq<Issue>)
    ensures r == [] <==> forall i :: 0 <= i < |faq| ==> ValidFaqItem(faq[i])
  {
    IndexedEmpty(faq, FaqItemIssues);
    Under(Key("faq"), Indexed(faq, FaqItemIssues))
  }

  /** The issues of the whole data, in the schema's field order. */
  function HomepageIssues(d: HomepageData): (r: seq<Issue>)
    ensures r == [] <==> ValidHomepage(d)
  {
    var hero := Under(Key("hero"), HeroIssues(d.hero));
    var lists := ListIssues(d);
    var cta := Under(Key("cta"), CtaSectionIssues(d.cta));
    var faq := FaqIssues(d.faq);
    hero + lists + cta + faq
  }

  const FailureHeading := "Homepage data validation failed:"

  /** `validateHomepageData`: the data itself when the schema accepts it,
      otherwise the message listing every issue. */
  function ValidateHomepage(d: HomepageData): (r: Result<HomepageData, string>)
    ensures r.Success? <==> ValidHomepage(d)
    ensures r.Success? ==> r.value == d
    ensures r.Failure? ==> |HomepageIssues(d)| > 0
                           && r.error == FailureMessage(FailureHeading, HomepageIssues(d))
  {
    var issues := HomepageIssues(d);
    if issues != [] then Failure(FailureMessage(FailureHeading, issues)) else Success(d)
  }

  /* ---------------------------------------------------------- properties */

  /** The four lists may be empty: with a valid hero and call to action the
      data passes whatever the lists held. */
  lemma EmptyListsAllowed(d: HomepageData)
    requires ValidHero(d.hero) && ValidCtaSection(d.cta)
    ensures ValidateHomepage(d.(features := [], stats := [], testimonials := [], faq := [])).Success?
  {
  }

  /** Adding, removing or changing a testimonial's attribution never changes
      the verdict. */
  lemma AttributionOptional(d: HomepageData, i: nat, attribution: Option<string>)
    requires i < |d.testimonials|
    ensures ValidateHomepage(d).Success? <==>
            ValidateHomepage(d.(testimonials := d.testimonials[i := d.testimonials[i].(attribution := attribution)])).Success?
  {
    var ts := d.testimonials[i := d.testimonials[i].(attribution := attribution)];
    var e := d.(testimonials := ts);
    assert forall k :: 0 <= k < |ts| ==> ts[k].quote == d.testimonials[k].quote && ts[k].name == d.testimonials[k].name;
    assert ValidHomepage(d) <==> ValidHomepage(e);
  }

  /** An empty hero headline is the first issue reported. */
  lemma EmptyHeadlineFirst(d: HomepageData)
    requires d.hero.headline == ""
    ensures |HomepageIssues(d)| > 0
    ensures HomepageIssues(d)[0] == Issue([Key("hero"), Key("headline")], "Headline is required")
  {
    var hero := Under(Key("hero"), HeroIssues(d.hero));
    assert hero[0] == Issue([Key("hero")] + [Key("headline")], "Headline is required");
    assert [Key("hero")] + [Key("headline")] == [Key("hero"), Key("headline")];
    assert HomepageIssues(d)[0] == hero[0];
  }
}
