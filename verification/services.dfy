/** The services collection: the schema every service must satisfy, the
    validator that also rejects repeated slugs, the listing ordered by
    `order` then title, and lookup by slug. */
module Services {

  import opened Wrappers
  import opened Strings
  import opened Sequences
  import opened Sorting
  import opened Issues
  import opened Slugs

  datatype Feature = Feature(title: string, description: string)

  datatype Cta = Cta(text: string, link: string)

  /** One entry of the services data. `order` is a JavaScript number, so it
      is a real that the schema requires to be a whole number. */
  datatype Service = Service(
    slug: string,
    title: string,
    description: string,
    longDescription: string,
    icon: string,
    features: seq<Feature>,
    cta: Cta,
    order: real)

  /* -------------------------------------------------------------- schema */

  predicate IsInteger(x: real) {
    x == x.Floor as real
  }

  predicate ValidFeature(f: Feature) {
    |f.title| >= 1 && |f.description| >= 1
  }

  predicate ValidService(s: Service) {
    && IsValidSlug(s.slug)
    && |s.title| >= 1 && |s.description| >= 1 && |s.longDescription| >= 1 && |s.icon| >= 1
    && |s.features| >= 1
    && (forall k :: 0 <= k < |s.features| ==> ValidFeature(s.features[k]))
    && |s.cta.text| >= 1 && |s.cta.link| >= 1
    && IsInteger(s.order) && s.order >= 0.0
  }

  function FeatureIssues(f: Feature): (r: seq<Issue>)
    ensures r == [] <==> ValidFeature(f)
  {
    Check(|f.title| >= 1, [Key("title")], "Feature title is required")
    + Check(|f.description| >= 1, [Key("description")], "Feature description is required")
  }

  function TextIssues(s: Service): (r: seq<Issue>)
    ensures r == [] <==> |s.title| >= 1 && |s.description| >= 1 && |s.longDescription| >= 1 && |s.icon| >= 1
  {
    Check(|s.title| >= 1, [Key("title")], "Title is required")
    + Check(|s.description| >= 1, [Key("description")], "Description is required")
    + Check(|s.longDescription| >= 1, [Key("longDescription")], "Long description is required")
    + Check(|s.icon| >= 1, [Key("icon")], "Icon key is required")
  }

  function FeaturesIssues(features: seq<Feature>): (r: seq<Issue>)
    ensures r == [] <==> |features| >= 1 && forall k :: 0 <= k < |features| ==> ValidFeature(features[k])
  {
    IndexedEmpty(features, FeatureIssues);
    Check(|features| >= 1, [Key("features")], "At least one feature is required")
    + Under(Key("features"), Indexed(features, FeatureIssues))
  }

  function CtaIssues(cta: Cta): (r: seq<Issue>)
    ensures r == [] <==> |cta.text| >= 1 && |cta.link| >= 1
  {
    Check(|cta.text| >= 1, [Key("cta"), Key("text")], "CTA text is required")
    + Check(|cta.link| >= 1, [Key("cta"), Key("link")], "CTA link is required")
  }

  /** `z.number().int().min(0, ...)`: a fraction and a negative number are
      reported separately, so `-1.5` gets both issues. */
  function OrderIssues(order: real): (r: seq<Issue>)
    ensures r == [] <==> IsInteger(order) && order >= 0.0
    ensures !IsInteger(order) && order < 0.0 ==> |r| == 2
  {
    Check(IsInteger(order), [Key("order")], "Expected integer, received float")
    + Check(order >= 0.0, [Key("order")], "Order must be a non-negative integer")
  }

  /** The issues the schema reports for one service, in field order. */
  function ServiceIssues(s: Service): (r: seq<Issue>)
    ensures r == [] <==> ValidService(s)
  {
    var slug := SlugIssues(s.slug);
    var text := TextIssues(s);
    var features := FeaturesIssues(s.features);
    var cta := CtaIssues(s.cta);
    var order := OrderIssues(s.order);
    slug + text + features + cta + order
  }

  function SchemaIssues(services: seq<Service>): (r: seq<Issue>)
    ensures r == [] <==> forall i :: 0 <= i < |services| ==> ValidService(services[i])
  {
    IndexedEmpty(services, ServiceIssues);
    Indexed(services, ServiceIssues)
  }

  /* ---------------------------------------------------------- validation */

  const ErrorPrefix := "Services data validation error: "

  /** `services.map((service) => service.slug)`. */
  function GetAllServiceSlugs(services: seq<Service>): (r: seq<string>)
    ensures |r| == |services|
    ensures forall i :: 0 <= i < |services| ==> r[i] == services[i].slug
  {
    seq(|services|, i requires 0 <= i < |services| => services[i].slug)
  }

  /** Accepts the data exactly when every service passes the schema and no
      two share a slug; a schema failure is reported before any duplicate. */
  function ValidateServices(services: seq<Service>): (r: Result<seq<Service>, string>)
    ensures r.Success? <==>
              && (forall i :: 0 <= i < |services| ==> ValidService(services[i]))
              && NoDuplicates(GetAllServiceSlugs(services))
    ensures r.Success? ==> r.value == services
    ensures r.Failure? ==> StartsWith(r.error, ErrorPrefix)
    ensures SchemaIssues(services) != [] ==>
              r == Failure(ErrorPrefix + FailureMessage("Schema validation failed:", SchemaIssues(services)))
    ensures SchemaIssues(services) == [] && r.Failure? ==>
              r.error == ErrorPrefix + DuplicateMessage(DuplicateSlugs(GetAllServiceSlugs(services)), "service")
  {
    var issues := SchemaIssues(services);
    if issues != [] then
      Failure(ErrorPrefix + FailureMessage("Schema validation failed:", issues))
    else
      var slugs := GetAllServiceSlugs(services);
      var duplicates := DuplicateSlugs(slugs);
      DuplicateSlugsEmpty(slugs);
      if |duplicates| > 0 then
        Failure(ErrorPrefix + DuplicateMessage(duplicates, "service"))
      else
        Success(services)
  }

  /* ------------------------------------------------------------- sorting */

  /** The comparator of the sorted listing: `a.order - b.order` when the
      orders differ, the title comparison otherwise. */
  function ServiceCompare(a: Service, b: Service): real {
    if a.order != b.order then a.order - b.order else Compare(a.title, b.title) as real
  }

  predicate ServiceLe(a: Service, b: Service) {
    ServiceCompare(a, b) <= 0.0
  }

  /** `ServiceLe` read in terms of the numbers and the string order. */
  lemma ServiceLeMeaning(a: Service, b: Service)
    ensures ServiceLe(a, b) <==>
              a.order < b.order || (a.order == b.order && LexLe(a.title, b.title))
  {
    CompareLe(a.title, b.title);
  }

  lemma ServiceOrder()
    ensures TotalPreorder(ServiceLe)
  {
    forall a: Service, b: Service ensures ServiceLe(a, b) || ServiceLe(b, a) {
      ServiceLeMeaning(a, b);
      ServiceLeMeaning(b, a);
      LexLeTotal(a.title, b.title);
    }
    forall a: Service, b: Service, c: Service | ServiceLe(a, b) && ServiceLe(b, c)
      ensures ServiceLe(a, c)
    {
      ServiceLeMeaning(a, b);
      ServiceLeMeaning(b, c);
      ServiceLeMeaning(a, c);
      if a.order == b.order == c.order {
        LexLeTransitive(a.title, b.title, c.title);
      }
    }
  }

  lemma ByOrderThenTitle(r: seq<Service>)
    requires Sorted(r, ServiceLe)
    ensures forall i, j :: 0 <= i < j < |r| ==>
              && r[i].order <= r[j].order
              && (r[i].order == r[j].order ==> LexLe(r[i].title, r[j].title))
  {
    forall i, j | 0 <= i < j < |r|
      ensures r[i].order <= r[j].order && (r[i].order == r[j].order ==> LexLe(r[i].title, r[j].title))
    {
      ServiceLeMeaning(r[i], r[j]);
    }
  }

  /** A sorted copy: the same services, by ascending `order` and, for equal
      orders, by title. */
  function GetSortedServices(services: seq<Service>): (r: seq<Service>)
    ensures multiset(r) == multiset(services)
    ensures Sorted(r, ServiceLe)
    ensures forall i, j :: 0 <= i < j < |r| ==>
              && r[i].order <= r[j].order
              && (r[i].order == r[j].order ==> LexLe(r[i].title, r[j].title))
  {
    ServiceOrder();
    SortSorted(services, ServiceLe);
    ByOrderThenTitle(Sort(services, ServiceLe));
    Sort(services, ServiceLe)
  }

  /* -------------------------------------------------------------- lookup */

  /** `services.find((service) => service.slug === slug)`. */
  function GetServiceBySlug(services: seq<Service>, slug: string): (r: Option<Service>)
    ensures r.None? <==> slug !in GetAllServiceSlugs(services)
    ensures r.Some? ==> exists i :: 0 <= i < |services| && services[i] == r.value
                                    && r.value.slug == slug
                                    && forall j :: 0 <= j < i ==> services[j].slug != slug
  {
    var r := FindFirst(services, (s: Service) => s.slug == slug);
    var slugs := GetAllServiceSlugs(services);
    assert slug in slugs ==> exists i :: 0 <= i < |services| && services[i].slug == slug;
    r
  }

  /** With distinct slugs, looking up the slug of any service finds that
      service. */
  lemma LookupRoundTrip(services: seq<Service>, i: nat)
    requires i < |services|
    requires NoDuplicates(GetAllServiceSlugs(services))
    ensures GetServiceBySlug(services, services[i].slug) == Some(services[i])
  {
    var slugs := GetAllServiceSlugs(services);
    assert slugs[i] == services[i].slug;
    var r := GetServiceBySlug(services, services[i].slug);
    var j :| 0 <= j < |services| && services[j] == r.value && r.value.slug == services[i].slug
             && forall k :: 0 <= k < j ==> services[k].slug != services[i].slug;
    assert slugs[j] == slugs[i];
  }
}
