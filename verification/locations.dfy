/** The locations collection: the schema every location must satisfy, the
    validator that also rejects repeated slugs, the sorted listing, lookup
    by slug, and the two renderings of a location's opening hours. */
module Locations {

  import opened Wrappers
  import opened Strings
  import opened Sequences
  import opened Sorting
  import opened Issues
  import opened Slugs
  import opened Hours

  datatype Coordinates = Coordinates(lat: real, lng: real)

  /** One entry of the locations data; `None` marks an optional property
      that is absent. */
  datatype Location = Location(
    slug: string,
    city: string,
    state: string,
    address: string,
    phone: Option<string>,
    description: string,
    longDescription: string,
    coordinates: Option<Coordinates>,
    serviceAreaKeywords: seq<string>,
    operatingHours: Option<seq<OperatingHoursEntry>>)

  /* -------------------------------------------------------------- schema */

  /** Latitude and longitude within their ranges, bounds included. */
  predicate ValidCoordinates(c: Coordinates) {
    -90.0 <= c.lat <= 90.0 && -180.0 <= c.lng <= 180.0
  }

  function CoordinatesIssues(c: Coordinates): (r: seq<Issue>)
    ensures r == [] <==> ValidCoordinates(c)
  {
    Check(c.lat >= -90.0, [Key("lat")], "Number must be greater than or equal to -90")
    + Check(c.lat <= 90.0, [Key("lat")], "Number must be less than or equal to 90")
    + Check(c.lng >= -180.0, [Key("lng")], "Number must be greater than or equal to -180")
    + Check(c.lng <= 180.0, [Key("lng")], "Number must be less than or equal to 180")
  }

  /** The message of a day name outside the enumeration. */
  function EnumMessage(day: string): string {
    "Invalid enum value. Expected 'Monday' | 'Tuesday' | 'Wednesday' | 'Thursday' | 'Friday' | 'Saturday' | 'Sunday', received '"
    + day + "'"
  }

  function EntryIssues(e: OperatingHoursEntry): (r: seq<Issue>)
    ensures r == [] <==> ValidEntry(e)
    ensures |r| <= 3
  {
    Check(IsValidDay(e.dayOfWeek), [Key("dayOfWeek")], EnumMessage(e.dayOfWeek))
    + Check(IsValidTime(e.open), [Key("open")], "Open time must be in HH:MM format (00:00-23:59)")
    + Check(IsValidTime(e.close), [Key("close")], "Close time must be in HH:MM format (00:00-23:59)")
  }

  function KeywordIssues(keyword: string): (r: seq<Issue>)
    ensures r == [] <==> |keyword| >= 1
  {
    Check(|keyword| >= 1, [], "Service area keyword cannot be empty")
  }

  /** Everything the location schema demands of one location. */
  predicate ValidLocation(l: Location) {
    && IsValidSlug(l.slug)
    && |l.city| >= 1 && |l.state| >= 1 && |l.address| >= 1
    && |l.description| >= 1 && |l.longDescription| >= 1
    && (l.coordinates.Some? ==> ValidCoordinates(l.coordinates.value))
    && |l.serviceAreaKeywords| >= 1
    && (forall k :: 0 <= k < |l.serviceAreaKeywords| ==> |l.serviceAreaKeywords[k]| >= 1)
    && (l.operatingHours.Some? ==>
          forall k :: 0 <= k < |l.operatingHours.value| ==> ValidEntry(l.operatingHours.value[k]))
  }

  /** The required text fields after the slug. */
  function TextIssues(l: Location): (r: seq<Issue>)
    ensures r == [] <==> |l.city| >= 1 && |l.state| >= 1 && |l.address| >= 1
                         && |l.description| >= 1 && |l.longDescription| >= 1
  {
    Check(|l.city| >= 1, [Key("city")], "City is required")
    + Check(|l.state| >= 1, [Key("state")], "State is required")
    + Check(|l.address| >= 1, [Key("address")], "Address is required")
    + Check(|l.description| >= 1, [Key("description")], "Description is required")
    + Check(|l.longDescription| >= 1, [Key("longDescription")], "Long description is required")
  }

  function KeywordsIssues(keywords: seq<string>): (r: seq<Issue>)
    ensures r == [] <==> |keywords| >= 1 && forall k :: 0 <= k < |keywords| ==> |keywords[k]| >= 1
  {
    IndexedEmpty(keywords, KeywordIssues);
    Check(|keywords| >= 1, [Key("serviceAreaKeywords")], "At least one service area keyword is required")
    + Under(Key("serviceAreaKeywords"), Indexed(keywords, KeywordIssues))
  }

  function OperatingHoursIssues(hours: Option<seq<OperatingHoursEntry>>): (r: seq<Issue>)
    ensures r == [] <==> hours.Some? ==> forall k :: 0 <= k < |hours.value| ==> ValidEntry(hours.value[k])
  {
    match hours
    case Some(entries) =>
      IndexedEmpty(entries, EntryIssues);
      Under(Key("operatingHours"), Indexed(entries, EntryIssues))
    case None => []
  }

  /** The issues the schema reports for one location, in field order. */
  function LocationIssues(l: Location): (r: seq<Issue>)
    ensures r == [] <==> ValidLocation(l)

  {
    var coordinates := match l.coordinates
      case Some(c) => Under(Key("coordinates"), CoordinatesIssues(c))
      case None => [];
    var slug := SlugIssues(l.slug);
    var text := TextIssues(l);
    var keywords := KeywordsIssues(l.serviceAreaKeywords);
    var hours := OperatingHoursIssues(l.operatingHours);
    assert coordinates == [] <==> l.coordinates.Some? ==> ValidCoordinates(l.coordinates.value);
    slug + text + coordinates + keywords + hours
  }

  /** The issues of the whole array, each under its location's index. */
  function SchemaIssues(locations: seq<Location>): (r: seq<Issue>)
    ensures r == [] <==> forall i :: 0 <= i < |locations| ==> ValidLocation(locations[i])
  {
    IndexedEmpty(locations, LocationIssues);
    Indexed(locations, LocationIssues)
  }

  /* ---------------------------------------------------------- validation */

  const ErrorPrefix := "Locations data validation error: "

  /** `locations.map((location) => location.slug)`. */
  function GetAllLocationSlugs(locations: seq<Location>): (r: seq<string>)
    ensures |r| == |locations|
    ensures forall i :: 0 <= i < |locations| ==> r[i] == locations[i].slug
  {
    seq(|locations|, i requires 0 <= i < |locations| => locations[i].slug)
  }

  /** Accepts the data exactly when every location passes the schema and no
      two share a slug; a schema failure is reported before any duplicate,
      and the duplicate report names each repeated slug. */
  function ValidateLocations(locations: seq<Location>): (r: Result<seq<Location>, string>)
    ensures r.Success? <==>
              && (forall i :: 0 <= i < |locations| ==> ValidLocation(locations[i]))
              && NoDuplicates(GetAllLocationSlugs(locations))
    ensures r.Success? ==> r.value == locations
    ensures r.Failure? ==> StartsWith(r.error, ErrorPrefix)
    ensures SchemaIssues(locations) != [] ==>
              r == Failure(ErrorPrefix + FailureMessage("Schema validation failed:", SchemaIssues(locations)))
    ensures SchemaIssues(locations) == [] && r.Failure? ==>
              r.error == ErrorPrefix + DuplicateMessage(DuplicateSlugs(GetAllLocationSlugs(locations)), "location")
  {
    var issues := SchemaIssues(locations);
    if issues != [] then
      Failure(ErrorPrefix + FailureMessage("Schema validation failed:", issues))
    else
      var slugs := GetAllLocationSlugs(locations);
      var duplicates := DuplicateSlugs(slugs);
      DuplicateSlugsEmpty(slugs);
      if |duplicates| > 0 then
        Failure(ErrorPrefix + DuplicateMessage(duplicates, "location"))
      else
        Success(locations)
  }

  /* ------------------------------------------------------------- sorting */

  /** The comparator of the sorted listing: city first, then state. */
  function LocationCompare(a: Location, b: Location): int {
    var cityCompare := Compare(a.city, b.city);
    if cityCompare != 0 then cityCompare else Compare(a.state, b.state)
  }

  predicate LocationLe(a: Location, b: Location) {
    LocationCompare(a, b) <= 0
  }

  /** `LocationLe` read in terms of the string order. */
  lemma LocationLeMeaning(a: Location, b: Location)
    ensures LocationLe(a, b) <==>
              LexLe(a.city, b.city) && (a.city == b.city ==> LexLe(a.state, b.state))
  {
    CompareLe(a.city, b.city);
    CompareLe(a.state, b.state);
  }

  lemma LocationLeTransitive(a: Location, b: Location, c: Location)
    requires LocationLe(a, b) && LocationLe(b, c)
    ensures LocationLe(a, c)
  {
    LocationLeMeaning(a, b);
    LocationLeMeaning(b, c);
    LocationLeMeaning(a, c);
    LexLeTransitive(a.city, b.city, c.city);
    if a.city != b.city || b.city != c.city {
      if a.city == c.city {
        LexLeAntisymmetric(a.city, b.city);
        assert false;
      }
    } else {
      LexLeTransitive(a.state, b.state, c.state);
    }
  }

  /** The comparator is consistent, so sorting with it orders the data. */
  lemma LocationOrder()
    ensures TotalPreorder(LocationLe)
  {
    forall a: Location, b: Location ensures LocationLe(a, b) || LocationLe(b, a) {
      LocationLeMeaning(a, b);
      LocationLeMeaning(b, a);
      LexLeTotal(a.city, b.city);
      LexLeTotal(a.state, b.state);
    }
    forall a: Location, b: Location, c: Location | LocationLe(a, b) && LocationLe(b, c)
      ensures LocationLe(a, c)
    {
      LocationLeTransitive(a, b, c);
    }
  }

  lemma ByCityThenState(r: seq<Location>)
    requires Sorted(r, LocationLe)
    ensures forall i, j :: 0 <= i < j < |r| ==>
              && LexLe(r[i].city, r[j].city)
              && (r[i].city == r[j].city ==> LexLe(r[i].state, r[j].state))
  {
    forall i, j | 0 <= i < j < |r|
      ensures LexLe(r[i].city, r[j].city) && (r[i].city == r[j].city ==> LexLe(r[i].state, r[j].state))
    {
      LocationLeMeaning(r[i], r[j]);
    }
  }

  /** A sorted copy: the same locations, ordered by city and, within a
      city, by state. */
  function GetSortedLocations(locations: seq<Location>): (r: seq<Location>)
    ensures multiset(r) == multiset(locations)
    ensures Sorted(r, LocationLe)
    ensures forall i, j :: 0 <= i < j < |r| ==>
              && LexLe(r[i].city, r[j].city)
              && (r[i].city == r[j].city ==> LexLe(r[i].state, r[j].state))
  {
    LocationOrder();
    SortSorted(locations, LocationLe);
    ByCityThenState(Sort(locations, LocationLe));
    Sort(locations, LocationLe)
  }

  /* -------------------------------------------------------------- lookup */

  /** `locations.find((location) => location.slug === slug)`. */
  function GetLocationBySlug(locations: seq<Location>, slug: string): (r: Option<Location>)
    ensures r.None? <==> slug !in GetAllLocationSlugs(locations)
    ensures r.Some? ==> exists i :: 0 <= i < |locations| && locations[i] == r.value
                                    && r.value.slug == slug
                                    && forall j :: 0 <= j < i ==> locations[j].slug != slug
  {
    var r := FindFirst(locations, (l: Location) => l.slug == slug);
    var slugs := GetAllLocationSlugs(locations);
    assert slug in slugs ==> exists i :: 0 <= i < |locations| && locations[i].slug == slug;
    r
  }

  /** With distinct slugs, looking up the slug of any location finds that
      location. */
  lemma LookupRoundTrip(locations: seq<Location>, i: nat)
    requires i < |locations|
    requires NoDuplicates(GetAllLocationSlugs(locations))
    ensures GetLocationBySlug(locations, locations[i].slug) == Some(locations[i])
  {
    var slugs := GetAllLocationSlugs(locations);
    assert slugs[i] == locations[i].slug;
    var r := GetLocationBySlug(locations, locations[i].slug);
    var j :| 0 <= j < |locations| && locations[j] == r.value && r.value.slug == locations[i].slug
             && forall k :: 0 <= k < j ==> locations[k].slug != locations[i].slug;
    assert slugs[j] == slugs[i];
  }

  /* ---------------------------------------------- Schema.org opening hours */

  /** The two-letter Schema.org day code, which is the day name's first two
      letters. */
  function Abbreviation(day: string): (r: string)
    requires IsValidDay(day)
    ensures |r| == 2 && r == day[..2]
  {
    match day
    case "Monday" => "Mo"
    case "Tuesday" => "Tu"
    case "Wednesday" => "We"
    case "Thursday" => "Th"
    case "Friday" => "Fr"
    case "Saturday" => "Sa"
    case _ => "Su"
  }

  predicate ValidDays(hours: seq<OperatingHoursEntry>) {
    forall i :: 0 <= i < |hours| ==> IsValidDay(hours[i].dayOfWeek)
  }

  /** The days that share one pair of opening and closing times. */
  datatype HoursGroup = HoursGroup(days: seq<string>, open: string, close: string)

  /** The index of the first group for the given times, if there is one. */
  function FindGroup(groups: seq<HoursGroup>, open: string, close: string): (r: Option<nat>)
    ensures r.Some? ==> r.value < |groups| && groups[r.value].open == open && groups[r.value].close == close
    ensures r.Some? ==> forall k :: 0 <= k < r.value ==> !(groups[k].open == open && groups[k].close == close)
    ensures r.None? ==> forall k :: 0 <= k < |groups| ==> !(groups[k].open == open && groups[k].close == close)
  {
    if |groups| == 0 then None
    else if groups[0].open == open && groups[0].close == close then Some(0)
    else
      match FindGroup(groups[1..], open, close)
      case Some(k) => Some(k + 1)
      case None => None
  }

  /** One step of the grouping loop: the day joins the group with its times,
      or opens a new group at the end. */
  function AddEntry(groups: seq<HoursGroup>, e: OperatingHoursEntry): seq<HoursGroup>
    requires IsValidDay(e.dayOfWeek)
  {
    var abbr := Abbreviation(e.dayOfWeek);
    match FindGroup(groups, e.open, e.close)
    case Some(k) => groups[k := groups[k].(days := groups[k].days + [abbr])]
    case None => groups + [HoursGroup([abbr], e.open, e.close)]
  }

  function GroupHours(hours: seq<OperatingHoursEntry>): seq<HoursGroup>
    requires ValidDays(hours)
  {
    if |hours| == 0 then []
    else
      var n := |hours| - 1;
      AddEntry(GroupHours(hours[..n]), hours[n])
  }

  /** The opening and closing times of an entry. */
  function HoursKey(e: OperatingHoursEntry): (string, string) {
    (e.open, e.close)
  }

  function HoursKeys(hours: seq<OperatingHoursEntry>): (r: seq<(string, string)>)
    ensures |r| == |hours|
    ensures forall i :: 0 <= i < |hours| ==> r[i] == HoursKey(hours[i])
  {
    seq(|hours|, i requires 0 <= i < |hours| => HoursKey(hours[i]))
  }

  /** The abbreviations of the days, in entry order, whose times are `key`:
      non-empty exactly when some entry has those times. */
  function DaysFor(hours: seq<OperatingHoursEntry>, key: (string, string)): (r: seq<string>)
    requires ValidDays(hours)
    ensures |r| <= |hours|
    ensures |r| == 0 <==> key !in HoursKeys(hours)
  {
    if |hours| == 0 then []
    else
      var n := |hours| - 1;
      assert HoursKeys(hours) == HoursKeys(hours[..n]) + [HoursKey(hours[n])];
      DaysFor(hours[..n], key) + (if HoursKey(hours[n]) == key then [Abbreviation(hours[n].dayOfWeek)] else [])
  }

  /** The groups described without the loop: one per distinct pair of times,
      in order of first occurrence, holding every day with those times. */
  function ReferenceGroups(hours: seq<OperatingHoursEntry>): (r: seq<HoursGroup>)
    requires ValidDays(hours)
  {
    var keys := Dedupe(HoursKeys(hours));
    seq(|keys|, k requires 0 <= k < |keys| => HoursGroup(DaysFor(hours, keys[k]), keys[k].0, keys[k].1))
  }

  lemma DaysForSnoc(p: seq<OperatingHoursEntry>, e: OperatingHoursEntry, key: (string, string))
    requires ValidDays(p) && IsValidDay(e.dayOfWeek)
    ensures ValidDays(p + [e])
    ensures DaysFor(p + [e], key)
            == DaysFor(p, key) + (if HoursKey(e) == key then [Abbreviation(e.dayOfWeek)] else [])
  {
    assert (p + [e])[..|p|] == p;
  }

  /** The keys of the groups are the deduplicated times. */
  lemma GroupKey(p: seq<OperatingHoursEntry>, k: nat)
    requires ValidDays(p)
    requires k < |ReferenceGroups(p)|
    ensures k < |Dedupe(HoursKeys(p))|
    ensures Dedupe(HoursKeys(p))[k] == (ReferenceGroups(p)[k].open, ReferenceGroups(p)[k].close)
  {
  }

  /** An entry whose times already have a group joins that group. */
  lemma StepExisting(p: seq<OperatingHoursEntry>, e: OperatingHoursEntry, k: nat)
    requires ValidDays(p) && IsValidDay(e.dayOfWeek)
    requires FindGroup(ReferenceGroups(p), e.open, e.close) == Some(k)
    ensures ValidDays(p + [e])
    ensures AddEntry(ReferenceGroups(p), e) == ReferenceGroups(p + [e])
  {
    var x := HoursKey(e);
    var g := ReferenceGroups(p);
    var keys := Dedupe(HoursKeys(p));
    GroupKey(p, k);
    var u := g[k := g[k].(days := g[k].days + [Abbreviation(e.dayOfWeek)])];
    assert AddEntry(g, e) == u;
    assert HoursKeys(p + [e]) == HoursKeys(p) + [x];
    DedupeSnoc(HoursKeys(p), x);
    DaysForSnoc(p, e, x);
    var r := ReferenceGroups(p + [e]);
    forall j | 0 <= j < |keys| ensures r[j] == u[j] {
      StepExistingAt(p, e, k, j);
    }
  }

  lemma StepExistingAt(p: seq<OperatingHoursEntry>, e: OperatingHoursEntry, k: nat, j: nat)
    requires ValidDays(p) && IsValidDay(e.dayOfWeek)
    requires k < |Dedupe(HoursKeys(p))| && Dedupe(HoursKeys(p))[k] == HoursKey(e)
    requires j < |Dedupe(HoursKeys(p))|
    requires Dedupe(HoursKeys(p + [e])) == Dedupe(HoursKeys(p))
    ensures ValidDays(p + [e])
    ensures var g := ReferenceGroups(p);
            ReferenceGroups(p + [e])[j]
            == g[k := g[k].(days := g[k].days + [Abbreviation(e.dayOfWeek)])][j]
  {
    var keys := Dedupe(HoursKeys(p));
    DaysForSnoc(p, e, keys[j]);
    if j != k {
      assert keys[j] != keys[k];
    }
  }

  /** An entry with new times opens a group of its own at the end. */
  lemma StepNew(p: seq<OperatingHoursEntry>, e: OperatingHoursEntry)
    requires ValidDays(p) && IsValidDay(e.dayOfWeek)
    requires FindGroup(ReferenceGroups(p), e.open, e.close) == None
    ensures ValidDays(p + [e])
    ensures AddEntry(ReferenceGroups(p), e) == ReferenceGroups(p + [e])
  {
    var x := HoursKey(e);
    var g := ReferenceGroups(p);
    NewTimesNewKey(p, e);
    HoursKeysSnoc(p, e);
    DedupeSnoc(HoursKeys(p), x);
    DaysForSnoc(p, e, x);
    var u := g + [HoursGroup([Abbreviation(e.dayOfWeek)], e.open, e.close)];
    assert AddEntry(g, e) == u;
    var r := ReferenceGroups(p + [e]);
    assert |r| == |u|;
    forall j | 0 <= j < |r| ensures r[j] == u[j] {
      StepNewAt(p, e, j);
    }
  }

  /** Times without a group occur in no entry so far. */
  lemma NewTimesNewKey(p: seq<OperatingHoursEntry>, e: OperatingHoursEntry)
    requires ValidDays(p)
    requires FindGroup(ReferenceGroups(p), e.open, e.close) == None
    ensures HoursKey(e) !in HoursKeys(p)
  {
    var g := ReferenceGroups(p);
    var keys := Dedupe(HoursKeys(p));
    forall j | 0 <= j < |keys| ensures keys[j] != HoursKey(e) {
      assert g[j].open == keys[j].0 && g[j].close == keys[j].1;
    }
  }

  lemma HoursKeysSnoc(p: seq<OperatingHoursEntry>, e: OperatingHoursEntry)
    ensures HoursKeys(p + [e]) == HoursKeys(p) + [HoursKey(e)]
  {
  }

  lemma StepNewAt(p: seq<OperatingHoursEntry>, e: OperatingHoursEntry, j: nat)
    requires ValidDays(p) && IsValidDay(e.dayOfWeek)
    requires HoursKey(e) !in HoursKeys(p)
    requires Dedupe(HoursKeys(p + [e])) == Dedupe(HoursKeys(p)) + [HoursKey(e)]
    requires j <= |Dedupe(HoursKeys(p))|
    ensures ValidDays(p + [e])
    ensures ReferenceGroups(p + [e])[j]
            == (ReferenceGroups(p) + [HoursGroup([Abbreviation(e.dayOfWeek)], e.open, e.close)])[j]
  {
    var keys := Dedupe(HoursKeys(p));
    if j < |keys| {
      DaysForSnoc(p, e, keys[j]);
      assert keys[j] in HoursKeys(p);
    } else {
      DaysForSnoc(p, e, HoursKey(e));
    }
  }

  /** The grouping loop computes the reference grouping. */
  lemma {:induction false} GroupHoursSpec(hours: seq<OperatingHoursEntry>)
    requires ValidDays(hours)
    ensures GroupHours(hours) == ReferenceGroups(hours)
  {
    if |hours| > 0 {
      var n := |hours| - 1;
      var p := hours[..n];
      var e := hours[n];
      assert hours == p + [e];
      GroupHoursSpec(p);
      match FindGroup(ReferenceGroups(p), e.open, e.close)
      case Some(k) => StepExisting(p, e, k);
      case None => StepNew(p, e);
    }
  }

  /** `Mo-Fr` for several days (first and last only), `Mo` for one. */
  function DaysLabel(days: seq<string>): string
    requires |days| >= 1
  {
    if |days| > 1 then days[0] + "-" + days[|days| - 1] else days[0]
  }

  /** Schema.org `openingHours` strings: one per distinct pair of times, in
      order of first occurrence, listing the first and last of the days
      that have those times whether or not they are consecutive. */
  function FormatSchemaOrgHours(hours: seq<OperatingHoursEntry>): (r: seq<string>)
    requires ValidDays(hours)
    ensures var keys := Dedupe(HoursKeys(hours));
            && |r| == |keys|
            && forall k :: 0 <= k < |keys| ==>
                 && |DaysFor(hours, keys[k])| >= 1
                 && r[k] == DaysLabel(DaysFor(hours, keys[k])) + " " + keys[k].0 + "-" + keys[k].1
  {
    GroupHoursSpec(hours);
    var groups := GroupHours(hours);
    seq(|groups|, k requires 0 <= k < |groups| =>
      DaysLabel(groups[k].days) + " " + groups[k].open + "-" + groups[k].close)
  }

  /* ------------------------------------------------------- display hours */

  /** `hours % 12 || 12`. */
  function Hour12(h: nat): (r: nat)
    requires h < 24
    ensures 1 <= r <= 12
    ensures h == 0 ==> r == 12
    ensures 1 <= h <= 11 ==> r == h
    ensures h == 12 ==> r == 12
    ensures 13 <= h ==> r == h - 12
    ensures r % 12 + (if h >= 12 then 12 else 0) == h
  {
    if h % 12 == 0 then 12 else h % 12
  }

  /** The half of the day; with `Hour12` it gives back the hour. */
  function Period(h: nat): (r: string)
    ensures r == "PM" <==> h >= 12
  {
    if h >= 12 then "PM" else "AM"
  }

  /** The two-digit minute text equals the minutes as written in the time. */
  lemma MinutesText(t: string)
    requires IsValidTime(t)
    ensures PadStart2(NatToString(Minute(t))) == t[3..]
  {
    var m := Minute(t);
    var written := t[3..];
    assert written == [t[3], t[4]];
    var s := NatToString(m);
    if m < 10 {
      assert s == [DigitChar(m)];
      assert t[3] == '0' && DigitChar(m) == t[4];
      assert PadStart2(s) == "0" + s;
    } else {
      assert m / 10 == t[3] as int - '0' as int && m % 10 == t[4] as int - '0' as int;
      assert DigitChar(m / 10) == t[3] && DigitChar(m % 10) == t[4];
      assert NatToString(m / 10) == [DigitChar(m / 10)];
      assert s == NatToString(m / 10) + [DigitChar(m % 10)];
      assert PadStart2(s) == s;
    }
  }

  /** `9:05 AM` for `09:05`: the 12-hour clock text with the minutes as
      given and the period, which together give back the hour of day. */
  function FormatTime(t: string): (r: string)
    requires IsValidTime(t)
    ensures r == NatToString(Hour12(Hour(t))) + ":" + t[3..] + " " + Period(Hour(t))
  {
    var h := Hour(t);
    var minutes := PadStart2(NatToString(Minute(t)));
    MinutesText(t);
    NatToString(Hour12(h)) + ":" + minutes + " " + Period(h)
  }

  /** Where the parts of the 12-hour text sit: the hour digits, then a
      colon, the two minute digits, a space and the two-letter period. */
  lemma TextParts(a: string, m: string, p: string)
    requires |m| == 2 && |p| == 2
    ensures var r := a + ":" + m + " " + p;
            && |r| == |a| + 6
            && r[..|r| - 6] == a
            && r[|r| - 5..|r| - 3] == m
            && r[|r| - 2..] == p
  {
  }

  /** The 12-hour text loses nothing: two valid times with the same text
      are the same time. */
  lemma FormatTimeInjective(t1: string, t2: string)
    requires IsValidTime(t1) && IsValidTime(t2)
    requires FormatTime(t1) == FormatTime(t2)
    ensures t1 == t2
  {
    SameTextSameParts(t1, t2);
    SamePartsSameTime(t1, t2);
  }

  /** Equal 12-hour texts have equal hour digits, minutes and period. */
  lemma SameTextSameParts(t1: string, t2: string)
    requires IsValidTime(t1) && IsValidTime(t2)
    requires FormatTime(t1) == FormatTime(t2)
    ensures NatToString(Hour12(Hour(t1))) == NatToString(Hour12(Hour(t2)))
    ensures t1[3..] == t2[3..]
    ensures Period(Hour(t1)) == Period(Hour(t2))
  {
    var a1, m1, p1 := NatToString(Hour12(Hour(t1))), t1[3..], Period(Hour(t1));
    var a2, m2, p2 := NatToString(Hour12(Hour(t2))), t2[3..], Period(Hour(t2));
    assert FormatTime(t1) == a1 + ":" + m1 + " " + p1;
    assert FormatTime(t2) == a2 + ":" + m2 + " " + p2;
    TextPartsInjective(a1, m1, p1, a2, m2, p2);
  }

  lemma TextPartsInjective(a1: string, m1: string, p1: string, a2: string, m2: string, p2: string)
    requires |m1| == 2 && |p1| == 2 && |m2| == 2 && |p2| == 2
    requires a1 + ":" + m1 + " " + p1 == a2 + ":" + m2 + " " + p2
    ensures a1 == a2 && m1 == m2 && p1 == p2
  {
    TextParts(a1, m1, p1);
    TextParts(a2, m2, p2);
  }

  /** The hour digits, the minutes and the period determine the time. */
  lemma SamePartsSameTime(t1: string, t2: string)
    requires IsValidTime(t1) && IsValidTime(t2)
    requires NatToString(Hour12(Hour(t1))) == NatToString(Hour12(Hour(t2)))
    requires t1[3..] == t2[3..]
    requires Period(Hour(t1)) == Period(Hour(t2))
    ensures t1 == t2
  {
    var h1, h2 := Hour(t1), Hour(t2);
    assert Hour12(h1) == Hour12(h2);
    assert (h1 >= 12) == (h2 >= 12);
    assert h1 == h2;
    assert t1[3] == t1[3..][0] && t1[4] == t1[3..][1];
    assert t2[3] == t2[3..][0] && t2[4] == t2[3..][1];
    assert Minute(t1) == Minute(t2);
    ValidTimeParts(t1);
    ValidTimeParts(t2);
  }

  /** `Monday: 9:00 AM - 5:00 PM`, one line per entry. */
  function FormatDisplayHours(hours: seq<OperatingHoursEntry>): (r: seq<string>)
    requires forall i :: 0 <= i < |hours| ==> IsValidTime(hours[i].open) && IsValidTime(hours[i].close)
    ensures |r| == |hours|
    ensures forall i :: 0 <= i < |hours| ==>
              r[i] == hours[i].dayOfWeek + ": " + FormatTime(hours[i].open) + " - " + FormatTime(hours[i].close)
  {
    seq(|hours|, i requires 0 <= i < |hours| =>
      hours[i].dayOfWeek + ": " + FormatTime(hours[i].open) + " - " + FormatTime(hours[i].close))
  }
}
