/** The site configuration: its shape, the validation that runs when the
    configuration is loaded (required fields, https social links, opening
    hours) and the warnings for missing recommended fields, which are
    returned here instead of being written to the console. */
module SiteConfig {

  import opened Wrappers
  import opened Strings
  import opened Hours

  datatype Address = Address(street: string, city: string, state: string, zip: string)

  datatype SeoConfig = SeoConfig(
    titleTemplate: string,
    defaultDescription: string,
    ogImage: Option<string>,
    ogImageWidth: Option<int>,
    ogImageHeight: Option<int>,
    siteUrl: string)

  datatype FooterNavItem = FooterNavItem(text: string, link: string)

  /** A social platform and its link, in the order the object lists them;
      `None` is a platform listed with no value. */
  datatype SocialLink = SocialLink(platform: string, url: Option<string>)

  datatype Config = Config(
    name: string,
    tagline: Option<string>,
    description: string,
    logo: Option<string>,
    phone: Option<string>,
    address: Option<Address>,
    social: Option<seq<SocialLink>>,
    twitterHandle: Option<string>,
    seo: SeoConfig,
    gtmId: Option<string>,
    operatingHours: Option<seq<OperatingHoursEntry>>,
    footerNav: seq<FooterNavItem>)

  const ErrorPrefix := "Site config validation error: "

  /* --------------------------------------------------------------- rules */

  /** `/^https:\/\/.+/`: the scheme and then at least one character that is
      not a line terminator. */
  predicate IsHttpsUrl(url: string) {
    |url| > 8 && url[..8] == "https://" && !IsLineTerminator(url[8])
  }

  /** A link that is absent or empty is skipped, as a falsy value. */
  predicate IsCheckedLink(link: SocialLink) {
    link.url.Some? && link.url.value != ""
  }

  predicate ValidLink(link: SocialLink) {
    IsCheckedLink(link) ==> IsHttpsUrl(link.url.value)
  }

  /** Everything the validation demands of a configuration. */
  predicate ValidConfig(c: Config) {
    && !IsBlank(c.name)
    && !IsBlank(c.description)
    && !IsBlank(c.seo.siteUrl)
    && (c.social.Some? ==> forall i :: 0 <= i < |c.social.value| ==> ValidLink(c.social.value[i]))
    && (c.operatingHours.Some? ==>
          forall i :: 0 <= i < |c.operatingHours.value| ==> ValidEntry(c.operatingHours.value[i]))
  }

  /* ------------------------------------------------------------ messages */

  function LinkMessage(link: SocialLink): string
    requires link.url.Some?
  {
    "social." + link.platform + " URL must start with https:// (got: " + link.url.value + ")"
  }

  function DayMessage(e: OperatingHoursEntry): string {
    "Invalid dayOfWeek \"" + e.dayOfWeek + "\". Must be one of: " + Join(ValidDays, ", ")
  }

  function OpenMessage(e: OperatingHoursEntry): string {
    "Invalid open time \"" + e.open + "\" for " + e.dayOfWeek + ". Must be in HH:MM format (00:00-23:59)"
  }

  function CloseMessage(e: OperatingHoursEntry): string {
    "Invalid close time \"" + e.close + "\" for " + e.dayOfWeek + ". Must be in HH:MM format (00:00-23:59)"
  }

  /* -------------------------------------------------------------- checks */

  /** The social links in order; the first bad one stops the validation. */
  function CheckLinks(links: seq<SocialLink>): (r: Outcome<string>)
    ensures r.Pass? <==> forall i :: 0 <= i < |links| ==> ValidLink(links[i])
    ensures r.Fail? ==> exists i :: 0 <= i < |links| && !ValidLink(links[i])
                                    && (forall j :: 0 <= j < i ==> ValidLink(links[j]))
                                    && r.error == LinkMessage(links[i])
  {
    if |links| == 0 then Pass
    else if !ValidLink(links[0]) then Fail(LinkMessage(links[0]))
    else
      var r := CheckLinks(links[1..]);
      if r.Fail? then
        var i :| 0 <= i < |links[1..]| && !ValidLink(links[1..][i])
                 && (forall j :: 0 <= j < i ==> ValidLink(links[1..][j]))
                 && r.error == LinkMessage(links[1..][i]);
        assert links[i + 1] == links[1..][i];
        r
      else r
  }

  /** One entry: the day first, then the opening time, then the closing
      time. The two times are not compared with each other. */
  function CheckEntry(e: OperatingHoursEntry): (r: Outcome<string>)
    ensures r.Pass? <==> ValidEntry(e)
    ensures !IsValidDay(e.dayOfWeek) ==> r == Fail(DayMessage(e))
    ensures IsValidDay(e.dayOfWeek) && !IsValidTime(e.open) ==> r == Fail(OpenMessage(e))
    ensures IsValidDay(e.dayOfWeek) && IsValidTime(e.open) && !IsValidTime(e.close) ==> r == Fail(CloseMessage(e))
  {
    if !IsValidDay(e.dayOfWeek) then Fail(DayMessage(e))
    else if !IsValidTime(e.open) then Fail(OpenMessage(e))
    else if !IsValidTime(e.close) then Fail(CloseMessage(e))
    else Pass
  }

  /** The entries in order; the first bad one stops the validation. */
  function CheckHours(hours: seq<OperatingHoursEntry>): (r: Outcome<string>)
    ensures r.Pass? <==> forall i :: 0 <= i < |hours| ==> ValidEntry(hours[i])
    ensures r.Fail? ==> exists i :: 0 <= i < |hours| && !ValidEntry(hours[i])
                                    && (forall j :: 0 <= j < i ==> ValidEntry(hours[j]))
                                    && r == CheckEntry(hours[i])
  {
    if |hours| == 0 then Pass
    else if CheckEntry(hours[0]).Fail? then CheckEntry(hours[0])
    else
      var r := CheckHours(hours[1..]);
      if r.Fail? then
        var i :| 0 <= i < |hours[1..]| && !ValidEntry(hours[1..][i])
                 && (forall j :: 0 <= j < i ==> ValidEntry(hours[1..][j]))
                 && r == CheckEntry(hours[1..][i]);
        assert hours[i + 1] == hours[1..][i];
        r
      else r
  }

  const LogoWarning := "[Site Config] Warning: logo is not set. Consider adding a logo for brand identity."
  const PhoneWarning := "[Site Config] Warning: phone is not set. Consider adding a phone number for contact."
  const AddressWarning := "[Site Config] Warning: address is not set. Consider adding an address for local SEO."

  /** A value JavaScript treats as false: absent or the empty string. */
  predicate Falsy(s: Option<string>) {
    s.None? || s.value == ""
  }

  /** The warnings for recommended fields that are missing or empty. */
  function Warnings(c: Config): (r: seq<string>)
    ensures |r| <= 3
    ensures r == [] <==> !Falsy(c.logo) && !Falsy(c.phone) && c.address.Some?
  {
    var logo := if Falsy(c.logo) then [LogoWarning] else [];
    var phone := if Falsy(c.phone) then [PhoneWarning] else [];
    var address := if c.address.None? then [AddressWarning] else [];
    assert |logo + phone + address| == |logo| + |phone| + |address|;
    logo + phone + address
  }

  /** The validation run: the error it throws, or the warnings it prints
      when it gets through. The required fields are checked in the order
      name, description, site URL; then the social links, then the
      opening hours. The first failure is the error. */
  function ValidateConfig(c: Config): (r: Result<seq<string>, string>)
    ensures r.Success? <==> ValidConfig(c)
    ensures r.Success? ==> r.value == Warnings(c)
    ensures r.Failure? ==> StartsWith(r.error, ErrorPrefix)
    ensures IsBlank(c.name) ==> r == Failure(ErrorPrefix + "name is required and cannot be empty")
    ensures !IsBlank(c.name) && IsBlank(c.description) ==>
              r == Failure(ErrorPrefix + "description is required and cannot be empty")
    ensures !IsBlank(c.name) && !IsBlank(c.description) && IsBlank(c.seo.siteUrl) ==>
              r == Failure(ErrorPrefix + "seo.siteUrl is required and cannot be empty")
    ensures !IsBlank(c.name) && !IsBlank(c.description) && !IsBlank(c.seo.siteUrl)
            && c.social.Some? && CheckLinks(c.social.value).Fail? ==>
              r == Failure(ErrorPrefix + CheckLinks(c.social.value).error)
    ensures !IsBlank(c.name) && !IsBlank(c.description) && !IsBlank(c.seo.siteUrl)
            && (c.social.Some? ==> CheckLinks(c.social.value).Pass?)
            && c.operatingHours.Some? && CheckHours(c.operatingHours.value).Fail? ==>
              r == Failure(ErrorPrefix + CheckHours(c.operatingHours.value).error)
  {
    var links := if c.social.Some? then CheckLinks(c.social.value) else Pass;
    var hours := if c.operatingHours.Some? then CheckHours(c.operatingHours.value) else Pass;
    if IsBlank(c.name) then Failure(ErrorPrefix + "name is required and cannot be empty")
    else if IsBlank(c.description) then Failure(ErrorPrefix + "description is required and cannot be empty")
    else if IsBlank(c.seo.siteUrl) then Failure(ErrorPrefix + "seo.siteUrl is required and cannot be empty")
    else if links.Fail? then Failure(ErrorPrefix + links.error)
    else if hours.Fail? then Failure(ErrorPrefix + hours.error)
    else Success(Warnings(c))
  }

  /* ---------------------------------------------------------- properties */

  /** Swapping the opening and closing time of an entry never changes the
      verdict, so an entry that closes before it opens is accepted. */
  lemma OpenCloseNotCompared(c: Config, i: nat)
    requires c.operatingHours.Some? && i < |c.operatingHours.value|
    ensures var hours := c.operatingHours.value;
            var swapped := hours[i := OperatingHoursEntry(hours[i].dayOfWeek, hours[i].close, hours[i].open)];
            ValidateConfig(c.(operatingHours := Some(swapped))).Success? == ValidateConfig(c).Success?
  {
    var hours := c.operatingHours.value;
    var swapped := hours[i := OperatingHoursEntry(hours[i].dayOfWeek, hours[i].close, hours[i].open)];
    assert forall k :: 0 <= k < |hours| ==> (ValidEntry(swapped[k]) <==> ValidEntry(hours[k]));
  }

  /** The missing-field warnings never decide whether validation passes:
      logo, phone and address can be anything. */
  lemma WarningsDoNotFail(c: Config, logo: Option<string>, phone: Option<string>, address: Option<Address>)
    ensures ValidateConfig(c.(logo := logo, phone := phone, address := address)).Success?
            == ValidateConfig(c).Success?
  {
  }

  const DemoSocial := [
    SocialLink("facebook", Some("https://facebook.com/acmeservices")),
    SocialLink("instagram", Some("https://instagram.com/acmeservices")),
    SocialLink("twitter", Some("https://twitter.com/acmeservices")),
    SocialLink("linkedin", Some("https://linkedin.com/company/acmeservices")),
    SocialLink("youtube", Some("https://youtube.com/@acmeservices"))]

  /** The configuration the template ships with. */
  const DemoConfig := Config(
    name := "Acme Services",
    tagline := Some("Quality Solutions for Modern Problems"),
    // Long texts are written as concatenations of shorter literals, which
    // denote the same strings.
    description := "Acme Services provides professional "
                   + "business solutions including consulting, implementation, "
                   + "and support services for companies of all sizes.",
    logo := Some("/images/logo.svg"),
    phone := Some("(555) 123-4567"),
    address := Some(Address("123 Main Street", "Austin", "TX", "78701")),
    social := Some(DemoSocial),
    twitterHandle := Some("acmeservices"),
    seo := SeoConfig(
      "%s | Acme Services",
      "Acme Services provides professional business solutions including consulting, implementation, and support services.",
      Some("/images/og-default.jpg"),
      Some(1200),
      Some(630),
      "https://acmeservices.example.com"),
    gtmId := Some("GTM-XXXXXXX"),
    operatingHours := Some([
      OperatingHoursEntry("Monday", "09:00", "17:00"),
      OperatingHoursEntry("Tuesday", "09:00", "17:00"),
      OperatingHoursEntry("Wednesday", "09:00", "17:00"),
      OperatingHoursEntry("Thursday", "09:00", "17:00"),
      OperatingHoursEntry("Friday", "09:00", "17:00"),
      OperatingHoursEntry("Saturday", "10:00", "14:00")]),
    footerNav := [FooterNavItem("Privacy Policy", "/privacy"), FooterNavItem("Terms of Service", "/terms")])

  lemma DemoLinksValid()
    ensures forall i :: 0 <= i < |DemoSocial| ==> ValidLink(DemoSocial[i])
  {
    HttpsLiteral("https://facebook.com/acmeservices");
    HttpsLiteral("https://instagram.com/acmeservices");
    HttpsLiteral("https://twitter.com/acmeservices");
    HttpsLiteral("https://linkedin.com/company/acmeservices");
    HttpsLiteral("https://youtube.com/@acmeservices");
  }

  lemma HttpsLiteral(url: string)
    requires |url| > 8 && url[..8] == "https://" && IsLetter(url[8])
    ensures IsHttpsUrl(url)
  {
  }

  predicate IsLetter(c: char) {
    'a' <= c <= 'z'
  }

  lemma DemoHoursValid()
    ensures DemoConfig.operatingHours.Some?
    ensures forall i :: 0 <= i < |DemoConfig.operatingHours.value| ==> ValidEntry(DemoConfig.operatingHours.value[i])
  {
    var hours := DemoConfig.operatingHours.value;
    forall i | 0 <= i < |hours| ensures ValidEntry(hours[i]) {
      assert hours[i].dayOfWeek in ValidDays;
    }
  }

  /** The shipped configuration passes every rule and prints no warning. */
  lemma DemoConfigValid()
    ensures ValidateConfig(DemoConfig) == Success([])
  {
    var c := DemoConfig;
    assert c.name[0] == 'A' && c.description[0] == 'A' && c.seo.siteUrl[0] == 'h';
    DemoLinksValid();
    DemoHoursValid();
    assert ValidConfig(c);
    assert Warnings(c) == [];
  }
}
