/** The icon library: a registry of stroke icons on a 24 by 24 grid, each
    one or two SVG paths, and the functions that look an icon up and render
    it as an `<svg>` element, with a question-mark placeholder for unknown
    keys. */
module Icons {

  import opened Wrappers
  import opened Strings
  import opened Sequences

  datatype Linecap = CapRound | CapButt | CapSquare

  datatype Linejoin = JoinRound | JoinMiter | JoinBevel

  /** An icon: the path data of its first path, an optional second path, and
      the stroke styles when they differ from `round`. */
  datatype IconDefinition = IconDefinition(
    path: string,
    path2: Option<string>,
    strokeLinecap: Option<Linecap>,
    strokeLinejoin: Option<Linejoin>)

  function LinecapText(cap: Linecap): string {
    match cap
    case CapRound => "round"
    case CapButt => "butt"
    case CapSquare => "square"
  }

  function LinejoinText(join: Linejoin): string {
    match join
    case JoinRound => "round"
    case JoinMiter => "miter"
    case JoinBevel => "bevel"
  }

  /* ------------------------------------------------------------ registry */

  const ShieldPath := "M9 12.75L11.25 15 15 9.75m-3-7.036A11.959 11.959 0 013.598 6 11.99 11.99 0 003 9.749c0 5.592 3.824 10.29 9 11.623 5.176-1.332 9-6.03 9-11.622 0-1.31-.21-2.571-.598-3.751h-.152c-3.196 0-6.1-1.248-8.25-3.285z"
  const UsersPath := "M18 18.72a9.094 9.094 0 003.741-.479 3 3 0 00-4.682-2.72m.94 3.198l.001.031c0 .225-.012.447-.037.666A11.944 11.944 0 0112 21c-2.17 0-4.207-.576-5.963-1.584A6.062 6.062 0 016 18.719m12 0a5.971 5.971 0 00-.941-3.197m0 0A5.995 5.995 0 0012 12.75a5.995 5.995 0 00-5.058 2.772m0 0a3 3 0 00-4.681 2.72 8.986 8.986 0 003.74.477m.94-3.197a5.971 5.971 0 00-.94 3.197M15 6.75a3 3 0 11-6 0 3 3 0 016 0zm6 3a2.25 2.25 0 11-4.5 0 2.25 2.25 0 014.5 0zm-13.5 0a2.25 2.25 0 11-4.5 0 2.25 2.25 0 014.5 0z"
  const ClockPath := "M12 6v6h4.5m4.5 0a9 9 0 11-18 0 9 9 0 0118 0z"
  const PhonePath := "M2.25 6.75c0 8.284 6.716 15 15 15h2.25a2.25 2.25 0 002.25-2.25v-1.372c0-.516-.351-.966-.852-1.091l-4.423-1.106c-.44-.11-.902.055-1.173.417l-.97 1.293c-.282.376-.769.542-1.21.38a12.035 12.035 0 01-7.143-7.143c-.162-.441.004-.928.38-1.21l1.293-.97c.363-.271.527-.734.417-1.173L6.963 3.102a1.125 1.125 0 00-1.091-.852H4.5A2.25 2.25 0 002.25 4.5v2.25z"
  const ChartPath := "M3 13.125C3 12.504 3.504 12 4.125 12h2.25c.621 0 1.125.504 1.125 1.125v6.75C7.5 20.496 6.996 21 6.375 21h-2.25A1.125 1.125 0 013 19.875v-6.75zM9.75 8.625c0-.621.504-1.125 1.125-1.125h2.25c.621 0 1.125.504 1.125 1.125v11.25c0 .621-.504 1.125-1.125 1.125h-2.25a1.125 1.125 0 01-1.125-1.125V8.625zM16.5 4.125c0-.621.504-1.125 1.125-1.125h2.25C20.496 3 21 3.504 21 4.125v15.75c0 .621-.504 1.125-1.125 1.125h-2.25a1.125 1.125 0 01-1.125-1.125V4.125z"
  const LightningPath := "m3.75 13.5 10.5-11.25L12 10.5h8.25L9.75 21.75 12 13.5H3.75z"
  const CogPath := "M9.594 3.94c.09-.542.56-.94 1.11-.94h2.593c.55 0 1.02.398 1.11.94l.213 1.281c.063.374.313.686.645.87.074.04.147.083.22.127.325.196.72.257 1.075.124l1.217-.456a1.125 1.125 0 011.37.49l1.296 2.247a1.125 1.125 0 01-.26 1.431l-1.003.827c-.293.241-.438.613-.43.992a7.723 7.723 0 010 .255c-.008.378.137.75.43.991l1.004.827c.424.35.534.955.26 1.43l-1.298 2.247a1.125 1.125 0 01-1.369.491l-1.217-.456c-.355-.133-.75-.072-1.076.124a6.47 6.47 0 01-.22.128c-.331.183-.581.495-.644.869l-.213 1.281c-.09.543-.56.94-1.11.94h-2.594c-.55 0-1.019-.398-1.11-.94l-.213-1.281c-.062-.374-.312-.686-.644-.87a6.52 6.52 0 01-.22-.127c-.325-.196-.72-.257-1.076-.124l-1.217.456a1.125 1.125 0 01-1.369-.49l-1.297-2.247a1.125 1.125 0 01.26-1.431l1.004-.827c.292-.24.437-.613.43-.991a6.932 6.932 0 010-.255c.007-.38-.138-.751-.43-.992l-1.004-.827a1.125 1.125 0 01-.26-1.43l1.297-2.247a1.125 1.125 0 011.37-.491l1.216.456c.356.133.751.072 1.076-.124.072-.044.146-.086.22-.128.332-.183.582-.495.644-.869l.214-1.28z"
  const CogPath2 := "M15 12a3 3 0 11-6 0 3 3 0 016 0z"
  const CheckPath := "M9 12.75L11.25 15 15 9.75M21 12a9 9 0 11-18 0 9 9 0 0118 0z"
  const StarPath := "M11.48 3.499a.562.562 0 011.04 0l2.125 5.111a.563.563 0 00.475.345l5.518.442c.499.04.701.663.321.988l-4.204 3.602a.563.563 0 00-.182.557l1.285 5.385a.562.562 0 01-.84.61l-4.725-2.885a.562.562 0 00-.586 0L6.982 20.54a.562.562 0 01-.84-.61l1.285-5.386a.562.562 0 00-.182-.557l-4.204-3.602a.562.562 0 01.321-.988l5.518-.442a.563.563 0 00.475-.345L11.48 3.5z"
  const MapPinPath := "M15 10.5a3 3 0 11-6 0 3 3 0 016 0z"
  const MapPinPath2 := "M19.5 10.5c0 7.142-7.5 11.25-7.5 11.25" + "S4.5 17.642 4.5 10.5a7.5 7.5 0 1115 0z"
  const MailPath := "M21.75 6.75v10.5a2.25 2.25 0 01-2.25 2.25h-15a2.25 2.25 0 01-2.25-2.25V6.75m19.5 0A2.25 2.25 0 0019.5 4.5h-15a2.25 2.25 0 00-2.25 2.25m19.5 0v.243a2.25 2.25 0 01-1.07 1.916l-7.5 4.615a2.25 2.25 0 01-2.36 0L3.32 8.91a2.25 2.25 0 01-1.07-1.916V6.75"
  const BuildingPath := "M3.75 21h16.5M4.5 3h15M5.25 3v18m13.5-18v18M9 6.75h1.5m-1.5 3h1.5m-1.5 3h1.5m3-6H15m-1.5 3H15m-1.5 3H15M9 21v-3.375c0-.621.504-1.125 1.125-1.125h3.75c.621 0 1.125.504 1.125 1.125V21"
  const ChevronDownPath := "m19.5 8.25-7.5 7.5-7.5-7.5"
  const ArrowRightPath := "M13.5 4.5L21 12m0 0l-7.5 7.5M21 12H3"
  const QuotePath := "M7.5 8.25h9m-9 3h9m-9 3h6M3 5.25a2.25 2.25 0 012.25-2.25h13.5A2.25 2.25 0 0121 5.25v10.5a2.25 2.25 0 01-2.25 2.25h-3.75l-3 3-3-3H5.25A2.25 2.25 0 013 15.75V5.25z"

  /** The registry, key by key as the library defines it. */
  const Registry: map<string, IconDefinition> := map[
      "shield" := IconDefinition(ShieldPath, None, None, None),
      "users" := IconDefinition(UsersPath, None, None, None),
      "clock" := IconDefinition(ClockPath, None, None, None),
      "phone" := IconDefinition(PhonePath, None, None, None),
      "chart" := IconDefinition(ChartPath, None, None, None),
      "lightning" := IconDefinition(LightningPath, None, None, None),
      "cog" := IconDefinition(CogPath, Some(CogPath2), None, None),
      "check" := IconDefinition(CheckPath, None, None, None),
      "star" := IconDefinition(StarPath, None, None, None),
      "mapPin" := IconDefinition(MapPinPath, Some(MapPinPath2), None, None),
      "mail" := IconDefinition(MailPath, None, None, None),
      "building" := IconDefinition(BuildingPath, None, None, None),
      "chevronDown" := IconDefinition(ChevronDownPath, None, None, None),
      "arrowRight" := IconDefinition(ArrowRightPath, None, None, None),
      "quote" := IconDefinition(QuotePath, None, None, None)
  ]

  /** The keys in the order the registry lists them. */
  const RegistryKeys: seq<string> := ["shield", "users", "clock", "phone", "chart", "lightning", "cog", "check", "star", "mapPin", "mail", "building", "chevronDown", "arrowRight", "quote"]

  const PlaceholderPath := "M9.879 7.519c1.171-1.025 3.071-1.025 4.242 0 1.172 1.025 1.172 2.687 0 3.712-.203.179-.43.326-.67.442-.745.361-1.45.999-1.45 1.827v.75M21 12a9 9 0 11-18 0 9 9 0 0118 0zm-9 5.25h.008v.008H12v-.008z"

  /* -------------------------------------------------------------- lookup */

  /** `getIcon`: the definition under `key`, `None` for `undefined`. */
  function GetIcon(key: string): (r: Option<IconDefinition>)
    ensures r.Some? <==> key in Registry
    ensures r.Some? ==> r.value == Registry[key]
  {
    if key in Registry then Some(Registry[key]) else None
  }

  /** `hasIcon`: there is an icon exactly when `getIcon` finds one. */
  function HasIcon(key: string): (r: bool)
    ensures r <==> GetIcon(key).Some?
  {
    key in Registry
  }

  /** `getIconKeys`: every key of the registry, once each, in the order the
      registry lists them. */
  function GetIconKeys(): (r: seq<string>)
    ensures forall key :: key in r <==> key in Registry
    ensures NoDuplicates(r)
    ensures |r| == 15
  {
    RegistryKeys
  }

  /* ----------------------------------------------------------- rendering */

  const SvgClass := " class=\"w-full h-full\">"

  const SvgStrokeAttributes := " xmlns=\"http://www.w3.org/2000/svg\"" + " fill=\"none\""
                               + " viewBox=\"0 0 24 24\"" + " stroke-width=\"1.5\"" + " stroke=\"currentColor\""

  const SvgAttributes := SvgStrokeAttributes + SvgClass

  const SvgOpen := "<svg" + SvgAttributes

  const SvgClose := "</svg>"

  const ElementEnd := "\" />"

  /** One `<path>` element with its stroke styles and path data. */
  function PathElement(cap: string, join: string, d: string): string {
    "<path" + (" stroke-linecap=\"" + cap + "\" stroke-linejoin=\"" + join + "\" d=\"" + d) + ElementEnd
  }

  /** The path data of a second path, when it is present and not empty. */
  predicate HasSecondPath(def: IconDefinition) {
    def.path2.Some? && def.path2.value != ""
  }

  /** The path data the definition asks for: the first path, then the
      second when there is one. */
  function DefinedPaths(def: IconDefinition): seq<string> {
    [def.path] + (if HasSecondPath(def) then [def.path2.value] else [])
  }

  /** One `<path>` element per path data, all with the same stroke styles. */
  function Elements(cap: string, join: string, ds: seq<string>): string {
    if |ds| == 0 then "" else PathElement(cap, join, ds[0]) + Elements(cap, join, ds[1..])
  }

  /** `renderIconToSvg`: the `<svg>` element with one path, and a second one
      when the definition has a non-empty second path. Every path carries
      the definition's stroke styles, `round` where they are unset. Reading
      the `d` attributes of the markup gives back the definition's path
      data, as long as that holds no double quote. */
  function RenderIconToSvg(def: IconDefinition): (r: string)
    ensures StartsWith(r, SvgOpen) && EndsWith(r, SvgClose)
    ensures r == SvgOpen + (Elements(LinecapText(def.strokeLinecap.GetOr(CapRound)),
                                     LinejoinText(def.strokeLinejoin.GetOr(JoinRound)),
                                     DefinedPaths(def)) + SvgClose)
    ensures '"' !in def.path && (def.path2.Some? ==> '"' !in def.path2.value) ==>
              PathData(r) == DefinedPaths(def)
  {
    var cap := LinecapText(def.strokeLinecap.GetOr(CapRound));
    var join := LinejoinText(def.strokeLinejoin.GetOr(JoinRound));
    var first := PathElement(cap, join, def.path);
    var paths := if HasSecondPath(def) then first + PathElement(cap, join, def.path2.value) else first;
    var r := SvgOpen + (paths + SvgClose);
    ElementsOfDefinedPaths(def, cap, join);
    Framed(SvgOpen, paths, SvgClose);
    RenderedPathData(def, cap, join);
    r
  }

  lemma ElementsOfDefinedPaths(def: IconDefinition, cap: string, join: string)
    ensures Elements(cap, join, DefinedPaths(def))
            == if HasSecondPath(def) then PathElement(cap, join, def.path) + PathElement(cap, join, def.path2.value)
               else PathElement(cap, join, def.path)
  {
    var ds := DefinedPaths(def);
    var first := PathElement(cap, join, def.path);
    assert Elements(cap, join, ds) == first + Elements(cap, join, ds[1..]);
    if HasSecondPath(def) {
      var second := PathElement(cap, join, def.path2.value);
      assert ds[1..] == [def.path2.value];
      assert Elements(cap, join, ds[1..]) == second + Elements(cap, join, []);
      assert second + "" == second;
    } else {
      assert ds[1..] == [];
      assert first + "" == first;
    }
  }

  /* ----------------------------------------------------- reading back */

  /** The values of the `d="…"` attributes of some markup, in order: each
      runs from just after `d="` to the next double quote. */
  function PathData(s: string): (r: seq<string>)
    decreases |s|
  {
    if |s| < 3 then []
    else if s[..3] == "d=\"" then
      var rest := s[3..];
      if '"' in rest then
        var k := FirstIndex(rest, '"');
        [rest[..k]] + PathData(rest[k + 1..])
      else [rest]
    else PathData(s[1..])
  }

  /** No `d=` starts in `a`: every `d` is followed, inside `a`, by something
      other than `=`. */
  predicate NoKey(a: string) {
    forall i :: 0 <= i < |a| && a[i] == 'd' ==> i + 1 < |a| && a[i + 1] != '='
  }

  lemma {:induction false} SkipNoKey(a: string, b: string)
    requires NoKey(a)
    ensures PathData(a + b) == PathData(b)
  {
    if |a| > 0 {
      NoKeyTail(a);
      SkipNoKey(a[1..], b);
      assert (a + b)[1..] == a[1..] + b;
      if |a + b| >= 3 {
        assert (a + b)[..3] != "d=\"" by {
          assert (a + b)[..3][0] == a[0];
          if a[0] == 'd' {
            assert (a + b)[..3][1] == a[1];
          }
        }
        assert PathData(a + b) == PathData((a + b)[1..]);
      } else {
        assert |b| < 3;
      }
    } else {
      assert a + b == b;
    }
  }

  lemma NoKeyTail(a: string)
    requires |a| > 0 && NoKey(a)
    ensures NoKey(a[1..])
  {
    forall i | 0 <= i < |a[1..]| && a[1..][i] == 'd' ensures i + 1 < |a[1..]| && a[1..][i + 1] != '=' {
      assert a[i + 1] == 'd';
    }
  }

  lemma NoLetterNoKey(a: string)
    requires 'd' !in a
    ensures NoKey(a)
  {
    forall i | 0 <= i < |a| ensures a[i] != 'd' {
    }
  }

  lemma ReadValue(x: string, b: string)
    requires '"' !in x
    ensures PathData("d=\"" + x + "\"" + b) == [x] + PathData(b)
  {
    var s := "d=\"" + x + "\"" + b;
    assert s[..3] == "d=\"";
    var rest := s[3..];
    assert rest == x + "\"" + b;
    assert rest[|x|] == '"';
    assert rest[..|x|] == x;
    assert FirstIndex(rest, '"') == |x|;
    assert rest[|x| + 1..] == b;
  }

  lemma NoKeyJoin(a: string, b: string)
    requires NoKey(a) && NoKey(b)
    ensures NoKey(a + b)
  {
    forall i | 0 <= i < |a + b| && (a + b)[i] == 'd' ensures i + 1 < |a + b| && (a + b)[i + 1] != '=' {
      if i >= |a| {
        assert (a + b)[i] == b[i - |a|];
        assert (a + b)[i + 1] == b[i + 1 - |a|];
      } else {
        assert (a + b)[i] == a[i];
        assert (a + b)[i + 1] == a[i + 1];
      }
    }
  }

  /** A word without `=` followed by something that starts with a character
      other than `=` starts no `d=`. */
  lemma NoKeyBefore(w: string, rest: string)
    requires '=' !in w && |rest| > 0 && rest[0] != '=' && NoKey(rest)
    ensures NoKey(w + rest)
  {
    forall i | 0 <= i < |w + rest| && (w + rest)[i] == 'd'
      ensures i + 1 < |w + rest| && (w + rest)[i + 1] != '='
    {
      if i + 1 < |w| {
        assert (w + rest)[i + 1] == w[i + 1];
      } else if i + 1 == |w| {
        assert (w + rest)[i + 1] == rest[0];
      } else {
        assert (w + rest)[i] == rest[i - |w|];
        assert (w + rest)[i + 1] == rest[i + 1 - |w|];
      }
    }
  }

  /** The text of a `<path>` element before its `d` attribute starts no
      `d=` of its own. */
  lemma ElementFrontNoKey(cap: string, join: string)
    requires '=' !in cap && '=' !in join
    ensures NoKey("<path stroke-linecap=\"" + (cap + ("\" stroke-linejoin=\"" + (join + "\" "))))
  {
    var capPart := "<path stroke-linecap=\"";
    var joinPart := "\" stroke-linejoin=\"";
    var dPart := "\" ";
    assert 'd' !in capPart && 'd' !in joinPart && 'd' !in dPart;
    NoLetterNoKey(capPart);
    NoLetterNoKey(joinPart);
    NoLetterNoKey(dPart);
    NoKeyBefore(join, dPart);
    NoKeyJoin(joinPart, join + dPart);
    NoKeyBefore(cap, joinPart + (join + dPart));
    NoKeyJoin(capPart, cap + (joinPart + (join + dPart)));
  }

  /** One `<path>` element contributes its own path data and nothing else. */
  lemma ElementData(cap: string, join: string, d: string, rest: string)
    requires '=' !in cap && '=' !in join && '"' !in d
    ensures PathData(PathElement(cap, join, d) + rest) == [d] + PathData(rest)
  {
    var front := "<path stroke-linecap=\"" + (cap + ("\" stroke-linejoin=\"" + (join + "\" ")));
    ElementFrontNoKey(cap, join);
    var tail := " />" + rest;
    assert PathElement(cap, join, d) == front + ("d=\"" + d + "\" />");
    assert PathElement(cap, join, d) + rest == front + ("d=\"" + d + "\"" + tail);
    SkipNoKey(front, "d=\"" + d + "\"" + tail);
    ReadValue(d, tail);
    assert 'd' !in " />";
    NoLetterNoKey(" />");
    SkipNoKey(" />", rest);
  }

  lemma SvgOpenNoKey()
    ensures NoKey(SvgOpen)
  {
    var xmlns := " xmlns=\"http://www.w3.org/2000/svg\"";
    var fill := " fill=\"none\"";
    var viewBox := " viewBox=\"0 0 24 24\"";
    var width := " stroke-width=\"1.5\"";
    var stroke := " stroke=\"currentColor\"";
    assert 'd' !in "<svg" && 'd' !in xmlns && 'd' !in fill && 'd' !in viewBox;
    assert 'd' !in stroke && 'd' !in SvgClass;
    NoLetterNoKey("<svg");
    NoLetterNoKey(xmlns);
    NoLetterNoKey(fill);
    NoLetterNoKey(viewBox);
    NoLetterNoKey(stroke);
    NoLetterNoKey(SvgClass);
    WidthNoKey();
    NoKeyJoin(xmlns, fill);
    NoKeyJoin(xmlns + fill, viewBox);
    NoKeyJoin(xmlns + fill + viewBox, width);
    NoKeyJoin(xmlns + fill + viewBox + width, stroke);
    NoKeyJoin(SvgStrokeAttributes, SvgClass);
    NoKeyJoin("<svg", SvgAttributes);
  }

  /** The one `d` of the `<svg>` attributes, in `stroke-width`, is followed
      by a `t`. */
  lemma WidthNoKey()
    ensures NoKey(" stroke-width=\"1.5\"")
  {
    var tail := "th=\"1.5\"";
    assert 'd' !in " stroke-wi" && 'd' !in tail;
    NoLetterNoKey(" stroke-wi");
    LeadingLetter(tail);
    NoKeyJoin(" stroke-wi", "d" + tail);
    assert " stroke-wi" + ("d" + tail) == " stroke-width=\"1.5\"";
  }

  lemma LeadingLetter(tail: string)
    requires 'd' !in tail && |tail| > 0 && tail[0] != '='
    ensures NoKey("d" + tail)
  {
    forall i | 0 <= i < |"d" + tail| && ("d" + tail)[i] == 'd'
      ensures i + 1 < |"d" + tail| && ("d" + tail)[i + 1] != '='
    {
      if i == 0 {
        assert ("d" + tail)[1] == tail[0];
      }
    }
  }

  lemma RenderedPathData(def: IconDefinition, cap: string, join: string)
    requires cap == LinecapText(def.strokeLinecap.GetOr(CapRound))
    requires join == LinejoinText(def.strokeLinejoin.GetOr(JoinRound))
    ensures '"' !in def.path && (def.path2.Some? ==> '"' !in def.path2.value) ==>
            var first := PathElement(cap, join, def.path);
            var paths := if HasSecondPath(def) then first + PathElement(cap, join, def.path2.value) else first;
            PathData(SvgOpen + (paths + SvgClose)) == DefinedPaths(def)
  {
    if '"' in def.path || (def.path2.Some? && '"' in def.path2.value) {
      return;
    }
    assert '=' !in cap && '=' !in join;
    var first := PathElement(cap, join, def.path);
    SvgOpenNoKey();
    assert NoKey(SvgClose);
    SkipNoKey(SvgClose, "");
    assert SvgClose + "" == SvgClose;
    if HasSecondPath(def) {
      var second := PathElement(cap, join, def.path2.value);
      SkipNoKey(SvgOpen, first + second + SvgClose);
      assert first + second + SvgClose == first + (second + SvgClose);
      ElementData(cap, join, def.path, second + SvgClose);
      ElementData(cap, join, def.path2.value, SvgClose);
      assert SvgOpen + ((first + second) + SvgClose) == SvgOpen + (first + second + SvgClose);
    } else {
      SkipNoKey(SvgOpen, first + SvgClose);
      ElementData(cap, join, def.path, SvgClose);
    }
  }

  /** The placeholder, a question mark in a circle, written out in full. */
  const PlaceholderElement := "<path" + (" stroke-linecap=\"" + "round" + "\" stroke-linejoin=\"" + "round"
                                          + "\" d=\"" + PlaceholderPath) + ElementEnd

  const PlaceholderSvg := SvgOpen + (PlaceholderElement + SvgClose)

  /** `renderIcon`: the rendered icon, `None` for an unknown key. */
  function RenderIcon(key: string): (r: Option<string>)
    ensures r.None? <==> !HasIcon(key)
    ensures r.Some? ==> r.value == RenderIconToSvg(Registry[key])
  {
    match GetIcon(key)
    case None => None
    case Some(def) => Some(RenderIconToSvg(def))
  }

  /** `getIconOrPlaceholder`: the rendered icon, or the placeholder for an
      unknown key. */
  function GetIconOrPlaceholder(key: string): (r: string)
    ensures HasIcon(key) ==> r == RenderIcon(key).value
    ensures !HasIcon(key) ==> r == PlaceholderSvg
  {
    if key in Registry then RenderIconToSvg(Registry[key]) else PlaceholderSvg
  }

  /* ---------------------------------------------------------- properties */

  /** The placeholder is what rendering an icon with the placeholder's path
      and no stroke styles gives. */
  lemma PlaceholderIsDefaultIcon()
    ensures PlaceholderSvg == RenderIconToSvg(IconDefinition(PlaceholderPath, None, None, None))
  {
    var def := IconDefinition(PlaceholderPath, None, None, None);
    assert !HasSecondPath(def);
    assert PathElement("round", "round", PlaceholderPath) == PlaceholderElement;
  }

  /** Stroke styles that are left unset render as `round`. */
  lemma DefaultStrokesAreRound(def: IconDefinition)
    requires def.strokeLinecap.None? && def.strokeLinejoin.None?
    ensures RenderIconToSvg(def)
            == RenderIconToSvg(def.(strokeLinecap := Some(CapRound), strokeLinejoin := Some(JoinRound)))
  {
  }

  const PathTag := "<path"

  /** The number of `<path` tags in `s`: the positions where one starts. */
  function PathTags(s: string): nat {
    if |s| == 0 then 0 else (if IsAt(s, 0, PathTag) then 1 else 0) + PathTags(s[1..])
  }

  lemma {:induction false} NoAngleNoTags(s: string)
    requires '<' !in s
    ensures PathTags(s) == 0
  {
    if |s| > 0 {
      assert !IsAt(s, 0, PathTag) by {
        if 5 <= |s| {
          assert s[0..5][0] == s[0];
        }
      }
      NoAngleNoTags(s[1..]);
    }
  }

  /** The last four characters hold no `<`, so no tag starts there and runs
      into what is appended. */
  predicate CleanTail(a: string) {
    forall i :: 0 <= i < |a| && |a| - i < |PathTag| ==> a[i] != '<'
  }

  lemma CleanTailOf(x: string, y: string)
    requires '<' !in y && |y| >= 4
    ensures CleanTail(x + y)
  {
    forall i | 0 <= i < |x + y| && |x + y| - i < |PathTag| ensures (x + y)[i] != '<' {
      assert (x + y)[i] == y[i - |x|];
    }
  }

  /** Tags are counted piece by piece when no tag straddles the join. */
  lemma {:induction false} TagsAppend(a: string, b: string)
    requires CleanTail(a)
    ensures PathTags(a + b) == PathTags(a) + PathTags(b)
  {
    if |a| == 0 {
      assert a + b == b;
    } else {
      assert (a + b)[1..] == a[1..] + b;
      assert CleanTail(a[1..]) by {
        forall i | 0 <= i < |a[1..]| && |a[1..]| - i < |PathTag| ensures a[1..][i] != '<' {
          assert a[1..][i] == a[i + 1];
        }
      }
      TagsAppend(a[1..], b);
      if |a| >= 5 {
        assert (a + b)[0..5] == a[0..5];
      } else {
        assert !IsAt(a + b, 0, PathTag) by {
          assert (a + b)[0] == a[0];
          if 5 <= |a + b| {
            assert (a + b)[0..5][0] == a[0];
          }
        }
      }
    }
  }

  lemma OneTagPerElement(cap: string, join: string, d: string)
    requires '<' !in cap && '<' !in join && '<' !in d
    ensures PathTags(PathElement(cap, join, d)) == 1
    ensures CleanTail(PathElement(cap, join, d))
  {
    var body := " stroke-linecap=\"" + cap + "\" stroke-linejoin=\"" + join + "\" d=\"" + d;
    var e := PathElement(cap, join, d);
    assert '<' !in ElementEnd;
    assert e[1..] == "path" + body + ElementEnd;
    NoAngleNoTags(e[1..]);
    assert e[0..5] == PathTag;
    CleanTailOf("<path" + body, ElementEnd);
  }

  lemma SvgAttributesHaveNoAngle()
    ensures '<' !in SvgStrokeAttributes && '<' !in SvgAttributes
  {
    var xmlns := " xmlns=\"http://www.w3.org/2000/svg\"";
    var fill := " fill=\"none\"";
    var viewBox := " viewBox=\"0 0 24 24\"";
    var width := " stroke-width=\"1.5\"";
    var stroke := " stroke=\"currentColor\"";
    assert '<' !in xmlns && '<' !in fill && '<' !in viewBox;
    assert '<' !in width && '<' !in stroke && '<' !in SvgClass;
    NoAngleConcat(xmlns, fill);
    NoAngleConcat(xmlns + fill, viewBox);
    NoAngleConcat(xmlns + fill + viewBox, width);
    NoAngleConcat(xmlns + fill + viewBox + width, stroke);
    NoAngleConcat(SvgStrokeAttributes, SvgClass);
  }

  /** Markup between an opening and a closing text starts and ends with them. */
  lemma Framed(a: string, b: string, c: string)
    ensures StartsWith(a + (b + c), a) && EndsWith(a + (b + c), c)
  {
    var r := a + (b + c);
    assert r[..|a|] == a;
    assert r[|r| - |c|..] == c;
  }

  lemma Regroup(a: string, b: string, c: string)
    ensures a + (b + c) == a + b + c
  {
  }

  lemma NoAngleConcat(a: string, b: string)
    requires '<' !in a && '<' !in b
    ensures '<' !in a + b
  {
  }

  lemma SvgOpenHasNoTags()
    ensures PathTags(SvgOpen) == 0 && CleanTail(SvgOpen)
  {
    SvgAttributesHaveNoAngle();
    assert '<' !in SvgClass;
    var front := "<svg" + SvgStrokeAttributes;
    CleanTailOf(front, SvgClass);
    Regroup("<svg", SvgStrokeAttributes, SvgClass);
    assert SvgOpen[1..] == "svg" + SvgAttributes;
    NoAngleNoTags(SvgOpen[1..]);
    assert SvgOpen[0..5] != PathTag by {
      assert SvgOpen[0..5][1] == 's';
    }
  }

  lemma SvgCloseHasNoTags()
    ensures PathTags(SvgClose) == 0
  {
    assert SvgClose[1..] == "/svg>";
    NoAngleNoTags(SvgClose[1..]);
    assert SvgClose[0..5] != PathTag by {
      assert SvgClose[0..5][1] == '/';
    }
  }

  /** The rendered icon holds two `<path>` elements when the definition has
      a non-empty second path and one otherwise, as long as the path data
      holds no `<` itself. */
  lemma PathCount(def: IconDefinition)
    requires '<' !in def.path
    requires def.path2.Some? ==> '<' !in def.path2.value
    ensures PathTags(RenderIconToSvg(def)) == if HasSecondPath(def) then 2 else 1
  {
    var cap := LinecapText(def.strokeLinecap.GetOr(CapRound));
    var join := LinejoinText(def.strokeLinejoin.GetOr(JoinRound));
    assert '<' !in cap && '<' !in join;
    var first := PathElement(cap, join, def.path);
    OneTagPerElement(cap, join, def.path);
    SvgOpenHasNoTags();
    SvgCloseHasNoTags();
    if HasSecondPath(def) {
      var second := PathElement(cap, join, def.path2.value);
      OneTagPerElement(cap, join, def.path2.value);
      TagsAppend(second, SvgClose);
      TagsAppend(first, second + SvgClose);
      assert first + second + SvgClose == first + (second + SvgClose);
      TagsAppend(SvgOpen, first + second + SvgClose);
    } else {
      TagsAppend(first, SvgClose);
      TagsAppend(SvgOpen, first + SvgClose);
    }
  }

  lemma MapPinPathsHaveNoAngle()
    ensures '<' !in MapPinPath && '<' !in MapPinPath2
  {
  }

  /** The map pin is one of the two registered icons drawn with two paths. */
  lemma MapPinHasTwoPaths()
    ensures RenderIcon("mapPin").Some?
    ensures PathTags(RenderIcon("mapPin").value) == 2
  {
    assert Registry["mapPin"] == IconDefinition(MapPinPath, Some(MapPinPath2), None, None);
    MapPinPathsHaveNoAngle();
    PathCount(Registry["mapPin"]);
  }
}
