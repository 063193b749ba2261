/** Logo resolution: schema.org markup, then `og:image`, then header and nav
    images, then `.svg` images, then icons, the first source that gives a
    truthy value winning; then the download check and the format guess.

    The parsed page is an input: the JSON-LD scripts as `json.loads` read
    them, the microdata element's attributes, the four header containers in
    the order they are searched, every `<img>` in document order and the
    `href` of the two icon links. `urljoin` and the download are parameters. */
module LogoExtractor {
  import opened Wrappers
  import opened Text
  import opened Json
  import opened BrandData
  import opened Search

  // ---- keywords ----

  const LogoPatterns: seq<string> := ["logo", "brand", "mark", "icon"]

  /** `any(p in s for p in LOGO_PATTERNS)` */
  predicate HasKeyword(s: string)
  {
    ContainsAny(s, LogoPatterns)
  }

  // ---- schema.org ----

  /** What an object's `logo` key decides: a string is the logo, an object
      gives its `url` or else its `contentUrl`; anything else decides
      nothing and the search goes on. */
  function LogoOf(item: Json): Option<Json>
  {
    match item
    case JObj(m) =>
      if "logo" in m then
        match m["logo"]
        case JStr(_) => Some(m["logo"])
        case JObj(l) => Some(Or(Get(l, "url"), Get(l, "contentUrl")))
        case _ => None
      else None
    case _ => None
  }

  predicate Decides(item: Json)
  {
    LogoOf(item).Some?
  }

  /** A script holding a list is searched item by item; a script holding an
      object decides through its own `logo`. */
  function ScriptDecision(data: Json): Option<Json>
  {
    match data
    case JArr(items) =>
      (match FirstMatch(items, Decides)
       case Some(item) => LogoOf(item)
       case None => None)
    case JObj(_) => LogoOf(data)
    case _ => None
  }

  /** A script whose text was empty or did not parse is `None`: it is skipped. */
  predicate ScriptDecides(script: Option<Json>)
  {
    script.Some? && ScriptDecision(script.value).Some?
  }

  /** `tag.get(name)`, for an attribute holding a string. */
  function AttrGet(attrs: map<string, string>, name: string): Json
  {
    if name in attrs then JStr(attrs[name]) else JNull
  }

  /** `_find_schema_logo`: the first script that decides gives the logo,
      whatever it is; failing that, the `itemprop="logo"` element's `src`,
      `content` or `href`. */
  function SchemaLogo(scripts: seq<Option<Json>>, microdata: Option<map<string, string>>): Json
  {
    match FirstMatch(scripts, ScriptDecides)
    case Some(s) => ScriptDecision(s.value).value
    case None =>
      match microdata
      case Some(attrs) => Or(Or(AttrGet(attrs, "src"), AttrGet(attrs, "content")), AttrGet(attrs, "href"))
      case None => JNull
  }

  /** `_find_schema_logo`, with its loops and early returns. */
  method FindSchemaLogo(scripts: seq<Option<Json>>, microdata: Option<map<string, string>>) returns (r: Json)
    ensures r == SchemaLogo(scripts, microdata)
  {
    FirstMatchSpec(scripts, ScriptDecides);
    for i := 0 to |scripts|
      invariant forall j :: 0 <= j < i ==> !ScriptDecides(scripts[j])
    {
      if scripts[i].None? {
        continue;
      }
      var data := scripts[i].value;
      if data.JArr? {
        var item := FindFirst(data.items, Decides);
        if item.Some? {
          FirstFound(scripts, ScriptDecides, i);
          return LogoOf(item.value).value;
        }
      } else if data.JObj? && "logo" in data.fields {
        var logo := data.fields["logo"];
        if logo.JStr? {
          FirstFound(scripts, ScriptDecides, i);
          return logo;
        } else if logo.JObj? {
          FirstFound(scripts, ScriptDecides, i);
          return Or(Get(logo.fields, "url"), Get(logo.fields, "contentUrl"));
        }
      }
    }
    if microdata.Some? {
      var attrs := microdata.value;
      return Or(Or(AttrGet(attrs, "src"), AttrGet(attrs, "content")), AttrGet(attrs, "href"));
    }
    return JNull;
  }

  /** An object `logo` with neither `url` nor `contentUrl` ends the search
      with nothing: later scripts and the microdata are not consulted. */
  lemma EmptyLogoObjectStops(rest: seq<Option<Json>>, microdata: Option<map<string, string>>)
    ensures SchemaLogo([Some(JObj(map["logo" := JObj(map[])]))] + rest, microdata) == JNull
  {
    var s := Some(JObj(map["logo" := JObj(map[])]));
    assert ScriptDecides(s);
    FirstFound([s] + rest, ScriptDecides, 0);
  }

  /** A logo given as a string is returned as it is, even when it is empty. */
  lemma StringLogoVerbatim(logo: string, rest: seq<Option<Json>>, microdata: Option<map<string, string>>)
    ensures SchemaLogo([Some(JObj(map["logo" := JStr(logo)]))] + rest, microdata) == JStr(logo)
  {
    var s := Some(JObj(map["logo" := JStr(logo)]));
    assert ScriptDecides(s);
    FirstFound([s] + rest, ScriptDecides, 0);
  }

  /** Scripts that are empty or do not parse are skipped. */
  lemma UnparsedSkipped(rest: seq<Option<Json>>, microdata: Option<map<string, string>>)
    ensures SchemaLogo([None] + rest, microdata) == SchemaLogo(rest, microdata)
  {
    assert ([None] + rest)[1..] == rest;
  }

  // ---- header and nav ----

  /** An `<img>`: `src`, `alt` and `id` default to `""`, `class` to `[]`. */
  datatype Img = Img(src: string, alt: string, classes: seq<string>, id: string)

  /** An `<a>` with its first `<img>`, if any. */
  datatype Link = Link(classes: seq<string>, img: Option<Img>)

  /** The images and links inside one header container, in document order. */
  datatype Container = Container(imgs: seq<Img>, links: seq<Link>)

  /** An image whose `src`, `alt`, classes or `id` name a keyword. */
  predicate ImgMatches(img: Img)
  {
    HasKeyword(Lower(img.src)) || HasKeyword(Lower(img.alt))
    || HasKeyword(Lower(Join(img.classes, " "))) || HasKeyword(Lower(img.id))
  }

  /** A link wrapping an image, whose classes name a keyword. */
  predicate LinkMatches(link: Link)
  {
    link.img.Some? && HasKeyword(Lower(Join(link.classes, " ")))
  }

  /** The `src` a container yields: from the first matching image, else from
      the image of the first matching link. */
  function ContainerPick(c: Container): Option<string>
  {
    match FirstMatch(c.imgs, ImgMatches)
    case Some(img) => Some(img.src)
    case None =>
      match FirstMatch(c.links, LinkMatches)
      case Some(link) => Some(link.img.value.src)
      case None => None
  }

  method FindContainerPick(c: Container) returns (r: Option<string>)
    ensures r == ContainerPick(c)
  {
    var img := FindFirst(c.imgs, ImgMatches);
    if img.Some? {
      return Some(img.value.src);
    }
    var link := FindFirst(c.links, LinkMatches);
    if link.Some? {
      return Some(link.value.img.value.src);
    }
    return None;
  }

  /** Containers that were not found are skipped. */
  predicate Picks(c: Option<Container>)
  {
    c.Some? && ContainerPick(c.value).Some?
  }

  /** `_find_header_logo`: the first container that yields a `src`, joined
      to the base URL. */
  function HeaderLogo(containers: seq<Option<Container>>, base: string, join: (string, string) -> string): Option<string>
  {
    match FirstMatch(containers, Picks)
    case Some(c) => Some(join(base, ContainerPick(c.value).value))
    case None => None
  }

  method FindHeaderLogo(containers: seq<Option<Container>>, base: string, join: (string, string) -> string)
    returns (r: Option<string>)
    ensures r == HeaderLogo(containers, base, join)
  {
    FirstMatchSpec(containers, Picks);
    for i := 0 to |containers|
      invariant forall j :: 0 <= j < i ==> !Picks(containers[j])
    {
      if containers[i].None? {
        continue;
      }
      var src := FindContainerPick(containers[i].value);
      if src.Some? {
        FirstFound(containers, Picks, i);
        return Some(join(base, src.value));
      }
    }
    return None;
  }

  /** The header logo is the joined `src` of a matching image or of the image
      of a matching link, in the first container that has either; a container
      is only consulted when every earlier one has neither. */
  lemma HeaderLogoSpec(containers: seq<Option<Container>>, base: string, join: (string, string) -> string)
    ensures HeaderLogo(containers, base, join).None? <==> forall k :: 0 <= k < |containers| ==> !Picks(containers[k])
    ensures HeaderLogo(containers, base, join).Some? ==>
      exists k :: 0 <= k < |containers| && Picks(containers[k]) && (forall j :: 0 <= j < k ==> !Picks(containers[j]))
        && HeaderLogo(containers, base, join) == Some(join(base, ContainerPick(containers[k].value).value))
  {
    FirstMatchSpec(containers, Picks);
  }

  /** Within a container, images come before links. */
  lemma ContainerPickSpec(c: Container)
    ensures ContainerPick(c).Some? <==>
      (exists k :: 0 <= k < |c.imgs| && ImgMatches(c.imgs[k])) || (exists k :: 0 <= k < |c.links| && LinkMatches(c.links[k]))
    ensures (exists k :: 0 <= k < |c.imgs| && ImgMatches(c.imgs[k])) ==>
      exists k :: 0 <= k < |c.imgs| && ImgMatches(c.imgs[k]) && ContainerPick(c) == Some(c.imgs[k].src)
  {
    FirstMatchSpec(c.imgs, ImgMatches);
    FirstMatchSpec(c.links, LinkMatches);
  }

  // ---- `.svg` images ----

  /** An image whose lower-cased `src` names an `.svg` file and a keyword.
      Inline `<svg>` elements are looked at and skipped, so they are not an
      input here. */
  predicate SvgMatches(img: Img)
  {
    Contains(Lower(img.src), ".svg") && HasKeyword(Lower(img.src))
  }

  /** `_find_svg_logo` */
  function SvgLogo(imgs: seq<Img>, base: string, join: (string, string) -> string): Option<string>
  {
    match FirstMatch(imgs, SvgMatches)
    case Some(img) => Some(join(base, img.src))
    case None => None
  }

  method FindSvgLogo(imgs: seq<Img>, base: string, join: (string, string) -> string) returns (r: Option<string>)
    ensures r == SvgLogo(imgs, base, join)
  {
    var img := FindFirst(imgs, SvgMatches);
    if img.Some? {
      return Some(join(base, img.value.src));
    }
    return None;
  }

  /** The `.svg` logo is the joined `src` of the first image naming an `.svg`
      file and a keyword. */
  lemma SvgLogoSpec(imgs: seq<Img>, base: string, join: (string, string) -> string)
    ensures SvgLogo(imgs, base, join).None? <==> forall k :: 0 <= k < |imgs| ==> !SvgMatches(imgs[k])
    ensures SvgLogo(imgs, base, join).Some? ==>
      exists k :: 0 <= k < |imgs| && SvgMatches(imgs[k]) && (forall j :: 0 <= j < k ==> !SvgMatches(imgs[j]))
        && SvgLogo(imgs, base, join) == Some(join(base, imgs[k].src))
  {
    FirstMatchSpec(imgs, SvgMatches);
  }

  // ---- icons ----

  /** `meta.get(key)`: the scraper stores `""` for what it did not find. */
  function MetaGet(meta: map<string, string>, key: string): string
  {
    if key in meta then meta[key] else ""
  }

  /** A link element's `href`, when the element exists and the attribute is
      non-empty. */
  predicate HasHref(href: Option<string>)
  {
    href.Some? && href.value != ""
  }

  const DefaultFavicon: string := "/favicon.ico"

  /** `_find_favicon`: the apple-touch icon from the scraper, the
      apple-touch-icon link, the favicon from the scraper, the icon link, and
      finally `/favicon.ico` on the base URL. */
  function Favicon(meta: map<string, string>, appleTouchHref: Option<string>, iconHref: Option<string>,
                   base: string, join: (string, string) -> string): (r: string)
    ensures (r == MetaGet(meta, "appleTouchIcon") && r != "") || (r == MetaGet(meta, "favicon") && r != "")
            || exists path :: path != "" && r == join(base, path)
  {
    if MetaGet(meta, "appleTouchIcon") != "" then MetaGet(meta, "appleTouchIcon")
    else if HasHref(appleTouchHref) then join(base, appleTouchHref.value)
    else if MetaGet(meta, "favicon") != "" then MetaGet(meta, "favicon")
    else if HasHref(iconHref) then join(base, iconHref.value)
    else join(base, DefaultFavicon)
  }

  /** The sources are tried in order: the scraper's apple-touch icon, the
      apple-touch-icon link joined to the base, the scraper's favicon, the
      icon link joined to the base. The first present one wins, an earlier
      present source makes every later one irrelevant, and the default is
      used only when all four are missing. */
  lemma FaviconOrder(meta: map<string, string>, appleTouchHref: Option<string>, iconHref: Option<string>,
                     base: string, join: (string, string) -> string,
                     otherApple: Option<string>, otherFavicon: string, otherIcon: Option<string>)
    ensures MetaGet(meta, "appleTouchIcon") != "" ==>
      Favicon(meta, appleTouchHref, iconHref, base, join) == MetaGet(meta, "appleTouchIcon")
    ensures MetaGet(meta, "appleTouchIcon") == "" && HasHref(appleTouchHref) ==>
      Favicon(meta, appleTouchHref, iconHref, base, join) == join(base, appleTouchHref.value)
    ensures MetaGet(meta, "appleTouchIcon") == "" && !HasHref(appleTouchHref) && MetaGet(meta, "favicon") != "" ==>
      Favicon(meta, appleTouchHref, iconHref, base, join) == MetaGet(meta, "favicon")
    ensures MetaGet(meta, "appleTouchIcon") == "" && !HasHref(appleTouchHref) && MetaGet(meta, "favicon") == ""
            && HasHref(iconHref) ==>
      Favicon(meta, appleTouchHref, iconHref, base, join) == join(base, iconHref.value)
    ensures MetaGet(meta, "appleTouchIcon") != "" ==>
      Favicon(meta, appleTouchHref, iconHref, base, join)
        == Favicon(meta["favicon" := otherFavicon], otherApple, otherIcon, base, join)
    ensures HasHref(appleTouchHref) ==>
      Favicon(meta, appleTouchHref, iconHref, base, join)
        == Favicon(meta["favicon" := otherFavicon], appleTouchHref, otherIcon, base, join)
    ensures MetaGet(meta, "favicon") != "" ==>
      Favicon(meta, appleTouchHref, iconHref, base, join) == Favicon(meta, appleTouchHref, otherIcon, base, join)
    ensures MetaGet(meta, "appleTouchIcon") == "" && !HasHref(appleTouchHref)
            && MetaGet(meta, "favicon") == "" && !HasHref(iconHref) ==>
      Favicon(meta, appleTouchHref, iconHref, base, join) == join(base, DefaultFavicon)
  {
    assert MetaGet(meta["favicon" := otherFavicon], "appleTouchIcon") == MetaGet(meta, "appleTouchIcon");
  }

  // ---- format and download ----

  /** `_detect_format`: the first extension named anywhere in the lower-cased
      URL, `png` when none is. */
  function DetectFormat(url: string): (f: string)
    ensures f in {"svg", "png", "jpeg", "ico"}
    ensures f == "svg" <==> Contains(Lower(url), ".svg")
    ensures f == "jpeg" <==>
      !Contains(Lower(url), ".svg") && !Contains(Lower(url), ".png")
      && (Contains(Lower(url), ".jpg") || Contains(Lower(url), ".jpeg"))
    ensures f == "ico" <==>
      !Contains(Lower(url), ".svg") && !Contains(Lower(url), ".png")
      && !Contains(Lower(url), ".jpg") && !Contains(Lower(url), ".jpeg") && Contains(Lower(url), ".ico")
    ensures f == "png" <==>
      !Contains(Lower(url), ".svg")
      && (Contains(Lower(url), ".png")
          || (!Contains(Lower(url), ".jpg") && !Contains(Lower(url), ".jpeg") && !Contains(Lower(url), ".ico")))
  {
    var u := Lower(url);
    if Contains(u, ".svg") then "svg"
    else if Contains(u, ".png") then "png"
    else if Contains(u, ".jpg") || Contains(u, ".jpeg") then "jpeg"
    else if Contains(u, ".ico") then "ico"
    else "png"
  }

  /** The extensions an accepted download may end in. */
  const ImageExtensions: seq<string> := [".png", ".jpg", ".jpeg", ".svg", ".ico"]

  /** The outcome of fetching a URL: an exception, or a response. */
  datatype Fetch = Raised | Response(status: int, contentType: string, body: seq<byte>)

  /** `url.endswith(ImageExtensions)` */
  predicate HasImageExtension(url: string)
  {
    exists i :: 0 <= i < |ImageExtensions| && EndsWith(url, ImageExtensions[i])
  }

  /** `_download_image`: the body of a 200 response whose content type names
      an image, or whose URL ends in an image extension. */
  function Downloaded(url: string, fetch: Fetch): (data: Option<seq<byte>>)
    ensures data.Some? <==>
      fetch.Response? && fetch.status == 200 && (Contains(fetch.contentType, "image") || HasImageExtension(url))
    ensures data.Some? ==> data.value == fetch.body
  {
    match fetch
    case Raised => None
    case Response(status, contentType, body) =>
      if status == 200 && (Contains(contentType, "image") || HasImageExtension(url)) then Some(body) else None
  }

  // ---- the chain ----

  /** A parsed page, as the finders see it. */
  datatype Page = Page(scripts: seq<Option<Json>>, microdata: Option<map<string, string>>,
                       containers: seq<Option<Container>>, imgs: seq<Img>,
                       appleTouchHref: Option<string>, iconHref: Option<string>)

  function FromOption(o: Option<string>): Json
  {
    match o
    case Some(s) => JStr(s)
    case None => JNull
  }

  /** The `og:image` candidate: the scraper's value, when it names a keyword. */
  function OgCandidate(meta: map<string, string>): Json
  {
    var og := MetaGet(meta, "ogImage");
    if og != "" && HasKeyword(Lower(og)) then JStr(og) else JNull
  }

  /** The logo URL `extract` settles on: each step runs only while the value
      so far is falsy. */
  function LogoUrl(page: Page, base: string, meta: map<string, string>, join: (string, string) -> string): Json
  {
    var u1 := SchemaLogo(page.scripts, page.microdata);
    var u2 := if !Truthy(u1) then OgCandidate(meta) else u1;
    var u3 := if !Truthy(u2) then FromOption(HeaderLogo(page.containers, base, join)) else u2;
    var u4 := if !Truthy(u3) then FromOption(SvgLogo(page.imgs, base, join)) else u3;
    if !Truthy(u4) then JStr(Favicon(meta, page.appleTouchHref, page.iconHref, base, join)) else u4
  }

  /** The first truthy candidate, or `last` when there is none. */
  function FirstTruthy(candidates: seq<Json>, last: Json): Json
  {
    if candidates == [] then last
    else if Truthy(candidates[0]) then candidates[0]
    else FirstTruthy(candidates[1..], last)
  }

  /** The sources in priority order; the last is always a URL. */
  function Candidates(page: Page, base: string, meta: map<string, string>, join: (string, string) -> string): seq<Json>
  {
    [SchemaLogo(page.scripts, page.microdata), OgCandidate(meta),
     FromOption(HeaderLogo(page.containers, base, join)), FromOption(SvgLogo(page.imgs, base, join))]
  }

  /** The step-by-step reassignment picks the first truthy source in the
      order schema, `og:image`, header, `.svg`, icons. */
  lemma LogoUrlIsFirstTruthy(page: Page, base: string, meta: map<string, string>, join: (string, string) -> string)
    ensures LogoUrl(page, base, meta, join) ==
      FirstTruthy(Candidates(page, base, meta, join), JStr(Favicon(meta, page.appleTouchHref, page.iconHref, base, join)))
  {
    var cs := Candidates(page, base, meta, join);
    ChainOfFour(cs[0], cs[1], cs[2], cs[3], JStr(Favicon(meta, page.appleTouchHref, page.iconHref, base, join)));
    assert cs == [cs[0], cs[1], cs[2], cs[3]];
  }

  /** Four reassignments guarded by "still falsy" pick the first truthy value. */
  lemma ChainOfFour(a: Json, b: Json, c: Json, d: Json, last: Json)
    ensures var u2 := if !Truthy(a) then b else a;
            var u3 := if !Truthy(u2) then c else u2;
            var u4 := if !Truthy(u3) then d else u3;
            (if !Truthy(u4) then last else u4) == FirstTruthy([a, b, c, d], last)
  {
    assert [a, b, c, d][1..] == [b, c, d] && [b, c, d][1..] == [c, d] && [c, d][1..] == [d] && [d][1..] == [];
    assert FirstTruthy([d], last) == if Truthy(d) then d else last;
    assert FirstTruthy([c, d], last) == if Truthy(c) then c else FirstTruthy([d], last);
    assert FirstTruthy([b, c, d], last) == if Truthy(b) then b else FirstTruthy([c, d], last);
  }

  /** A source is used only when every earlier one gave a falsy value. */
  lemma {:induction false} FirstTruthySpec(candidates: seq<Json>, last: Json)
    ensures (forall k :: 0 <= k < |candidates| ==> !Truthy(candidates[k])) ==> FirstTruthy(candidates, last) == last
    ensures forall k :: (0 <= k < |candidates| && Truthy(candidates[k])
                         && (forall j :: 0 <= j < k ==> !Truthy(candidates[j]))) ==>
      FirstTruthy(candidates, last) == candidates[k]
  {
    if candidates != [] {
      var rest := candidates[1..];
      FirstTruthySpec(rest, last);
      forall k | 0 < k < |candidates| && Truthy(candidates[k]) && (forall j :: 0 <= j < k ==> !Truthy(candidates[j]))
        ensures FirstTruthy(candidates, last) == candidates[k]
      {
        assert rest[k - 1] == candidates[k];
        assert forall j :: 0 <= j < k - 1 ==> rest[j] == candidates[j + 1];
      }
      assert forall k :: 1 <= k < |candidates| ==> rest[k - 1] == candidates[k];
    }
  }

  /** Python fails calling `.lower()` on a logo URL that is not a string. */
  const NotAStringMessage: string := "'logo' is not a string: it has no attribute 'lower'"

  /** What `extract` returns: the chosen URL, the downloaded data when
      accepted, and the detected format. */
  function LogoResult(page: Page, base: string, meta: map<string, string>, join: (string, string) -> string,
                      fetch: string -> Fetch): Result<LogoAsset>
  {
    match LogoUrl(page, base, meta, join)
    case JStr(u) =>
      Ok(LogoAsset(Some(u), if u != "" then Downloaded(u, fetch(u)) else None, [],
                   if u != "" then DetectFormat(u) else DefaultLogoFormat))
    case _ => Err(NotAStringMessage)
  }

  /** `extract`: `logo_url` is reassigned source by source. */
  method Extract(page: Page, base: string, meta: map<string, string>, join: (string, string) -> string,
                 fetch: string -> Fetch) returns (res: Result<LogoAsset>)
    ensures res == LogoResult(page, base, meta, join, fetch)
  {
    var logoUrl := FindSchemaLogo(page.scripts, page.microdata);
    if !Truthy(logoUrl) {
      logoUrl := OgCandidate(meta);
    }
    if !Truthy(logoUrl) {
      var header := FindHeaderLogo(page.containers, base, join);
      logoUrl := FromOption(header);
    }
    if !Truthy(logoUrl) {
      var svg := FindSvgLogo(page.imgs, base, join);
      logoUrl := FromOption(svg);
    }
    if !Truthy(logoUrl) {
      logoUrl := JStr(Favicon(meta, page.appleTouchHref, page.iconHref, base, join));
    }
    assert logoUrl == LogoUrl(page, base, meta, join);
    if !logoUrl.JStr? {
      return Err(NotAStringMessage);
    }
    var url := logoUrl.s;
    var data: Option<seq<byte>> := None;
    if url != "" {
      data := Downloaded(url, fetch(url));
    }
    return Ok(LogoAsset(Some(url), data, [], if url != "" then DetectFormat(url) else DefaultLogoFormat));
  }

  /** The asset always carries a URL; it fails only when the schema markup
      gave a truthy value that is not a string, and that value won. */
  lemma LogoAlwaysHasUrl(page: Page, base: string, meta: map<string, string>, join: (string, string) -> string,
                         fetch: string -> Fetch)
    ensures LogoResult(page, base, meta, join, fetch).Ok? ==>
      && LogoResult(page, base, meta, join, fetch).value.primaryUrl.Some?
      && LogoResult(page, base, meta, join, fetch).value.variations == []
    ensures LogoResult(page, base, meta, join, fetch).Err? <==>
      var schema := SchemaLogo(page.scripts, page.microdata); Truthy(schema) && !schema.JStr?
  {
  }
}
