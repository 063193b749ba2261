/** The scraper's own decisions: the URL gets a protocol, the about and
    contact pages are picked from the home page's links, key pages that fail
    are skipped, and at most ten stylesheets are downloaded.

    The browser is not modelled: visiting a page is the parameter
    `scrapePage` (`None` when it raises), the home page's metadata, the
    text and resolved `href` of its anchors and its stylesheet URLs are
    inputs, `urljoin` is `join` and the download is
    `fetch`. */
module WebsiteScraper {
  import opened Wrappers
  import opened Text
  import opened Url

  /** A visited page. The screenshot is not modelled. */
  datatype ScrapedPage = ScrapedPage(url: string, html: string, cssContents: seq<string>)

  /** The scraped site; `pages` keeps the insertion order of the dict. */
  datatype ScrapedData = ScrapedData(baseUrl: string, pages: seq<(string, ScrapedPage)>,
                                     externalCss: seq<string>, meta: map<string, string>)

  // ---- the URL ----

  predicate StartsWith(s: string, p: string) { p <= s }

  predicate HasProtocol(url: string)
  {
    StartsWith(url, "http://") || StartsWith(url, "https://")
  }

  /** `url if url.startswith(('http://', 'https://')) else f'https://{url}'` */
  function NormalizeUrl(url: string): (r: string)
    ensures HasProtocol(r)
    ensures EndsWith(r, url)
    ensures r == url <==> HasProtocol(url)
  {
    if HasProtocol(url) then url else "https://" + url
  }

  // ---- key pages ----

  /** A link as the page script reports it: text lower-cased and trimmed. */
  datatype Link = Link(text: string, href: string)

  /** The characters JavaScript's `String.prototype.trim` removes. */
  const JsWhitespace: set<char> := set c: char | IsJsSpace(c)

  /** JavaScript's white space and line terminators, by code point: tab,
      line feed, vertical tab, form feed and carriage return (9-13), space,
      no-break space, ogham space mark, the en quad to hair space block,
      line and paragraph separator, narrow no-break space, medium
      mathematical space, ideographic space and the byte order mark. Unlike
      Python's set it has no information separators and no next line. */
  predicate IsJsSpace(c: char)
  {
    var n := c as int;
    9 <= n <= 13 || n == 32 || n == 0xA0 || n == 0x1680 || 0x2000 <= n <= 0x200A
    || n == 0x2028 || n == 0x2029 || n == 0x202F || n == 0x205F || n == 0x3000 || n == 0xFEFF
  }

  /** `(a.textContent || '').toLowerCase().trim()` */
  function AnchorText(text: string): string
  {
    StripChars(Lower(text), JsWhitespace)
  }

  /** The script's `map` for one `(textContent, href)` pair. */
  function LinkOf(anchor: (string, string)): Link
  {
    Link(AnchorText(anchor.0), anchor.1)
  }

  /** The script's `filter`: both an `href` and text. */
  predicate Kept(link: Link)
  {
    link.href != "" && link.text != ""
  }

  /** `.filter(a => a.href && a.text)` */
  function Filtered(links: seq<Link>): (r: seq<Link>)
    ensures |r| <= |links|
  {
    if links == [] then []
    else
      var rest := Filtered(links[..|links| - 1]);
      var link := links[|links| - 1];
      if Kept(link) then rest + [link] else rest
  }

  /** A link survives the filter exactly when it is one of the links and
      has both an `href` and text. */
  lemma {:induction false} FilteredMembers(links: seq<Link>)
    ensures forall l :: l in Filtered(links) <==> l in links && Kept(l)
  {
    if links != [] {
      var init := links[..|links| - 1];
      FilteredMembers(init);
      assert links == init + [links[|links| - 1]];
    }
  }

  /** The filter keeps the order: filtering two runs of links gives the
      first run's survivors followed by the second's. */
  lemma {:induction false} FilteredAppend(xs: seq<Link>, ys: seq<Link>)
    ensures Filtered(xs + ys) == Filtered(xs) + Filtered(ys)
    decreases |ys|
  {
    if ys != [] {
      var init := ys[..|ys| - 1];
      assert (xs + ys)[..|xs + ys| - 1] == xs + init;
      assert (xs + ys)[|xs + ys| - 1] == ys[|ys| - 1];
      FilteredAppend(xs, init);
    } else {
      assert xs + ys == xs;
    }
  }

  /** `.map(a => ...)` over the `(textContent, href)` pairs of the page's
      `a[href]` elements. */
  function Mapped(anchors: seq<(string, string)>): seq<Link>
  {
    seq(|anchors|, k requires 0 <= k < |anchors| => LinkOf(anchors[k]))
  }

  /** The page script: `map`, then `filter`. */
  function PageLinks(anchors: seq<(string, string)>): (links: seq<Link>)
    ensures |links| <= |anchors|
    ensures forall l :: l in links ==> l.text != "" && l.href != ""
  {
    FilteredMembers(Mapped(anchors));
    Filtered(Mapped(anchors))
  }

  /** A link is reported exactly when it is the trimmed, lower-cased text
      and `href` of one of the anchors and both are non-empty. */
  lemma PageLinksMembers(anchors: seq<(string, string)>)
    ensures forall l :: l in PageLinks(anchors) <==>
      Kept(l) && exists k :: 0 <= k < |anchors| && l == LinkOf(anchors[k])
  {
    var m := Mapped(anchors);
    FilteredMembers(m);
    forall l | l in m ensures exists k :: 0 <= k < |anchors| && l == LinkOf(anchors[k]) {
      var k :| 0 <= k < |m| && m[k] == l;
      assert l == LinkOf(anchors[k]);
    }
    forall k | 0 <= k < |anchors| ensures LinkOf(anchors[k]) in m {
      assert m[k] == LinkOf(anchors[k]);
    }
  }

  /** The links keep the anchors' document order. */
  lemma PageLinksAppend(xs: seq<(string, string)>, ys: seq<(string, string)>)
    ensures PageLinks(xs + ys) == PageLinks(xs) + PageLinks(ys)
  {
    assert Mapped(xs + ys) == Mapped(xs) + Mapped(ys);
    FilteredAppend(Mapped(xs), Mapped(ys));
  }

  /** The page types and their keywords, in the dict's order. */
  const KeyPagePatterns: seq<(string, seq<string>)> := [
    ("about", ["about", "about-us", "who-we-are", "our-story", "company"]),
    ("contact", ["contact", "contact-us", "get-in-touch", "reach-us"])
  ]

  /** A link with an empty netloc or the base's netloc. */
  predicate Internal(link: Link, baseDomain: string)
  {
    var d := Netloc(link.href);
    !(d != "" && d != baseDomain)
  }

  /** The link's text or lower-cased `href` holds one of the keywords. */
  predicate NamesKeyword(link: Link, keywords: seq<string>)
  {
    exists k :: 0 <= k < |keywords| && (Contains(link.text, keywords[k]) || Contains(Lower(link.href), keywords[k]))
  }

  /** An internal link that names a keyword. */
  predicate Candidate(link: Link, baseDomain: string, keywords: seq<string>)
  {
    Internal(link, baseDomain) && NamesKeyword(link, keywords)
  }

  /** The first candidate link. */
  function FirstCandidate(links: seq<Link>, baseDomain: string, keywords: seq<string>): (r: Option<Link>)
    ensures r.Some? ==> r.value in links && Candidate(r.value, baseDomain, keywords)
  {
    if links == [] then None
    else if Candidate(links[0], baseDomain, keywords) then Some(links[0])
    else FirstCandidate(links[1..], baseDomain, keywords)
  }

  /** There is no candidate exactly when no link is one. */
  lemma {:induction false} FirstCandidateNone(links: seq<Link>, baseDomain: string, keywords: seq<string>)
    ensures FirstCandidate(links, baseDomain, keywords).None? <==>
      forall i :: 0 <= i < |links| ==> !Candidate(links[i], baseDomain, keywords)
  {
    if links != [] && !Candidate(links[0], baseDomain, keywords) {
      FirstCandidateNone(links[1..], baseDomain, keywords);
      assert forall i :: 1 <= i < |links| ==> links[1..][i - 1] == links[i];
    }
  }

  /** The candidate found is the first one. */
  lemma {:induction false} FirstCandidateFirst(links: seq<Link>, baseDomain: string, keywords: seq<string>)
    ensures FirstCandidate(links, baseDomain, keywords).Some? ==>
      exists i :: 0 <= i < |links| && links[i] == FirstCandidate(links, baseDomain, keywords).value
        && forall j :: 0 <= j < i ==> !Candidate(links[j], baseDomain, keywords)
  {
    if links != [] {
      if Candidate(links[0], baseDomain, keywords) {
        assert links[0] == FirstCandidate(links, baseDomain, keywords).value;
      } else if FirstCandidate(links, baseDomain, keywords).Some? {
        var tail := links[1..];
        var found := FirstCandidate(tail, baseDomain, keywords);
        assert FirstCandidate(links, baseDomain, keywords) == found;
        FirstCandidateFirst(tail, baseDomain, keywords);
        var i :| 0 <= i < |tail| && tail[i] == found.value
          && forall j :: 0 <= j < i ==> !Candidate(tail[j], baseDomain, keywords);
        assert forall j :: 1 <= j <= i ==> tail[j - 1] == links[j];
        assert links[i + 1] == tail[i];
      }
    }
  }

  /** `href` if it starts with `http`, else joined to the base URL. */
  function Absolute(href: string, baseUrl: string, join: (string, string) -> string): string
  {
    if StartsWith(href, "http") then href else join(baseUrl, href)
  }

  /** The page found for one pattern: its name and its first candidate,
      made absolute. */
  function PageFor(links: seq<Link>, baseUrl: string, join: (string, string) -> string,
                   pattern: (string, seq<string>)): Option<(string, string)>
  {
    match FirstCandidate(links, Netloc(baseUrl), pattern.1)
    case Some(link) => Some((pattern.0, Absolute(link.href, baseUrl, join)))
    case None => None
  }

  /** The key pages found for `patterns`, in pattern order. */
  function KeyPagesFor(links: seq<Link>, baseUrl: string, join: (string, string) -> string,
                       patterns: seq<(string, seq<string>)>): (kp: seq<(string, string)>)
    ensures |kp| <= |patterns|
  {
    if patterns == [] then []
    else
      var rest := KeyPagesFor(links, baseUrl, join, patterns[..|patterns| - 1]);
      match PageFor(links, baseUrl, join, patterns[|patterns| - 1])
      case Some(page) => rest + [page]
      case None => rest
  }

  /** `_find_key_pages`' result, in insertion order. */
  function KeyPages(links: seq<Link>, baseUrl: string, join: (string, string) -> string): seq<(string, string)>
  {
    KeyPagesFor(links, baseUrl, join, KeyPagePatterns)
  }

  /** The inner loop of `_find_key_pages`: the links are scanned until the
      first candidate. */
  method FindCandidate(links: seq<Link>, baseDomain: string, keywords: seq<string>) returns (r: Option<Link>)
    ensures r == FirstCandidate(links, baseDomain, keywords)
  {
    for i := 0 to |links|
      invariant forall j :: 0 <= j < i ==> !Candidate(links[j], baseDomain, keywords)
    {
      var link := links[i];
      var linkDomain := Netloc(link.href);
      if linkDomain != "" && linkDomain != baseDomain {
        continue;
      }
      if NamesKeyword(link, keywords) {
        FirstCandidateAt(links, baseDomain, keywords, i);
        return Some(link);
      }
    }
    FirstCandidateNone(links, baseDomain, keywords);
    return None;
  }

  /** `_find_key_pages`: for each page type in turn, the first candidate link,
      made absolute. */
  method FindKeyPages(links: seq<Link>, baseUrl: string, join: (string, string) -> string)
    returns (keyPages: seq<(string, string)>)
    ensures keyPages == KeyPages(links, baseUrl, join)
  {
    var baseDomain := Netloc(baseUrl);
    var patterns := KeyPagePatterns;
    keyPages := [];
    for t := 0 to |patterns|
      invariant keyPages == KeyPagesFor(links, baseUrl, join, patterns[..t])
    {
      assert patterns[..t + 1][..t] == patterns[..t];
      var (pageType, keywords) := patterns[t];
      var link := FindCandidate(links, baseDomain, keywords);
      if link.Some? {
        var href := link.value.href;
        if !StartsWith(href, "http") {
          href := join(baseUrl, href);
        }
        keyPages := keyPages + [(pageType, href)];
      }
    }
    assert patterns[..|patterns|] == patterns;
  }

  lemma FirstCandidateAt(links: seq<Link>, baseDomain: string, keywords: seq<string>, i: nat)
    requires i < |links| && Candidate(links[i], baseDomain, keywords)
    requires forall j :: 0 <= j < i ==> !Candidate(links[j], baseDomain, keywords)
    ensures FirstCandidate(links, baseDomain, keywords) == Some(links[i])
  {
    FirstCandidateNone(links, baseDomain, keywords);
    FirstCandidateFirst(links, baseDomain, keywords);
    var k :| 0 <= k < |links| && links[k] == FirstCandidate(links, baseDomain, keywords).value
      && forall j :: 0 <= j < k ==> !Candidate(links[j], baseDomain, keywords);
  }

  /** Each found page is the page of one of the patterns. */
  lemma {:induction false} KeyPagesForFrom(links: seq<Link>, baseUrl: string, join: (string, string) -> string,
                                           patterns: seq<(string, seq<string>)>)
    ensures forall i :: 0 <= i < |KeyPagesFor(links, baseUrl, join, patterns)| ==>
      exists t :: 0 <= t < |patterns| && PageFor(links, baseUrl, join, patterns[t]) == Some(KeyPagesFor(links, baseUrl, join, patterns)[i])
  {
    if patterns != [] {
      var init := patterns[..|patterns| - 1];
      KeyPagesForFrom(links, baseUrl, join, init);
      var rest := KeyPagesFor(links, baseUrl, join, init);
      var kp := KeyPagesFor(links, baseUrl, join, patterns);
      var last := |patterns| - 1;
      var pf := PageFor(links, baseUrl, join, patterns[last]);
      assert kp == if pf.Some? then rest + [pf.value] else rest;
      forall i | 0 <= i < |kp|
        ensures exists t :: 0 <= t < |patterns| && PageFor(links, baseUrl, join, patterns[t]) == Some(kp[i])
      {
        if i < |rest| {
          var t :| 0 <= t < |init| && PageFor(links, baseUrl, join, init[t]) == Some(rest[i]);
          assert init[t] == patterns[t] && kp[i] == rest[i];
        } else {
          assert PageFor(links, baseUrl, join, patterns[last]) == Some(kp[i]);
        }
      }
    } else {
      assert |KeyPagesFor(links, baseUrl, join, patterns)| == 0;
    }
  }

  /** No pattern with a candidate is missing: each such pattern's page is
      among the key pages, so when every pattern has one there is a page
      per pattern. */
  lemma {:induction false} KeyPagesForComplete(links: seq<Link>, baseUrl: string, join: (string, string) -> string,
                                               patterns: seq<(string, seq<string>)>)
    ensures forall t :: 0 <= t < |patterns| && PageFor(links, baseUrl, join, patterns[t]).Some? ==>
      PageFor(links, baseUrl, join, patterns[t]).value in KeyPagesFor(links, baseUrl, join, patterns)
    ensures (forall t :: 0 <= t < |patterns| ==> PageFor(links, baseUrl, join, patterns[t]).Some?) ==>
      |KeyPagesFor(links, baseUrl, join, patterns)| == |patterns|
  {
    if patterns != [] {
      var init := patterns[..|patterns| - 1];
      var last := |patterns| - 1;
      KeyPagesForComplete(links, baseUrl, join, init);
      var rest := KeyPagesFor(links, baseUrl, join, init);
      var pf := PageFor(links, baseUrl, join, patterns[last]);
      assert KeyPagesFor(links, baseUrl, join, patterns) == if pf.Some? then rest + [pf.value] else rest;
      forall t | 0 <= t < |patterns| && PageFor(links, baseUrl, join, patterns[t]).Some?
        ensures PageFor(links, baseUrl, join, patterns[t]).value in KeyPagesFor(links, baseUrl, join, patterns)
      {
        var p := PageFor(links, baseUrl, join, patterns[t]);
        if t < last {
          assert init[t] == patterns[t];
          assert p.value in rest;
        } else {
          assert t == last && p == pf;
        }
      }
      if forall t :: 0 <= t < |patterns| ==> PageFor(links, baseUrl, join, patterns[t]).Some? {
        assert forall t :: 0 <= t < |init| ==> init[t] == patterns[t];
        assert pf.Some?;
      }
    }
  }

  /** The page of a pattern is its first candidate, made absolute, and there
      is none exactly when no link is a candidate. */
  lemma PageForSpec(links: seq<Link>, baseUrl: string, join: (string, string) -> string,
                    pattern: (string, seq<string>))
    ensures PageFor(links, baseUrl, join, pattern).None? <==>
      forall i :: 0 <= i < |links| ==> !Candidate(links[i], Netloc(baseUrl), pattern.1)
    ensures PageFor(links, baseUrl, join, pattern).Some? ==>
      && PageFor(links, baseUrl, join, pattern).value.0 == pattern.0
      && (exists i :: 0 <= i < |links| && Candidate(links[i], Netloc(baseUrl), pattern.1)
            && PageFor(links, baseUrl, join, pattern).value.1 == Absolute(links[i].href, baseUrl, join)
            && forall j :: 0 <= j < i ==> !Candidate(links[j], Netloc(baseUrl), pattern.1))
  {
    FirstCandidateNone(links, Netloc(baseUrl), pattern.1);
    FirstCandidateFirst(links, Netloc(baseUrl), pattern.1);
  }

  /** The map holds at most `about` then `contact`, each from its own
      keywords. */
  lemma KeyPagesShape(links: seq<Link>, baseUrl: string, join: (string, string) -> string)
    ensures var kp := KeyPages(links, baseUrl, join);
            && |kp| <= 2
            && (forall i :: 0 <= i < |kp| ==> kp[i].0 == "about" || kp[i].0 == "contact")
            && (|kp| == 2 ==> kp[0].0 == "about" && kp[1].0 == "contact")
  {
    var ps := KeyPagePatterns;
    assert ps[..1][..0] == [] && ps[..|ps| - 1] == ps[..1];
    assert KeyPagesFor(links, baseUrl, join, ps[..0]) == [];
    var kp1 := KeyPagesFor(links, baseUrl, join, ps[..1]);
    assert |kp1| <= 1 && (|kp1| == 1 ==> kp1[0].0 == "about");
  }

  /** A link to another site is never chosen. */
  lemma ExternalNeverChosen(links: seq<Link>, baseUrl: string, keywords: seq<string>, link: Link)
    requires Netloc(link.href) != "" && Netloc(link.href) != Netloc(baseUrl)
    ensures FirstCandidate(links, Netloc(baseUrl), keywords) != Some(link)
  {
  }

  // ---- pages ----

  /** The key pages that scraped without raising, in order. */
  function ScrapedKeyPages(keyPages: seq<(string, string)>, scrapePage: string -> Option<ScrapedPage>)
    : (r: seq<(string, ScrapedPage)>)
    ensures |r| <= |keyPages|
  {
    if keyPages == [] then []
    else
      var rest := ScrapedKeyPages(keyPages[..|keyPages| - 1], scrapePage);
      var (name, url) := keyPages[|keyPages| - 1];
      match scrapePage(url)
      case Some(p) => rest + [(name, p)]
      case None => rest
  }

  /** Every kept page was scraped from its key page's URL, and a key page is
      dropped only when scraping it raised. */
  lemma {:induction false} ScrapedKeyPagesSpec(keyPages: seq<(string, string)>, scrapePage: string -> Option<ScrapedPage>)
    ensures forall i :: 0 <= i < |ScrapedKeyPages(keyPages, scrapePage)| ==>
      exists k :: 0 <= k < |keyPages| && ScrapedKeyPages(keyPages, scrapePage)[i].0 == keyPages[k].0
        && scrapePage(keyPages[k].1) == Some(ScrapedKeyPages(keyPages, scrapePage)[i].1)
    ensures forall k :: 0 <= k < |keyPages| && scrapePage(keyPages[k].1).Some? ==>
      (keyPages[k].0, scrapePage(keyPages[k].1).value) in ScrapedKeyPages(keyPages, scrapePage)
    ensures (forall k :: 0 <= k < |keyPages| ==> scrapePage(keyPages[k].1).Some?) ==>
      |ScrapedKeyPages(keyPages, scrapePage)| == |keyPages|
  {
    if keyPages != [] {
      var init := keyPages[..|keyPages| - 1];
      ScrapedKeyPagesSpec(init, scrapePage);
      var rest := ScrapedKeyPages(init, scrapePage);
      var r := ScrapedKeyPages(keyPages, scrapePage);
      var last := |keyPages| - 1;
      var sp := scrapePage(keyPages[last].1);
      assert r == if sp.Some? then rest + [(keyPages[last].0, sp.value)] else rest;
      forall i | 0 <= i < |r|
        ensures exists k :: 0 <= k < |keyPages| && r[i].0 == keyPages[k].0 && scrapePage(keyPages[k].1) == Some(r[i].1)
      {
        if i < |rest| {
          var k :| 0 <= k < |init| && rest[i].0 == init[k].0 && scrapePage(init[k].1) == Some(rest[i].1);
          assert init[k] == keyPages[k] && r[i] == rest[i];
        } else {
          assert r[i] == (keyPages[last].0, sp.value);
        }
      }
      forall k | 0 <= k < |keyPages| && scrapePage(keyPages[k].1).Some?
        ensures (keyPages[k].0, scrapePage(keyPages[k].1).value) in r
      {
        if k < last {
          assert init[k] == keyPages[k];
        } else {
          assert k == last;
        }
      }
      if forall k :: 0 <= k < |keyPages| ==> scrapePage(keyPages[k].1).Some? {
        assert forall k :: 0 <= k < |init| ==> init[k] == keyPages[k];
        assert sp.Some?;
      }
    } else {
      assert |ScrapedKeyPages(keyPages, scrapePage)| == 0;
    }
  }

  /** The loop over the key pages: a page that raises is skipped. */
  method AssemblePages(home: ScrapedPage, keyPages: seq<(string, string)>, scrapePage: string -> Option<ScrapedPage>)
    returns (pages: seq<(string, ScrapedPage)>)
    ensures pages == [("home", home)] + ScrapedKeyPages(keyPages, scrapePage)
  {
    pages := [("home", home)];
    for i := 0 to |keyPages|
      invariant pages == [("home", home)] + ScrapedKeyPages(keyPages[..i], scrapePage)
    {
      assert keyPages[..i + 1][..i] == keyPages[..i];
      var (pageName, pageUrl) := keyPages[i];
      var page := scrapePage(pageUrl);
      if page.None? {
        continue;
      }
      pages := pages + [(pageName, page.value)];
    }
    assert keyPages[..|keyPages|] == keyPages;
  }

  // ---- stylesheets ----

  const MaxCssFiles: nat := 10

  /** A download: an exception, or a response with its status and text. */
  datatype CssFetch = Raised | Response(status: int, text: string)

  /** The texts of the 200 responses, in URL order. */
  function Downloaded(urls: seq<string>, fetch: string -> CssFetch): (css: seq<string>)
    ensures |css| <= |urls|
  {
    if urls == [] then []
    else
      var rest := Downloaded(urls[..|urls| - 1], fetch);
      match fetch(urls[|urls| - 1])
      case Response(status, text) => if status == 200 then rest + [text] else rest
      case Raised => rest
  }

  /** Downloading two lists of URLs one after the other concatenates their
      texts. */
  lemma {:induction false} DownloadedAppend(us: seq<string>, vs: seq<string>, fetch: string -> CssFetch)
    ensures Downloaded(us + vs, fetch) == Downloaded(us, fetch) + Downloaded(vs, fetch)
    decreases |vs|
  {
    if vs == [] {
      assert us + vs == us;
    } else {
      var init := vs[..|vs| - 1];
      assert (us + vs)[..|us + vs| - 1] == us + init;
      assert (us + vs)[|us + vs| - 1] == vs[|vs| - 1];
      DownloadedAppend(us, init, fetch);
    }
  }

  /** Each kept text is the body of a 200 response to one of the URLs. */
  lemma {:induction false} DownloadedFrom(urls: seq<string>, fetch: string -> CssFetch)
    ensures forall i :: 0 <= i < |Downloaded(urls, fetch)| ==>
      exists k :: 0 <= k < |urls| && fetch(urls[k]) == Response(200, Downloaded(urls, fetch)[i])
  {
    if urls != [] {
      var init := urls[..|urls| - 1];
      DownloadedFrom(init, fetch);
      var rest := Downloaded(init, fetch);
      var css := Downloaded(urls, fetch);
      var last := |urls| - 1;
      var f := fetch(urls[last]);
      assert css == if f.Response? && f.status == 200 then rest + [f.text] else rest;
      forall i | 0 <= i < |css|
        ensures exists k :: 0 <= k < |urls| && fetch(urls[k]) == Response(200, css[i])
      {
        if i < |rest| {
          var k :| 0 <= k < |init| && fetch(init[k]) == Response(200, rest[i]);
          assert init[k] == urls[k] && css[i] == rest[i];
        } else {
          assert fetch(urls[last]) == Response(200, css[i]);
        }
      }
    } else {
      assert |Downloaded(urls, fetch)| == 0;
    }
  }

  /** `_download_css`: the first ten URLs, in order. */
  method DownloadCss(urls: seq<string>, fetch: string -> CssFetch) returns (css: seq<string>)
    ensures css == Downloaded(if |urls| <= MaxCssFiles then urls else urls[..MaxCssFiles], fetch)
    ensures |css| <= MaxCssFiles
  {
    var head := if |urls| <= MaxCssFiles then urls else urls[..MaxCssFiles];
    css := [];
    for i := 0 to |head|
      invariant css == Downloaded(head[..i], fetch)
    {
      assert head[..i + 1][..i] == head[..i];
      var resp := fetch(head[i]);
      if resp.Raised? {
        continue;
      }
      if resp.status == 200 {
        css := css + [resp.text];
      }
    }
    assert head[..|head|] == head;
  }

  // ---- scrape ----

  /** `scrape`: the home page must scrape; key pages and stylesheets that
      fail are skipped. */
  method Scrape(url: string, scrapePage: string -> Option<ScrapedPage>, meta: map<string, string>,
                anchors: seq<(string, string)>, join: (string, string) -> string, cssUrls: seq<string>,
                fetch: string -> CssFetch)
    returns (r: Option<ScrapedData>)
    ensures var u := NormalizeUrl(url);
            match scrapePage(u)
            case None => r.None?
            case Some(home) =>
              r == Some(ScrapedData(u, [("home", home)] + ScrapedKeyPages(KeyPages(PageLinks(anchors), u, join), scrapePage),
                                    Downloaded(if |cssUrls| <= MaxCssFiles then cssUrls else cssUrls[..MaxCssFiles], fetch),
                                    meta))
    ensures r.Some? ==> |r.value.pages| >= 1 && r.value.pages[0].0 == "home" && |r.value.pages| <= 1 + |KeyPagePatterns|
  {
    var u := NormalizeUrl(url);
    var home := scrapePage(u);
    if home.None? {
      return None;
    }
    var links := PageLinks(anchors);
    var keyPages := FindKeyPages(links, u, join);
    var pages := AssemblePages(home.value, keyPages, scrapePage);
    var externalCss := DownloadCss(cssUrls, fetch);
    return Some(ScrapedData(u, pages, externalCss, meta));
  }
}
