/** Typography selection: web-font families named in Google Fonts URLs,
    the first entry of every `font-family` stack, and the rule that picks
    the primary and secondary fonts from them.

    The regular-expression scans are not modelled: the extractor receives the
    captured groups, in document order. */
module TypographyExtractor {
  import opened Wrappers
  import opened Text
  import opened BrandData

  // ---- deduplication through a set ----

  predicate NoDup(xs: seq<string>)
  {
    forall i, j :: 0 <= i < j < |xs| ==> xs[i] != xs[j]
  }

  /** `list(set(xs))`: the distinct elements of `xs`. A set has no order the
      program relies on, so nothing is promised about the order. */
  method Dedup(xs: seq<string>) returns (ys: seq<string>)
    ensures NoDup(ys)
    ensures forall x :: x in ys <==> x in xs
  {
    ys := [];
    for i := 0 to |xs|
      invariant NoDup(ys)
      invariant forall x :: x in ys <==> x in xs[..i]
    {
      assert xs[..i + 1] == xs[..i] + [xs[i]];
      if xs[i] !in ys {
        ys := ys + [xs[i]];
      }
    }
    assert xs[..|xs|] == xs;
  }

  // ---- web fonts ----

  /** The URL escapes the extractor undoes: `%20` and `+` both become a space. */
  function Decode(param: string): string
  {
    Replace(Replace(param, "%20", " "), "+", " ")
  }

  /** The weight suffix `:400,700` or `:wght@400;700` is cut off, and the
      rest is stripped. */
  function CleanName(part: string): string
  {
    Strip(CutAt(part, {':', '@'}))
  }

  /** The names `name` gives the items of `xs`, in order, keeping those
      `keep` accepts. */
  function KeepNames(xs: seq<string>, name: string -> string, keep: string -> bool): seq<string>
  {
    if xs == [] then []
    else
      var w := name(xs[|xs| - 1]);
      KeepNames(xs[..|xs| - 1], name, keep) + (if keep(w) then [w] else [])
  }

  /** A name is kept exactly when `keep` accepts it and it is the name of
      some item, in either direction. */
  lemma {:induction false} KeepNamesSpec(xs: seq<string>, name: string -> string, keep: string -> bool, x: string)
    ensures x in KeepNames(xs, name, keep) <==> keep(x) && exists i :: 0 <= i < |xs| && name(xs[i]) == x
  {
    if xs != [] {
      var init := xs[..|xs| - 1];
      KeepNamesSpec(init, name, keep, x);
      assert forall i :: 0 <= i < |init| ==> init[i] == xs[i];
      if keep(x) && name(xs[|xs| - 1]) != x {
        if exists i :: 0 <= i < |xs| && name(xs[i]) == x {
          var i :| 0 <= i < |xs| && name(xs[i]) == x;
          assert i < |init| && name(init[i]) == x;
        }
      }
    }
  }

  lemma KeepNamesSnoc(xs: seq<string>, i: nat, name: string -> string, keep: string -> bool)
    requires i < |xs|
    ensures KeepNames(xs[..i + 1], name, keep) ==
      KeepNames(xs[..i], name, keep) + (if keep(name(xs[i])) then [name(xs[i])] else [])
  {
    assert xs[..i + 1][..i] == xs[..i] && xs[..i + 1][i] == xs[i];
  }

  /** Each kept name is accepted and is the name of some item. */
  lemma KeepNamesFrom(xs: seq<string>, name: string -> string, keep: string -> bool)
    ensures forall k :: 0 <= k < |KeepNames(xs, name, keep)| ==>
      keep(KeepNames(xs, name, keep)[k]) && exists i :: 0 <= i < |xs| && name(xs[i]) == KeepNames(xs, name, keep)[k]
  {
    forall k | 0 <= k < |KeepNames(xs, name, keep)|
      ensures keep(KeepNames(xs, name, keep)[k]) && exists i :: 0 <= i < |xs| && name(xs[i]) == KeepNames(xs, name, keep)[k]
    {
      var ks := KeepNames(xs, name, keep);
      assert ks[k] in ks;
      KeepNamesSpec(xs, name, keep, ks[k]);
    }
  }

  predicate NonEmpty(w: string)
  {
    w != ""
  }

  /** The non-empty cleaned names of `parts`, in order. */
  function Kept(parts: seq<string>): seq<string>
  {
    KeepNames(parts, CleanName, NonEmpty)
  }

  /** The family names one captured `family=` value holds, split on `sep`. */
  function ParamNames(param: string, sep: string): seq<string>
    requires |sep| > 0
  {
    Kept(Split(Decode(param), sep))
  }

  /** The names of every captured value, in match order. */
  function AllNames(params: seq<string>, sep: string): seq<string>
    requires |sep| > 0
  {
    if params == [] then []
    else AllNames(params[..|params| - 1], sep) + ParamNames(params[|params| - 1], sep)
  }

  /** The separator between families in the first URL form. */
  const FamilySeparator: string := "|"

  /** The separator between families in the `css2` URL form. */
  const Css2Separator: string := "&family="

  /** `_extract_google_fonts` before the set: the names from the first URL
      form, then those from the `css2` form. */
  function GoogleNames(v1Params: seq<string>, v2Params: seq<string>): seq<string>
  {
    AllNames(v1Params, FamilySeparator) + AllNames(v2Params, Css2Separator)
  }

  /** Every web-font name: non-empty, stripped, free of `+`, `:` and `@`;
      names from the first URL form hold no `|` either. */
  predicate CleanFontName(w: string)
  {
    && w != ""
    && w[0] !in Whitespace && w[|w| - 1] !in Whitespace
    && Avoids(w, {'+', ':', '@'})
  }

  lemma CleanNameShape(part: string, cs: set<char>)
    requires Avoids(part, cs + {'+'})
    ensures CleanName(part) != "" ==> CleanFontName(CleanName(part)) && Avoids(CleanName(part), cs)
  {
    CutAtAvoids(part, {':', '@'}, cs + {'+'});
    StripCharsAvoids(CutAt(part, {':', '@'}), Whitespace, cs + {'+'} + {':', '@'});
  }

  lemma KeptShape(parts: seq<string>, cs: set<char>)
    requires forall i :: 0 <= i < |parts| ==> Avoids(parts[i], cs + {'+'})
    ensures forall k :: 0 <= k < |Kept(parts)| ==> CleanFontName(Kept(parts)[k]) && Avoids(Kept(parts)[k], cs)
  {
    KeepNamesFrom(parts, CleanName, NonEmpty);
    forall k | 0 <= k < |Kept(parts)| ensures CleanFontName(Kept(parts)[k]) && Avoids(Kept(parts)[k], cs) {
      var i :| 0 <= i < |parts| && CleanName(parts[i]) == Kept(parts)[k];
      CleanNameShape(parts[i], cs);
    }
  }

  /** Decoding leaves no `+` behind. */
  lemma DecodedHasNoPlus(param: string)
    ensures Avoids(Decode(param), {'+'})
  {
    ReplaceCharRemoves(Replace(param, "%20", " "), '+', ' ');
  }

  /** The names one value of the first form yields are clean and hold no `|`. */
  lemma ParamNamesShape(param: string)
    ensures forall i :: 0 <= i < |ParamNames(param, FamilySeparator)| ==>
      CleanFontName(ParamNames(param, FamilySeparator)[i]) && Avoids(ParamNames(param, FamilySeparator)[i], {'|'})
  {
    DecodedHasNoPlus(param);
    SplitAvoids(Decode(param), '|', {'+'});
    assert {'+'} + {'|'} == {'|'} + {'+'};
    KeptShape(Split(Decode(param), "|"), {'|'});
  }

  /** `css2` values are cut by the capture at the first `&`, so splitting them
      on `&family=` never separates anything: each yields at most one name,
      and it is clean. */
  lemma Css2ParamNames(param: string)
    requires Avoids(param, {'&'})
    ensures |ParamNames(param, Css2Separator)| <= 1
    ensures forall i :: 0 <= i < |ParamNames(param, Css2Separator)| ==>
      CleanFontName(ParamNames(param, Css2Separator)[i])
  {
    var once := Replace(param, "%20", " ");
    ReplaceAvoids(param, "%20", " ", {'&'});
    ReplaceAvoids(once, "+", " ", {'&'});
    SplitAbsent(Decode(param), Css2Separator);
    var parts := Split(Decode(param), Css2Separator);
    assert parts == [Decode(param)];
    DecodedHasNoPlus(param);
    assert Kept(parts) == KeepNames([], CleanName, NonEmpty) + (if CleanName(parts[0]) != "" then [CleanName(parts[0])] else []);
    KeptShape(parts, {});
  }

  /** A name from the first URL form: clean and free of `|`. */
  predicate V1Name(w: string)
  {
    CleanFontName(w) && Avoids(w, {'|'})
  }

  lemma AllOfAppend(a: seq<string>, b: seq<string>, p: string -> bool)
    requires forall i :: 0 <= i < |a| ==> p(a[i])
    requires forall i :: 0 <= i < |b| ==> p(b[i])
    ensures forall i :: 0 <= i < |a + b| ==> p((a + b)[i])
  {
    assert forall i :: |a| <= i < |a + b| ==> (a + b)[i] == b[i - |a|];
  }

  lemma {:induction false} AllNamesShape(params: seq<string>)
    ensures forall i :: 0 <= i < |AllNames(params, FamilySeparator)| ==> V1Name(AllNames(params, FamilySeparator)[i])
  {
    if params != [] {
      var init := params[..|params| - 1];
      AllNamesShape(init);
      ParamNamesShape(params[|params| - 1]);
      AllOfAppend(AllNames(init, FamilySeparator), ParamNames(params[|params| - 1], FamilySeparator), V1Name);
    }
  }

  /** The `css2` values give at most one name each, all clean. */
  lemma {:induction false} Css2NamesShape(params: seq<string>)
    requires forall i :: 0 <= i < |params| ==> Avoids(params[i], {'&'})
    ensures |AllNames(params, Css2Separator)| <= |params|
    ensures forall i :: 0 <= i < |AllNames(params, Css2Separator)| ==> CleanFontName(AllNames(params, Css2Separator)[i])
  {
    if params != [] {
      var init := params[..|params| - 1];
      assert forall i :: 0 <= i < |init| ==> init[i] == params[i];
      Css2NamesShape(init);
      Css2ParamNames(params[|params| - 1]);
      AllOfAppend(AllNames(init, Css2Separator), ParamNames(params[|params| - 1], Css2Separator), CleanFontName);
    }
  }

  /** Every web-font name is clean, given that the `css2` captures stop
      before any `&`. */
  lemma GoogleNamesShape(v1Params: seq<string>, v2Params: seq<string>)
    requires forall i :: 0 <= i < |v2Params| ==> Avoids(v2Params[i], {'&'})
    ensures forall i :: 0 <= i < |GoogleNames(v1Params, v2Params)| ==> CleanFontName(GoogleNames(v1Params, v2Params)[i])
  {
    AllNamesShape(v1Params);
    Css2NamesShape(v2Params);
    AllOfAppend(AllNames(v1Params, FamilySeparator), AllNames(v2Params, Css2Separator), CleanFontName);
  }

  /** Of the parts a `family=` value splits into, a name is kept exactly
      when it is the non-empty cleaned form of one of them. */
  lemma KeptSpec(parts: seq<string>, x: string)
    ensures x in Kept(parts) <==> x != "" && exists i :: 0 <= i < |parts| && CleanName(parts[i]) == x
  {
    var name := CleanName;
    KeepNamesSpec(parts, name, NonEmpty, x);
    if x in Kept(parts) {
      var i :| 0 <= i < |parts| && name(parts[i]) == x;
      assert CleanName(parts[i]) == x;
    }
    if x != "" && exists i :: 0 <= i < |parts| && CleanName(parts[i]) == x {
      var i :| 0 <= i < |parts| && CleanName(parts[i]) == x;
      assert name(parts[i]) == x;
    }
  }

  /** `_extract_google_fonts`: every captured value is decoded and split into
      names in match order; the result is the set of those names. */
  method ExtractGoogleFonts(v1Params: seq<string>, v2Params: seq<string>) returns (fonts: seq<string>)
    ensures NoDup(fonts)
    ensures forall x :: x in fonts <==> x in GoogleNames(v1Params, v2Params)
  {
    var first := CollectAll(v1Params, FamilySeparator);
    var second := CollectAll(v2Params, Css2Separator);
    fonts := Dedup(first + second);
  }

  /** The outer loop over the captured values of one URL form. */
  method CollectAll(params: seq<string>, sep: string) returns (found: seq<string>)
    requires |sep| > 0
    ensures found == AllNames(params, sep)
  {
    found := [];
    for i := 0 to |params|
      invariant found == AllNames(params[..i], sep)
    {
      var names := CollectNames(Split(Decode(params[i]), sep));
      AllNamesSnoc(params, i, sep);
      found := found + names;
    }
    assert params[..|params|] == params;
  }

  lemma AllNamesSnoc(params: seq<string>, i: nat, sep: string)
    requires i < |params| && |sep| > 0
    ensures AllNames(params[..i + 1], sep) == AllNames(params[..i], sep) + Kept(Split(Decode(params[i]), sep))
  {
    assert params[..i + 1][..i] == params[..i];
  }

  /** The inner loop: each part's cleaned name is appended when non-empty. */
  method CollectNames(parts: seq<string>) returns (names: seq<string>)
    ensures names == Kept(parts)
  {
    names := [];
    for j := 0 to |parts|
      invariant names == Kept(parts[..j])
    {
      var clean := CleanName(parts[j]);
      KeepNamesSnoc(parts, j, CleanName, NonEmpty);
      if clean != "" {
        names := names + [clean];
      }
    }
    assert parts[..|parts|] == parts;
  }

  // ---- font-family declarations ----

  /** The keywords that name a generic family rather than a typeface. */
  const GenericFonts: set<string> := {
    "serif", "sans-serif", "monospace", "cursive", "fantasy",
    "system-ui", "ui-serif", "ui-sans-serif", "ui-monospace",
    "inherit", "initial", "unset", "revert" }

  /** `_is_generic_font`: case-insensitive membership. */
  predicate IsGeneric(name: string)
  {
    Lower(name) in GenericFonts
  }

  const Quotes: set<char> := {'"', '\''}

  /** The first entry of a stack: up to the first comma, stripped of
      whitespace, then of quotes. */
  function FirstFamily(decl: string): string
  {
    StripChars(Strip(CutAt(Strip(decl), {','})), Quotes)
  }

  /** A first entry is listed when it is non-empty and not generic. */
  predicate IsTypeface(f: string)
  {
    f != "" && !IsGeneric(f)
  }

  /** `_extract_font_families` before the set. */
  function Families(decls: seq<string>): seq<string>
  {
    KeepNames(decls, FirstFamily, IsTypeface)
  }

  /** A family is listed exactly when it is the first, non-generic entry of
      some declaration, in either direction. */
  lemma FamiliesSpec(decls: seq<string>, x: string)
    ensures x in Families(decls) <==>
      x != "" && !IsGeneric(x) && exists i :: 0 <= i < |decls| && FirstFamily(decls[i]) == x
  {
    KeepNamesSpec(decls, FirstFamily, IsTypeface, x);
  }

  /** A listed family holds no comma and neither starts nor ends with a quote. */
  lemma FirstFamilyShape(decl: string)
    ensures Avoids(FirstFamily(decl), {','})
    ensures FirstFamily(decl) == [] || (FirstFamily(decl)[0] !in Quotes && FirstFamily(decl)[|FirstFamily(decl)| - 1] !in Quotes)
  {
    var cut := CutAt(Strip(decl), {','});
    CutAtAvoids(Strip(decl), {','}, {});
    StripCharsAvoids(cut, Whitespace, {','});
    StripCharsAvoids(Strip(cut), Quotes, {','});
  }

  /** Generic keywords are recognised whatever their case. */
  lemma GenericIgnoresCase()
    ensures IsGeneric("Sans-Serif") && IsGeneric("MONOSPACE") && !IsGeneric("Inter")
  {
    assert Lower("Sans-Serif") == "sans-serif";
    assert Lower("MONOSPACE") == "monospace";
    assert Lower("Inter") == "inter";
  }

  /** `_extract_font_families`: the set of first non-generic entries. */
  method ExtractFontFamilies(decls: seq<string>) returns (families: seq<string>)
    ensures NoDup(families)
    ensures forall x :: x in families <==> x in Families(decls)
  {
    var found: seq<string> := [];
    for i := 0 to |decls|
      invariant found == Families(decls[..i])
    {
      var first := FirstFamily(decls[i]);
      KeepNamesSnoc(decls, i, FirstFamily, IsTypeface);
      if IsTypeface(first) {
        found := found + [first];
      }
    }
    assert decls[..|decls|] == decls;
    families := Dedup(found);
  }

  // ---- the typography record ----

  /** The Google Fonts specimen page: spaces in the name become `+`. */
  function SpecimenUrl(name: string): string
  {
    "https://fonts.google.com/specimen/" + Replace(name, " ", "+")
  }

  lemma SpecimenUrlHasNoSpace(name: string)
    ensures ' ' !in Replace(name, " ", "+")
  {
    ReplaceCharRemoves(name, ' ', '+');
  }

  function GoogleFont(name: string): FontSpec
  {
    FontSpec(name, name, None, None, Some("google"), Some(SpecimenUrl(name)))
  }

  function CustomFont(name: string): FontSpec
  {
    FontSpec(name, name, None, None, Some("custom"), None)
  }

  /** The fallback when no font was found. */
  const InterFont: FontSpec :=
    FontSpec("Inter", "Inter", None, None, Some("google"), Some("https://fonts.google.com/specimen/Inter"))

  lemma InterIsGoogleFont()
    ensures InterFont == GoogleFont("Inter")
  {
    assert Avoids("Inter", {' '});
    ReplaceAbsent("Inter", " ", "+");
    assert SpecimenUrl("Inter") == "https://fonts.google.com/specimen/" + "Inter";
    assert "https://fonts.google.com/specimen/" + "Inter" == "https://fonts.google.com/specimen/Inter";
  }

  /** A secondary candidate is a web font when it is one of the web-font
      names, a custom font otherwise. */
  function FontFor(name: string, google: seq<string>): FontSpec
  {
    if name in google then GoogleFont(name) else CustomFont(name)
  }

  function PrimaryOf(google: seq<string>, families: seq<string>): FontSpec
  {
    if google != [] then GoogleFont(google[0])
    else if families != [] then CustomFont(families[0])
    else InterFont
  }

  /** The first name at position `from` or later that differs from `name`. */
  function FirstOther(xs: seq<string>, name: string, from: nat): (r: Option<nat>)
    ensures r.Some? ==> from <= r.value < |xs|
    decreases |xs| - from
  {
    if from >= |xs| then None
    else if xs[from] != name then Some(from)
    else FirstOther(xs, name, from + 1)
  }

  lemma {:induction false} FirstOtherSpec(xs: seq<string>, name: string, from: nat)
    ensures FirstOther(xs, name, from).None? <==> forall k :: from <= k < |xs| ==> xs[k] == name
    ensures FirstOther(xs, name, from).Some? ==>
      var k := FirstOther(xs, name, from).value;
      from <= k < |xs| && xs[k] != name && forall j :: from <= j < k ==> xs[j] == name
    decreases |xs| - from
  {
    if from < |xs| && xs[from] == name {
      FirstOtherSpec(xs, name, from + 1);
    }
  }

  function SecondaryOf(google: seq<string>, families: seq<string>, primaryName: string): Option<FontSpec>
  {
    var all := google + families;
    if |all| <= 1 then None
    else
      match FirstOther(all, primaryName, 1)
      case None => None
      case Some(k) => Some(FontFor(all[k], google))
  }

  /** `_build_typography` */
  function TypographyOf(google: seq<string>, families: seq<string>): Typography
  {
    var primary := PrimaryOf(google, families);
    Typography(primary, SecondaryOf(google, families, primary.name), DefaultSystemFallback)
  }

  /** `_build_typography`: the primary font by priority, then a search with
      `break` for the secondary. */
  method BuildTypography(google: seq<string>, families: seq<string>) returns (t: Typography)
    ensures t == TypographyOf(google, families)
  {
    var primary: FontSpec;
    if google != [] {
      primary := GoogleFont(google[0]);
    } else if families != [] {
      primary := CustomFont(families[0]);
    } else {
      primary := InterFont;
    }
    var secondary: Option<FontSpec> := None;
    var all := google + families;
    if |all| > 1 {
      var k := 1;
      while k < |all|
        invariant 1 <= k <= |all|
        invariant FirstOther(all, primary.name, 1) == FirstOther(all, primary.name, k)
        invariant secondary == None
      {
        if all[k] != primary.name {
          secondary := Some(FontFor(all[k], google));
          break;
        }
        k := k + 1;
      }
    }
    t := Typography(primary, secondary, DefaultSystemFallback);
  }

  /** The primary font: the first web font, else the first custom family,
      else Inter from Google. */
  lemma PrimaryRule(google: seq<string>, families: seq<string>)
    ensures var p := TypographyOf(google, families).primary;
      && p.name == p.family
      && (p.source == Some("google") <==> google != [] || families == [])
      && (p.source == Some("custom") <==> google == [] && families != [])
      && (google != [] ==> p.name == google[0] && p.downloadUrl == Some(SpecimenUrl(google[0])))
      && (google == [] && families != [] ==> p.name == families[0] && p.downloadUrl == None)
      && (google == [] && families == [] ==> p.name == "Inter" && p.downloadUrl == Some(SpecimenUrl("Inter")))
  {
    InterIsGoogleFont();
  }

  /** The secondary font is the first name after position 0 of web fonts then
      families that differs from the primary's; there is none exactly when
      every later name equals the primary's. It comes from Google, with a
      specimen link, exactly when its name is a web-font name. */
  lemma SecondaryRule(google: seq<string>, families: seq<string>)
    ensures var t := TypographyOf(google, families); var all := google + families;
      && (t.secondary.None? <==> forall k :: 1 <= k < |all| ==> all[k] == t.primary.name)
      && (t.secondary.Some? ==>
           && t.secondary.value.name != t.primary.name
           && (exists k :: 1 <= k < |all| && all[k] == t.secondary.value.name
                && forall j :: 1 <= j < k ==> all[j] == t.primary.name)
           && (t.secondary.value.source == Some("google") <==> t.secondary.value.name in google)
           && (t.secondary.value.downloadUrl.Some? <==> t.secondary.value.name in google)
           && (t.secondary.value.name in google ==>
                 t.secondary.value.downloadUrl == Some(SpecimenUrl(t.secondary.value.name))))
    ensures TypographyOf(google, families).systemFallback == "Arial, Helvetica, sans-serif"
  {
    var all := google + families;
    var p := PrimaryOf(google, families);
    FirstOtherSpec(all, p.name, 1);
  }

  /** Whatever order the two sets come in, the selection picks the primary
      from the web fonts when there are any, otherwise from the families,
      otherwise Inter; there is no secondary exactly when every found name
      is the primary's, and any secondary is another found font, from
      Google with a specimen link exactly when it is a web-font name. */
  lemma SelectionFromSets(google: seq<string>, families: seq<string>, g: seq<string>, f: seq<string>)
    requires forall x :: x in google <==> x in g
    requires forall x :: x in families <==> x in f
    ensures var t := TypographyOf(google, families);
      && t.systemFallback == DefaultSystemFallback
      && t.primary.name == t.primary.family
      && (g != [] ==> t.primary.source == Some("google") && t.primary.name in g
                      && t.primary.downloadUrl == Some(SpecimenUrl(t.primary.name)))
      && (g == [] && f != [] ==> t.primary.source == Some("custom") && t.primary.name in f
                                 && t.primary.downloadUrl == None)
      && (g == [] && f == [] ==> t.primary == InterFont)
    ensures var t := TypographyOf(google, families);
      t.secondary.None? <==> forall x :: x in g || x in f ==> x == t.primary.name
    ensures var t := TypographyOf(google, families);
      t.secondary.Some? ==>
        && t.secondary.value.name != t.primary.name
        && (t.secondary.value.name in g || t.secondary.value.name in f)
        && (t.secondary.value.source == Some("google") <==> t.secondary.value.name in g)
        && (t.secondary.value.downloadUrl.Some? <==> t.secondary.value.name in g)
        && (t.secondary.value.name in g ==>
              t.secondary.value.downloadUrl == Some(SpecimenUrl(t.secondary.value.name)))
  {
    if google != [] {
      assert google[0] in g;
    }
    if families != [] {
      assert families[0] in f;
    }
    if g != [] {
      assert g[0] in google;
    }
    if f != [] {
      assert f[0] in families;
    }
    PrimaryRule(google, families);
    SecondaryRule(google, families);
    var t := TypographyOf(google, families);
    var all := google + families;
    if t.secondary.Some? {
      var k :| 1 <= k < |all| && all[k] == t.secondary.value.name;
      if k >= |google| {
        assert all[k] == families[k - |google|];
      }
    }
    forall x | x in all ensures x in g || x in f {
      var k :| 0 <= k < |all| && all[k] == x;
      if k >= |google| {
        assert all[k] == families[k - |google|];
      }
    }
    if forall k :: 1 <= k < |all| ==> all[k] == t.primary.name {
      assert all != [] ==> all[0] == t.primary.name;
      forall x | x in g || x in f ensures x == t.primary.name {
        assert x in all;
        var k :| 0 <= k < |all| && all[k] == x;
      }
    }
  }

  /** `extract`: web fonts and families, each through a set, then the
      selection rule. */
  method Extract(v1Params: seq<string>, v2Params: seq<string>, decls: seq<string>) returns (t: Typography)
    ensures t.systemFallback == DefaultSystemFallback
    ensures GoogleNames(v1Params, v2Params) != [] ==>
      t.primary.source == Some("google") && t.primary.name in GoogleNames(v1Params, v2Params)
    ensures GoogleNames(v1Params, v2Params) == [] && Families(decls) != [] ==>
      t.primary.source == Some("custom") && t.primary.name in Families(decls)
    ensures GoogleNames(v1Params, v2Params) == [] && Families(decls) == [] ==> t.primary == InterFont
    ensures t.primary.name == t.primary.family
    ensures GoogleNames(v1Params, v2Params) != [] ==> t.primary.downloadUrl == Some(SpecimenUrl(t.primary.name))
    ensures GoogleNames(v1Params, v2Params) == [] && Families(decls) != [] ==> t.primary.downloadUrl == None
    ensures t.secondary.None? <==>
      forall x :: x in GoogleNames(v1Params, v2Params) || x in Families(decls) ==> x == t.primary.name
    ensures t.secondary.Some? ==>
      && t.secondary.value.name != t.primary.name
      && (t.secondary.value.name in GoogleNames(v1Params, v2Params) || t.secondary.value.name in Families(decls))
      && (t.secondary.value.source == Some("google") <==> t.secondary.value.name in GoogleNames(v1Params, v2Params))
      && (t.secondary.value.downloadUrl.Some? <==> t.secondary.value.name in GoogleNames(v1Params, v2Params))
      && (t.secondary.value.name in GoogleNames(v1Params, v2Params) ==>
            t.secondary.value.downloadUrl == Some(SpecimenUrl(t.secondary.value.name)))
  {
    var google := ExtractGoogleFonts(v1Params, v2Params);
    var families := ExtractFontFamilies(decls);
    t := BuildTypography(google, families);
    SelectionFromSets(google, families, GoogleNames(v1Params, v2Params), Families(decls));
  }
}
