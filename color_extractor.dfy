/** Palette extraction: colour literals found in stylesheets are made
    canonical, near-white and near-black colours are dropped, the rest are
    counted, similar colours are merged greedily, the ten most frequent are
    kept and the palette is filled from them in rank order. */
module ColorExtractor {
  import opened Wrappers
  import opened Text
  import opened ColorUtils
  import opened BrandData

  // ---- literals found in stylesheets ----

  /** The text of a `#([0-9A-Fa-f]{6}|[0-9A-Fa-f]{3})` match. */
  predicate IsHexLiteral(m: string)
  {
    (|m| == 4 || |m| == 7) && m[0] == '#' && forall k :: 1 <= k < |m| ==> IsHexDigit(m[k])
  }

  /** A hex literal as the extractor records it: `#abc` doubles each digit,
      and the whole literal is upper-cased. */
  function CanonicalLiteral(m: string): (r: string)
    ensures |r| == (if |m| == 4 then 7 else |m|)
  {
    Upper(if |m| == 4 then "#" + [m[1], m[1], m[2], m[2], m[3], m[3]] else m)
  }

  /** Every literal becomes a canonical `#RRGGBB`; a six-digit one keeps its
      colour and `#abc` denotes `#aabbcc`. */
  lemma CanonicalLiteralSpec(m: string)
    requires IsHexLiteral(m)
    ensures IsCanonicalHex(CanonicalLiteral(m))
    ensures |m| == 7 ==> HexToRgb(CanonicalLiteral(m)) == HexToRgb(m)
    ensures |m| == 4 ==>
      HexToRgb(CanonicalLiteral(m)) == Ok(Rgb(17 * HexValue(m[1]), 17 * HexValue(m[2]), 17 * HexValue(m[3])))
  {
    var r := CanonicalLiteral(m);
    if |m| == 4 {
      var s := "#" + [m[1], m[1], m[2], m[2], m[3], m[3]];
      assert r == Upper(s);
      assert r[1] == UpperChar(m[1]) && r[2] == UpperChar(m[1]);
      assert r[3] == UpperChar(m[2]) && r[4] == UpperChar(m[2]);
      assert r[5] == UpperChar(m[3]) && r[6] == UpperChar(m[3]);
      assert r[0] == '#';
      DoubledDigitsParse(r, HexValue(m[1]), HexValue(m[2]), HexValue(m[3]));
    } else {
      assert forall k :: 1 <= k < 7 ==> r[k] == UpperChar(m[k]);
      assert r[0] == '#';
      SixDigitHexAgree(m, r);
    }
  }

  /** `#aabbcc` reads as 17 times each digit. */
  lemma DoubledDigitsParse(r: string, a: nat, b: nat, c: nat)
    requires |r| >= 7 && r[0] == '#' && forall k :: 1 <= k < 7 ==> IsHexDigit(r[k])
    requires HexValue(r[1]) == a && HexValue(r[2]) == a
    requires HexValue(r[3]) == b && HexValue(r[4]) == b
    requires HexValue(r[5]) == c && HexValue(r[6]) == c
    ensures a < 16 && b < 16 && c < 16
    ensures HexToRgb(r) == Ok(Rgb(17 * a, 17 * b, 17 * c))
  {
    assert a < 16 && b < 16 && c < 16;
    PairsParse(r, Rgb(17 * a, 17 * b, 17 * c));
  }

  /** The three numbers of an `rgba?\s*\(\s*(\d+)\s*,\s*(\d+)\s*,\s*(\d+)` match. */
  datatype RgbMatch = RgbMatch(r: nat, g: nat, b: nat)

  /** `[f(x) for x in xs]` */
  function MapText<T>(xs: seq<T>, f: T -> string): (r: seq<string>)
    ensures |r| == |xs| && forall k :: 0 <= k < |xs| ==> r[k] == f(xs[k])
  {
    seq(|xs|, k requires 0 <= k < |xs| => f(xs[k]))
  }

  lemma MapTextSnoc<T>(xs: seq<T>, f: T -> string, n: nat)
    requires n < |xs|
    ensures MapText(xs[..n + 1], f) == MapText(xs[..n], f) + [f(xs[n])]
  {
    assert xs[..n + 1][..n] == xs[..n];
  }

  /** The hex `_extract_from_css` records for an `rgb()` match. */
  function MatchHex(m: RgbMatch): string
  {
    RgbToHex(m.r, m.g, m.b)
  }

  /** The colours `_extract_from_css` records: the hex matches, then the
      `rgb()` matches, then the colours converted from `hsl()` matches, each
      list in match order. */
  function CssColors(hexMatches: seq<string>, rgbMatches: seq<RgbMatch>, hslColors: seq<string>): (colors: seq<string>)
  {
    MapText(hexMatches, CanonicalLiteral) + MapText(rgbMatches, MatchHex) + hslColors
  }

  /** `_extract_from_css`, one match at a time. */
  method ExtractFromCss(hexMatches: seq<string>, rgbMatches: seq<RgbMatch>, hslColors: seq<string>)
    returns (colors: seq<string>)
    ensures colors == CssColors(hexMatches, rgbMatches, hslColors)
  {
    colors := [];
    for i := 0 to |hexMatches|
      invariant colors == MapText(hexMatches[..i], CanonicalLiteral)
    {
      MapTextSnoc(hexMatches, CanonicalLiteral, i);
      colors := colors + [CanonicalLiteral(hexMatches[i])];
    }
    assert hexMatches[..|hexMatches|] == hexMatches;
    for i := 0 to |rgbMatches|
      invariant colors == MapText(hexMatches, CanonicalLiteral) + MapText(rgbMatches[..i], MatchHex)
    {
      var m := rgbMatches[i];
      MapTextSnoc(rgbMatches, MatchHex, i);
      colors := colors + [RgbToHex(m.r, m.g, m.b)];
    }
    assert rgbMatches[..|rgbMatches|] == rgbMatches;
    colors := colors + hslColors;
  }

  /** The colours recorded are, position by position, the canonical hex
      literals, the `rgb()` matches as `#RRGGBB` and the `hsl()` colours. */
  lemma CssColorsSpec(hexMatches: seq<string>, rgbMatches: seq<RgbMatch>, hslColors: seq<string>)
    ensures var colors := CssColors(hexMatches, rgbMatches, hslColors);
      && |colors| == |hexMatches| + |rgbMatches| + |hslColors|
      && (forall i :: 0 <= i < |hexMatches| ==> colors[i] == CanonicalLiteral(hexMatches[i]))
      && (forall i :: 0 <= i < |rgbMatches| ==> colors[|hexMatches| + i] == MatchHex(rgbMatches[i]))
      && colors[|hexMatches| + |rgbMatches|..] == hslColors
  {
    ConcatMaps(hexMatches, CanonicalLiteral, rgbMatches, MatchHex, hslColors);
  }

  lemma ConcatMaps<A, B>(xs: seq<A>, f: A -> string, ys: seq<B>, g: B -> string, zs: seq<string>)
    ensures var c := MapText(xs, f) + MapText(ys, g) + zs;
      && |c| == |xs| + |ys| + |zs|
      && (forall i :: 0 <= i < |xs| ==> c[i] == f(xs[i]))
      && (forall i :: 0 <= i < |ys| ==> c[|xs| + i] == g(ys[i]))
      && c[|xs| + |ys|..] == zs
  {
    var a, b := MapText(xs, f), MapText(ys, g);
    var c := a + b + zs;
    forall i | 0 <= i < |xs| ensures c[i] == f(xs[i]) {
      assert c[i] == a[i];
    }
    forall i | 0 <= i < |ys| ensures c[|xs| + i] == g(ys[i]) {
      assert c[|xs| + i] == b[i];
    }
    assert c[|xs| + |ys|..] == zs;
  }

  /** Every colour taken from an `rgb()` match parses, so the filter in the
      ranking cannot raise on it; in-range channels give a canonical
      `#RRGGBB` that denotes them. */
  lemma RgbLiteralParses(x: RgbMatch)
    ensures HexToRgb(RgbToHex(x.r, x.g, x.b)).Ok?
    ensures x.r <= 255 && x.g <= 255 && x.b <= 255 ==>
      IsCanonicalHex(RgbToHex(x.r, x.g, x.b)) && HexToRgb(RgbToHex(x.r, x.g, x.b)) == Ok(Rgb(x.r, x.g, x.b))
  {
    SixDigitHexParses(RgbToHex(x.r, x.g, x.b));
    if x.r <= 255 && x.g <= 255 && x.b <= 255 {
      RgbHexRoundTrip(Rgb(x.r, x.g, x.b));
    }
  }

  /** The colours of the images' palettes, image by image; `None` is an
      image whose palette could not be read. */
  function ImageColors(palettes: seq<Option<seq<Rgb>>>): (r: seq<string>)
    ensures forall k :: 0 <= k < |r| ==> IsCanonicalHex(r[k])
  {
    if palettes == [] then []
    else
      var last := palettes[|palettes| - 1];
      ImageColors(palettes[..|palettes| - 1]) + (if last.Some? then PaletteHexes(last.value) else [])
  }

  /** The colours of one image's palette as `#RRGGBB`. */
  function PaletteHexes(p: seq<Rgb>): (r: seq<string>)
    ensures |r| == |p|
    ensures forall k :: 0 <= k < |r| ==> IsCanonicalHex(r[k])
  {
    MapText(p, ChannelsHex)
  }

  function ChannelsHex(c: Rgb): (s: string)
    ensures IsCanonicalHex(s)
  {
    RgbToHex(c.r, c.g, c.b)
  }

  const MaxImages: nat := 5

  /** `_extract_from_images`: only the first five images are read, and an
      image that fails is skipped. */
  method ExtractFromImages(palettes: seq<Option<seq<Rgb>>>) returns (colors: seq<string>)
    ensures colors == ImageColors(palettes[..if |palettes| < MaxImages then |palettes| else MaxImages])
    ensures forall k :: 0 <= k < |colors| ==> IsCanonicalHex(colors[k])
  {
    var n := if |palettes| < MaxImages then |palettes| else MaxImages;
    colors := [];
    for i := 0 to n
      invariant colors == ImageColors(palettes[..i])
    {
      assert palettes[..i + 1][..i] == palettes[..i];
      match palettes[i]
      case None =>
      case Some(p) =>
        for j := 0 to |p|
          invariant colors == ImageColors(palettes[..i]) + MapText(p[..j], ChannelsHex)
        {
          MapTextSnoc(p, ChannelsHex, j);
          colors := colors + [RgbToHex(p[j].r, p[j].g, p[j].b)];
        }
        assert p[..|p|] == p;
    }
  }

  // ---- filtering and counting ----

  /** A colour that survived the filter, with the channels its hex parses to. */
  datatype Tagged = Tagged(hex: string, rgb: Rgb)

  predicate Dropped(c: Rgb)
  {
    NearWhite(c, NearWhiteThreshold) || NearBlack(c, NearBlackThreshold)
  }

  /** `[c for c in colors if not is_near_white(c) and not is_near_black(c)]`;
      the first colour that does not parse raises. */
  function FilterColors(colors: seq<string>): Result<seq<Tagged>>
  {
    Filter(colors, HexToRgb)
  }

  /** The filter, for a colour reader `parse` that may raise. */
  function Filter(colors: seq<string>, parse: string -> Result<Rgb>): Result<seq<Tagged>>
  {
    if colors == [] then Ok([])
    else
      var c :- parse(colors[0]);
      var rest :- Filter(colors[1..], parse);
      Ok(if Dropped(c) then rest else [Tagged(colors[0], c)] + rest)
  }

  /** The filter succeeds exactly when every colour parses. */
  lemma {:induction false} FilterOk(colors: seq<string>, parse: string -> Result<Rgb>)
    ensures Filter(colors, parse).Ok? <==> forall k :: 0 <= k < |colors| ==> parse(colors[k]).Ok?
  {
    if colors != [] {
      FilterOk(colors[1..], parse);
      assert forall k :: 1 <= k < |colors| ==> colors[k] == colors[1..][k - 1];
    }
  }

  /** A failure is the error of the first colour that does not parse. */
  lemma {:induction false} FilterError(colors: seq<string>, parse: string -> Result<Rgb>)
    requires Filter(colors, parse).Err?
    ensures exists k ::
      && 0 <= k < |colors| && parse(colors[k]) == Err(Filter(colors, parse).error)
      && forall j :: 0 <= j < k ==> parse(colors[j]).Ok?
  {
    if parse(colors[0]).Ok? {
      FilterError(colors[1..], parse);
      var k :|
        && 0 <= k < |colors[1..]| && parse(colors[1..][k]) == Err(Filter(colors[1..], parse).error)
        && forall j :: 0 <= j < k ==> parse(colors[1..][j]).Ok?;
      assert colors[k + 1] == colors[1..][k];
      assert forall j :: 1 <= j < k + 1 ==> colors[j] == colors[1..][j - 1];
    } else {
      assert parse(colors[0]) == Err(Filter(colors, parse).error);
    }
  }

  /** Every kept colour is an input colour, parsed, and not dropped. */
  lemma {:induction false} FilterKept(colors: seq<string>, parse: string -> Result<Rgb>)
    requires Filter(colors, parse).Ok?
    ensures forall t :: t in Filter(colors, parse).value ==>
      t.hex in colors && parse(t.hex) == Ok(t.rgb) && !Dropped(t.rgb)
  {
    if colors != [] {
      FilterKept(colors[1..], parse);
    }
  }

  /** Every input colour that is not dropped is kept, with its channels. */
  lemma {:induction false} FilterComplete(colors: seq<string>, parse: string -> Result<Rgb>)
    requires Filter(colors, parse).Ok?
    ensures forall k :: 0 <= k < |colors| && parse(colors[k]).Ok? && !Dropped(parse(colors[k]).value) ==>
      Tagged(colors[k], parse(colors[k]).value) in Filter(colors, parse).value
  {
    if colors != [] {
      FilterComplete(colors[1..], parse);
      assert forall k :: 1 <= k < |colors| ==> colors[k] == colors[1..][k - 1];
    }
  }

  /** A colour and how often it occurs: an entry of a `Counter`. */
  datatype Bucket = Bucket(color: Tagged, count: nat)

  predicate DistinctKeys(bs: seq<Bucket>)
  {
    forall i, j :: 0 <= i < j < |bs| ==> bs[i].color != bs[j].color
  }

  function Sum(bs: seq<Bucket>): nat
  {
    if bs == [] then 0 else bs[0].count + Sum(bs[1..])
  }

  lemma {:induction false} SumAppend(a: seq<Bucket>, b: seq<Bucket>)
    ensures Sum(a + b) == Sum(a) + Sum(b)
    decreases |a|
  {
    if a != [] {
      assert (a + b)[0] == a[0] && (a + b)[1..] == a[1..] + b;
      SumAppend(a[1..], b);
    } else {
      assert a + b == b;
    }
  }

  /** Add one occurrence of `t`: its entry grows, or a new entry goes last. */
  function Bump(bs: seq<Bucket>, t: Tagged): (r: seq<Bucket>)
    ensures |r| == |bs| || r == bs + [Bucket(t, 1)]
  {
    if bs == [] then [Bucket(t, 1)]
    else if bs[0].color == t then [Bucket(t, bs[0].count + 1)] + bs[1..]
    else [bs[0]] + Bump(bs[1..], t)
  }

  /** `Counter(colors)`: entries in first-occurrence order. */
  function Tally(ts: seq<Tagged>): seq<Bucket>
  {
    if ts == [] then [] else Bump(Tally(ts[..|ts| - 1]), ts[|ts| - 1])
  }

  function CountIn(bs: seq<Bucket>, t: Tagged): nat
  {
    if bs == [] then 0 else (if bs[0].color == t then bs[0].count else 0) + CountIn(bs[1..], t)
  }

  lemma {:induction false} BumpKeys(bs: seq<Bucket>, t: Tagged)
    ensures t in Keys(bs) ==> Keys(Bump(bs, t)) == Keys(bs)
    ensures t !in Keys(bs) ==> Keys(Bump(bs, t)) == Keys(bs) + [t]
    decreases |bs|
  {
    if bs != [] {
      KeysCons(bs[0], bs[1..]);
      assert [bs[0]] + bs[1..] == bs;
      if bs[0].color != t {
        var r1 := Bump(bs[1..], t);
        BumpKeys(bs[1..], t);
        assert Bump(bs, t) == [bs[0]] + r1;
        KeysCons(bs[0], r1);
        assert t in Keys(bs) <==> t in Keys(bs[1..]);
      } else {
        assert Bump(bs, t) == [Bucket(t, bs[0].count + 1)] + bs[1..];
        KeysCons(Bucket(t, bs[0].count + 1), bs[1..]);
      }
    }
  }

  lemma KeysCons(x: Bucket, s: seq<Bucket>)
    ensures Keys([x] + s) == [x.color] + Keys(s)
  {
  }

  lemma {:induction false} BumpCounts(bs: seq<Bucket>, t: Tagged)
    ensures forall u :: CountIn(Bump(bs, t), u) == CountIn(bs, u) + (if u == t then 1 else 0)
    ensures Sum(Bump(bs, t)) == Sum(bs) + 1
    decreases |bs|
  {
    if bs != [] {
      var r := Bump(bs, t);
      if bs[0].color != t {
        BumpCounts(bs[1..], t);
        assert r[0] == bs[0] && r[1..] == Bump(bs[1..], t);
      } else {
        assert r[0] == Bucket(t, bs[0].count + 1) && r[1..] == bs[1..];
      }
    }
  }

  lemma BumpDistinct(bs: seq<Bucket>, t: Tagged)
    requires DistinctKeys(bs)
    ensures DistinctKeys(Bump(bs, t))
  {
    BumpKeys(bs, t);
    var r := Bump(bs, t);
    assert forall i :: 0 <= i < |r| ==> r[i].color == Keys(r)[i];
    assert forall i, j :: 0 <= i < j < |bs| ==> Keys(bs)[i] != Keys(bs)[j];
  }

  function Keys(bs: seq<Bucket>): (ks: seq<Tagged>)
    ensures |ks| == |bs| && forall k :: 0 <= k < |bs| ==> ks[k] == bs[k].color
  {
    seq(|bs|, k requires 0 <= k < |bs| => bs[k].color)
  }

  /** The counter has one entry per distinct colour, holding its number of
      occurrences, its counts add up to the number of colours, and its keys
      are the colours in the order of their first occurrence. */
  lemma {:induction false} TallySpec(ts: seq<Tagged>)
    ensures DistinctKeys(Tally(ts))
    ensures forall u :: CountIn(Tally(ts), u) == multiset(ts)[u]
    ensures forall u :: u in Keys(Tally(ts)) <==> u in ts
    ensures Sum(Tally(ts)) == |ts|
    ensures Keys(Tally(ts)) == FirstOccurrences(ts)
    decreases |ts|
  {
    if ts != [] {
      var p := ts[..|ts| - 1];
      var x := ts[|ts| - 1];
      TallySpec(p);
      BumpKeys(Tally(p), x);
      BumpCounts(Tally(p), x);
      BumpDistinct(Tally(p), x);
      assert ts == p + [x];
      assert multiset(ts) == multiset(p) + multiset{x};
      forall u ensures u in ts <==> u in p || u == x {
        assert u in ts <==> u in multiset(ts);
      }
    }
  }

  /** The distinct elements of `ts`, each where it first occurs. */
  function FirstOccurrences(ts: seq<Tagged>): seq<Tagged>
  {
    if ts == [] then []
    else
      var p := FirstOccurrences(ts[..|ts| - 1]);
      if ts[|ts| - 1] in ts[..|ts| - 1] then p else p + [ts[|ts| - 1]]
  }

  // ---- clustering ----

  /** Which entries a pass over the counter keeps. */
  datatype Criterion =
    | Within(c: Tagged)
    | NotIn(used: set<Tagged>)
    | CountIs(v: nat)
    | Not(a: Criterion)
    | And(a: Criterion, b: Criterion)

  predicate Holds(cr: Criterion, x: Bucket)
  {
    match cr
    case Within(c) => DistanceSq(c.rgb, x.color.rgb) < 900
    case NotIn(used) => x.color !in used
    case CountIs(v) => x.count == v
    case Not(a) => !Holds(a, x)
    case And(a, b) => Holds(a, x) && Holds(b, x)
  }

  /** The entries meeting `cr`, in order. */
  function Select(bs: seq<Bucket>, cr: Criterion): (r: seq<Bucket>)
    ensures |r| <= |bs|
  {
    if bs == [] then []
    else (if Holds(cr, bs[0]) then [bs[0]] else []) + Select(bs[1..], cr)
  }

  /** A selection holds exactly the entries that meet the criterion. */
  lemma {:induction false} SelectMembers(bs: seq<Bucket>, cr: Criterion)
    ensures forall x :: x in Select(bs, cr) <==> x in bs && Holds(cr, x)
    decreases |bs|
  {
    if bs != [] {
      SelectMembers(bs[1..], cr);
      assert forall x :: x in bs <==> x == bs[0] || x in bs[1..];
    }
  }

  lemma {:induction false} SelectAppend(a: seq<Bucket>, b: seq<Bucket>, cr: Criterion)
    ensures Select(a + b, cr) == Select(a, cr) + Select(b, cr)
    decreases |a|
  {
    if a != [] {
      var h := if Holds(cr, a[0]) then [a[0]] else [];
      assert (a + b)[0] == a[0] && (a + b)[1..] == a[1..] + b;
      assert Select(a + b, cr) == h + Select(a[1..] + b, cr);
      SelectAppend(a[1..], b, cr);
      assert Select(a, cr) == h + Select(a[1..], cr);
      ConcatAssoc(h, Select(a[1..], cr), Select(b, cr));
    } else {
      assert a + b == b;
    }
  }

  lemma ConcatAssoc(x: seq<Bucket>, y: seq<Bucket>, z: seq<Bucket>)
    ensures x + (y + z) == (x + y) + z
  {
  }

  /** Selections that agree on every entry are equal. */
  lemma {:induction false} SelectCongruent(bs: seq<Bucket>, c1: Criterion, c2: Criterion)
    requires forall x :: x in bs ==> (Holds(c1, x) <==> Holds(c2, x))
    ensures Select(bs, c1) == Select(bs, c2)
    decreases |bs|
  {
    if bs != [] {
      SelectCongruent(bs[1..], c1, c2);
    }
  }

  lemma {:induction false} SelectSelect(bs: seq<Bucket>, c1: Criterion, c2: Criterion)
    ensures Select(Select(bs, c1), c2) == Select(bs, And(c1, c2))
    decreases |bs|
  {
    if bs != [] {
      SelectSelect(bs[1..], c1, c2);
      var h := if Holds(c1, bs[0]) then [bs[0]] else [];
      SelectAppend(h, Select(bs[1..], c1), c2);
    }
  }

  lemma {:induction false} SelectSplit(bs: seq<Bucket>, cr: Criterion)
    ensures Sum(Select(bs, cr)) + Sum(Select(bs, Not(cr))) == Sum(bs)
    ensures multiset(Select(bs, cr)) + multiset(Select(bs, Not(cr))) == multiset(bs)
    decreases |bs|
  {
    if bs != [] {
      SelectSplit(bs[1..], cr);
      var h1 := if Holds(cr, bs[0]) then [bs[0]] else [];
      var h2 := if Holds(cr, bs[0]) then [] else [bs[0]];
      assert Select(bs, cr) == h1 + Select(bs[1..], cr);
      assert Select(bs, Not(cr)) == h2 + Select(bs[1..], Not(cr));
      SumAppend(h1, Select(bs[1..], cr));
      SumAppend(h2, Select(bs[1..], Not(cr)));
      assert Sum(h1) + Sum(h2) == bs[0].count;
      assert multiset(h1) + multiset(h2) == multiset{bs[0]};
      assert bs == [bs[0]] + bs[1..];
    }
  }

  lemma {:induction false} SelectAll(bs: seq<Bucket>, cr: Criterion)
    requires forall x :: x in bs ==> Holds(cr, x)
    ensures Select(bs, cr) == bs
    decreases |bs|
  {
    if bs != [] {
      SelectAll(bs[1..], cr);
    }
  }

  lemma {:induction false} SelectNone(bs: seq<Bucket>, cr: Criterion)
    requires forall x :: x in bs ==> !Holds(cr, x)
    ensures Select(bs, cr) == []
    decreases |bs|
  {
    if bs != [] {
      SelectNone(bs[1..], cr);
    }
  }

  lemma {:induction false} SelectDistinct(bs: seq<Bucket>, cr: Criterion)
    requires DistinctKeys(bs)
    ensures DistinctKeys(Select(bs, cr))
    decreases |bs|
  {
    if bs != [] {
      SelectDistinct(bs[1..], cr);
      SelectMembers(bs[1..], cr);
      var t := Select(bs[1..], cr);
      if Holds(cr, bs[0]) {
        var r := [bs[0]] + t;
        assert Select(bs, cr) == r;
        forall i, j | 0 <= i < j < |r| ensures r[i].color != r[j].color {
          assert r[j] == t[j - 1];
          if i == 0 {
            assert t[j - 1] in bs[1..];
            var k :| 0 <= k < |bs[1..]| && bs[1..][k] == t[j - 1];
            assert bs[k + 1] == r[j];
          } else {
            assert r[i] == t[i - 1];
          }
        }
      } else {
        assert Select(bs, cr) == t;
      }
    }
  }

  /** The clusters the greedy pass forms: the first remaining colour
      absorbs every later remaining colour close to it, and the pass goes on
      with the colours it left. */
  function Clusters(bs: seq<Bucket>): (cs: seq<seq<Bucket>>)
    ensures forall i :: 0 <= i < |cs| ==> cs[i] != []
    decreases |bs|
  {
    if bs == [] then []
    else
      var c := bs[0].color;
      [[bs[0]] + Select(bs[1..], Within(c))] + Clusters(Select(bs[1..], Not(Within(c))))
  }

  /** One entry per cluster: its first colour with the cluster's total. */
  function Collapse(cs: seq<seq<Bucket>>): (r: seq<Bucket>)
    requires forall i :: 0 <= i < |cs| ==> cs[i] != []
    ensures |r| == |cs|
    ensures forall i :: 0 <= i < |cs| ==> r[i] == Bucket(cs[i][0].color, Sum(cs[i]))
  {
    seq(|cs|, i requires 0 <= i < |cs| => Bucket(cs[i][0].color, Sum(cs[i])))
  }

  /** What `_cluster_similar_colors` returns. */
  function Groups(bs: seq<Bucket>): seq<Bucket>
  {
    Collapse(Clusters(bs))
  }

  lemma GroupsCons(x: Bucket, rest: seq<Bucket>)
    ensures Groups([x] + rest) ==
      [Bucket(x.color, x.count + Sum(Select(rest, Within(x.color))))] + Groups(Select(rest, Not(Within(x.color))))
  {
    var near := Select(rest, Within(x.color));
    var far := Select(rest, Not(Within(x.color)));
    var cs := Clusters([x] + rest);
    ClustersCons(x, rest);
    CollapseCons(cs);
    assert cs[0] == [x] + near && cs[1..] == Clusters(far);
    SumCons(x, near);
  }

  lemma SumCons(x: Bucket, s: seq<Bucket>)
    ensures Sum([x] + s) == x.count + Sum(s)
  {
    assert ([x] + s)[1..] == s;
  }

  lemma ClustersCons(x: Bucket, rest: seq<Bucket>)
    ensures Clusters([x] + rest) == [[x] + Select(rest, Within(x.color))] + Clusters(Select(rest, Not(Within(x.color))))
  {
    var bs := [x] + rest;
    assert bs[0] == x && bs[1..] == rest;
  }

  lemma CollapseCons(cs: seq<seq<Bucket>>)
    requires cs != [] && forall i :: 0 <= i < |cs| ==> cs[i] != []
    ensures Collapse(cs) == [Bucket(cs[0][0].color, Sum(cs[0]))] + Collapse(cs[1..])
  {
    assert Collapse(cs)[1..] == Collapse(cs[1..]);
  }

  function Flatten(cs: seq<seq<Bucket>>): seq<Bucket>
  {
    if cs == [] then [] else cs[0] + Flatten(cs[1..])
  }

  /** Every entry lands in exactly one cluster. */
  lemma {:induction false} ClustersPartition(bs: seq<Bucket>)
    ensures multiset(Flatten(Clusters(bs))) == multiset(bs)
    decreases |bs|
  {
    if bs != [] {
      var c := bs[0].color;
      var rest := bs[1..];
      ClustersPartition(Select(rest, Not(Within(c))));
      SelectSplit(rest, Within(c));
      var cs: seq<seq<Bucket>> := Clusters(bs);
      assert cs[1..] == Clusters(Select(rest, Not(Within(c))));
      assert bs == [bs[0]] + rest;
    }
  }

  lemma {:induction false} SumFlatten(cs: seq<seq<Bucket>>)
    requires forall i :: 0 <= i < |cs| ==> cs[i] != []
    ensures Sum(Collapse(cs)) == Sum(Flatten(cs))
    decreases |cs|
  {
    if cs != [] {
      SumFlatten(cs[1..]);
      SumAppend(cs[0], Flatten(cs[1..]));
      assert Collapse(cs)[1..] == Collapse(cs[1..]);
    }
  }

  lemma {:induction false} SumClusters(bs: seq<Bucket>)
    ensures Sum(Flatten(Clusters(bs))) == Sum(bs)
    decreases |bs|
  {
    if bs != [] {
      var c := bs[0].color;
      var rest := bs[1..];
      SumClusters(Select(rest, Not(Within(c))));
      SelectSplit(rest, Within(c));
      var cs: seq<seq<Bucket>> := Clusters(bs);
      assert cs[1..] == Clusters(Select(rest, Not(Within(c))));
      SumAppend(cs[0], Flatten(cs[1..]));
      SumAppend([bs[0]], Select(rest, Within(c)));
    }
  }

  /** Merging keeps the total count: every colour contributes its count to
      exactly one merged entry. */
  lemma GroupsPreserveTotal(bs: seq<Bucket>)
    ensures Sum(Groups(bs)) == Sum(bs)
  {
    SumFlatten(Clusters(bs));
    SumClusters(bs);
  }

  /** Cluster members come from the input. */
  lemma {:induction false} ClustersFrom(bs: seq<Bucket>)
    ensures var cs := Clusters(bs);
      forall i, k :: 0 <= i < |cs| && 0 <= k < |cs[i]| ==> cs[i][k] in bs
    decreases |bs|
  {
    if bs != [] {
      var x, rest := bs[0], bs[1..];
      var c := x.color;
      var near := Select(rest, Within(c));
      var far := Select(rest, Not(Within(c)));
      ClustersFrom(far);
      SelectMembers(rest, Within(c));
      SelectMembers(rest, Not(Within(c)));
      assert bs == [x] + rest;
      ClustersCons(x, rest);
      var cs: seq<seq<Bucket>> := Clusters(bs);
      assert cs[0] == [x] + near && cs[1..] == Clusters(far);
      assert forall y :: y in rest ==> y in bs;
      forall i, k | 0 <= i < |cs| && 0 <= k < |cs[i]| ensures cs[i][k] in bs {
        if i == 0 {
          if k > 0 {
            assert cs[0][k] == near[k - 1];
          }
        } else {
          assert cs[i] == Clusters(far)[i - 1];
        }
      }
    }
  }

  /** Each cluster member is closer than 30 to the first colour of its
      cluster, which is that cluster's merged key. */
  lemma {:induction false} ClustersNear(bs: seq<Bucket>)
    ensures var cs := Clusters(bs);
      forall i, k :: 0 <= i < |cs| && 0 <= k < |cs[i]| ==> Holds(Within(cs[i][0].color), cs[i][k])
    decreases |bs|
  {
    if bs != [] {
      var x, rest := bs[0], bs[1..];
      var c := x.color;
      var near := Select(rest, Within(c));
      var far := Select(rest, Not(Within(c)));
      ClustersNear(far);
      SelectMembers(rest, Within(c));
      assert bs == [x] + rest;
      ClustersCons(x, rest);
      var cs: seq<seq<Bucket>> := Clusters(bs);
      assert cs[0] == [x] + near && cs[1..] == Clusters(far);
      assert Holds(Within(c), x) by { assert DistanceSq(c.rgb, c.rgb) == 0; }
      forall i, k | 0 <= i < |cs| && 0 <= k < |cs[i]|
        ensures Holds(Within(cs[i][0].color), cs[i][k])
      {
        if i == 0 {
          if k > 0 {
            assert cs[0][k] == near[k - 1];
          }
        } else {
          assert cs[i] == Clusters(far)[i - 1];
        }
      }
    }
  }

  /** The first colours of any two clusters are 30 or more apart. */
  lemma {:induction false} ClusterHeadsApart(bs: seq<Bucket>)
    ensures forall i, j :: 0 <= i < j < |Clusters(bs)| ==> !Holds(Within(Clusters(bs)[i][0].color), Clusters(bs)[j][0])
    decreases |bs|
  {
    if bs != [] {
      var x, rest := bs[0], bs[1..];
      var c := x.color;
      var far := Select(rest, Not(Within(c)));
      ClusterHeadsApart(far);
      ClustersFrom(far);
      SelectMembers(rest, Not(Within(c)));
      assert bs == [x] + rest;
      ClustersCons(x, rest);
      var cs: seq<seq<Bucket>> := Clusters(bs);
      var cf: seq<seq<Bucket>> := Clusters(far);
      assert cs[0][0] == x && cs[1..] == cf;
      forall i, j | 0 <= i < j < |cs| ensures !Holds(Within(cs[i][0].color), cs[j][0]) {
        assert cs[j] == cf[j - 1];
        if i == 0 {
          assert cf[j - 1][0] in far;
        } else {
          assert cs[i] == cf[i - 1];
        }
      }
    }
  }

  /** The merged keys are pairwise 30 or more apart. */
  lemma ClusterKeysApart(bs: seq<Bucket>)
    ensures Apart(Groups(bs))
  {
    ClusterHeadsApart(bs);
    var cs: seq<seq<Bucket>> := Clusters(bs);
    var g := Groups(bs);
    forall i, j | 0 <= i < j < |g| ensures DistanceSq(g[i].color.rgb, g[j].color.rgb) >= 900 {
      assert |g| == |cs|;
      assert g[i].color == cs[i][0].color && g[j].color == cs[j][0].color;
      assert !Holds(Within(cs[i][0].color), cs[j][0]);
    }
  }

  /** `xs` is `ys` with some elements left out. */
  predicate IsSubseq(xs: seq<Tagged>, ys: seq<Tagged>)
    decreases |ys|
  {
    xs == [] || (ys != [] && ((xs[0] == ys[0] && IsSubseq(xs[1..], ys[1..])) || IsSubseq(xs, ys[1..])))
  }

  lemma {:induction false} SubseqTrans(xs: seq<Tagged>, ys: seq<Tagged>, zs: seq<Tagged>)
    requires IsSubseq(xs, ys) && IsSubseq(ys, zs)
    ensures IsSubseq(xs, zs)
    decreases |zs|
  {
    if xs != [] {
      assert ys != [] && zs != [];
      if ys[0] == zs[0] && IsSubseq(ys[1..], zs[1..]) {
        if xs[0] == ys[0] && IsSubseq(xs[1..], ys[1..]) {
          SubseqTrans(xs[1..], ys[1..], zs[1..]);
        } else {
          SubseqTrans(xs, ys[1..], zs[1..]);
        }
      } else {
        SubseqTrans(xs, ys, zs[1..]);
      }
    }
  }

  lemma {:induction false} SelectSubseq(bs: seq<Bucket>, cr: Criterion)
    ensures IsSubseq(Keys(Select(bs, cr)), Keys(bs))
    decreases |bs|
  {
    if bs != [] {
      SelectSubseq(bs[1..], cr);
      var t := Select(bs[1..], cr);
      var ys := Keys(bs);
      assert ys[0] == bs[0].color && ys[1..] == Keys(bs[1..]);
      if Holds(cr, bs[0]) {
        var xs := Keys(Select(bs, cr));
        assert Select(bs, cr) == [bs[0]] + t;
        assert xs[0] == bs[0].color && xs[1..] == Keys(t);
      } else {
        assert Select(bs, cr) == t;
      }
    }
  }

  /** The merged keys are input colours, in input order. */
  lemma {:induction false} ClusterKeysInOrder(bs: seq<Bucket>)
    ensures IsSubseq(Keys(Groups(bs)), Keys(bs))
    decreases |bs|
  {
    if bs != [] {
      var c := bs[0].color;
      var rest := bs[1..];
      var far := Select(rest, Not(Within(c)));
      ClusterKeysInOrder(far);
      SelectSubseq(rest, Not(Within(c)));
      SubseqTrans(Keys(Groups(far)), Keys(far), Keys(rest));
      assert [bs[0]] + rest == bs;
      GroupsCons(bs[0], rest);
      assert Keys(Groups(bs))[1..] == Keys(Groups(far));
      assert Keys(bs)[1..] == Keys(rest);
    }
  }

  /** Absorption is measured against the key only: with three colours in a
      row 20 apart, the middle one joins the first and the third stays a key
      of its own although it is close to the middle one. */
  lemma NoTransitiveMerging()
    ensures var a := Bucket(Tagged("#646464", Rgb(100, 100, 100)), 1);
      var b := Bucket(Tagged("#786464", Rgb(120, 100, 100)), 1);
      var c := Bucket(Tagged("#8C6464", Rgb(140, 100, 100)), 1);
      Holds(Within(a.color), b) && Holds(Within(b.color), c) && !Holds(Within(a.color), c) &&
      Groups([a, b, c]) == [Bucket(a.color, 2), Bucket(c.color, 1)]
  {
    var a := Bucket(Tagged("#646464", Rgb(100, 100, 100)), 1);
    var b := Bucket(Tagged("#786464", Rgb(120, 100, 100)), 1);
    var c := Bucket(Tagged("#8C6464", Rgb(140, 100, 100)), 1);
    assert DistanceSq(a.color.rgb, b.color.rgb) == 400;
    assert DistanceSq(b.color.rgb, c.color.rgb) == 400;
    assert DistanceSq(a.color.rgb, c.color.rgb) == 1600;
    assert [a, b, c] == [a] + [b, c];
    GroupsCons(a, [b, c]);
    assert [b, c][1..] == [c];
    assert Select([b, c], Within(a.color)) == [b];
    assert Select([b, c], Not(Within(a.color))) == [c];
    assert [c] == [c] + [];
    GroupsCons(c, []);
  }

  /** The entries the inner pass for key `c` takes in while `used` holds
      the colours absorbed before it. */
  function AbsorbedBy(c: Tagged, used: set<Tagged>): Criterion
  {
    And(NotIn({c}), And(NotIn(used), Within(c)))
  }

  lemma HoldsAbsorbedBy(c: Tagged, used: set<Tagged>, x: Bucket)
    ensures Holds(AbsorbedBy(c, used), x) <==> x.color != c && x.color !in used && Holds(Within(c), x)
  {
    assert Holds(And(NotIn(used), Within(c)), x) <==> Holds(NotIn(used), x) && Holds(Within(c), x);
  }

  function KeySet(bs: seq<Bucket>): set<Tagged>
  {
    set k | 0 <= k < |bs| :: bs[k].color
  }

  /** `_cluster_similar_colors`: each colour not yet used becomes a key and
      takes in, with their counts, all unused colours closer than 30. */
  method ClusterSimilar(counts: seq<Bucket>) returns (merged: seq<Bucket>)
    requires DistinctKeys(counts)
    ensures merged == Groups(counts)
  {
    merged := [];
    var used: set<Tagged> := {};
    SelectAll(counts, NotIn(used));
    assert counts[0..] == counts;
    for i := 0 to |counts|
      invariant forall k :: 0 <= k < i ==> counts[k].color in used
      invariant merged + Groups(Select(counts[i..], NotIn(used))) == Groups(counts)
    {
      var color := counts[i].color;
      SelectStep(counts, i, NotIn(used));
      if color in used {
        assert Select(counts[i..], NotIn(used)) == Select(counts[i + 1..], NotIn(used));
        continue;
      }
      ghost var u0 := used;
      var clusterCount;
      clusterCount, used := AbsorbClose(counts, i, used);
      ClusterStep(counts, i, u0, merged, clusterCount, used);
      merged := merged + [Bucket(color, clusterCount)];
      used := used + {color};
    }
    assert counts[|counts|..] == [];
  }

  /** The inner loop of `_cluster_similar_colors` for the key `counts[i]`:
      every other unused colour closer than 30 adds its count and is marked
      as used. */
  method AbsorbClose(counts: seq<Bucket>, i: nat, used0: set<Tagged>) returns (clusterCount: nat, used: set<Tagged>)
    requires DistinctKeys(counts) && i < |counts|
    ensures var absorbed := Select(counts, AbsorbedBy(counts[i].color, used0));
      used == used0 + KeySet(absorbed) && clusterCount == counts[i].count + Sum(absorbed)
  {
    var color := counts[i].color;
    used := used0;
    clusterCount := counts[i].count;
    for j := 0 to |counts|
      invariant used == used0 + KeySet(Select(counts[..j], AbsorbedBy(color, used0)))
      invariant clusterCount == counts[i].count + Sum(Select(counts[..j], AbsorbedBy(color, used0)))
    {
      var other := counts[j].color;
      ghost var before := Select(counts[..j], AbsorbedBy(color, used0));
      InnerStep(counts, j, color, used0);
      if other != color && other !in used && DistanceSq(color.rgb, other.rgb) < 900 {
        assert Select(counts[..j + 1], AbsorbedBy(color, used0)) == before + [counts[j]];
        clusterCount := clusterCount + counts[j].count;
        used := used + {other};
      } else {
        assert Select(counts[..j + 1], AbsorbedBy(color, used0)) == before;
      }
    }
    assert counts[..|counts|] == counts;
  }

  /** One step of a pass over `counts[i..]`. */
  lemma SelectStep(counts: seq<Bucket>, i: nat, cr: Criterion)
    requires i < |counts|
    ensures Select(counts[i..], cr) == (if Holds(cr, counts[i]) then [counts[i]] else []) + Select(counts[i + 1..], cr)
  {
    assert counts[i..][0] == counts[i] && counts[i..][1..] == counts[i + 1..];
  }

  /** One step of the inner pass: `counts[j]` is absorbed exactly when it
      differs from the key, is unused and is close; marking earlier colours
      as used does not affect it. */
  lemma InnerStep(counts: seq<Bucket>, j: nat, c: Tagged, u0: set<Tagged>)
    requires DistinctKeys(counts) && j < |counts|
    ensures var cr := AbsorbedBy(c, u0);
      var x := counts[j];
      var before := Select(counts[..j], cr);
      && (x.color in u0 + KeySet(before) <==> x.color in u0)
      && (Holds(cr, x) <==> x.color != c && x.color !in u0 && DistanceSq(c.rgb, x.color.rgb) < 900)
      && Select(counts[..j + 1], cr) == before + (if Holds(cr, x) then [x] else [])
      && KeySet(before + [x]) == KeySet(before) + {x.color}
      && Sum(before + [x]) == Sum(before) + x.count
  {
    var cr := AbsorbedBy(c, u0);
    var x := counts[j];
    var before := Select(counts[..j], cr);
    assert counts[..j + 1] == counts[..j] + [x];
    SelectAppend(counts[..j], [x], cr);
    assert Select([x], cr) == if Holds(cr, x) then [x] else [] by {
      assert [x][1..] == [];
    }
    HoldsAbsorbedBy(c, u0, x);
    SelectMembers(counts[..j], cr);
    assert forall y :: y in before ==> y in counts;
    KeySetMember(counts, before, x);
    assert forall k :: 0 <= k < j ==> counts[..j][k].color != x.color;
    assert x !in counts[..j];
    SumAppend(before, [x]);
    SumCons(x, []);
    var b := before + [x];
    assert forall k :: 0 <= k < |before| ==> b[k] == before[k];
    assert b[|before|] == x;
  }

  /** The merged entry for `counts[i]` is the next group of the
      specification, and the colours still unused afterwards yield the rest. */
  lemma ClusterStep(counts: seq<Bucket>, i: nat, u0: set<Tagged>, merged: seq<Bucket>, clusterCount: nat, used: set<Tagged>)
    requires DistinctKeys(counts) && i < |counts|
    requires forall k :: 0 <= k < i ==> counts[k].color in u0
    requires counts[i].color !in u0
    requires merged + Groups(Select(counts[i..], NotIn(u0))) == Groups(counts)
    requires used == u0 + KeySet(Select(counts, AbsorbedBy(counts[i].color, u0)))
    requires clusterCount == counts[i].count + Sum(Select(counts, AbsorbedBy(counts[i].color, u0)))
    ensures (merged + [Bucket(counts[i].color, clusterCount)]) + Groups(Select(counts[i + 1..], NotIn(used + {counts[i].color}))) == Groups(counts)
  {
    var color := counts[i].color;
    OuterStep(counts, i, u0);
    var absorbed := Select(counts, AbsorbedBy(color, u0));
    var unused := Select(counts[i + 1..], NotIn(u0));
    var rest := Groups(Select(counts[i + 1..], NotIn(used + {color})));
    GroupsStep(counts[i], unused, Select(counts[i..], NotIn(u0)), absorbed, Select(counts[i + 1..], NotIn(used + {color})));
    assert Groups(Select(counts[i..], NotIn(u0))) == [Bucket(color, clusterCount)] + rest;
    assert (merged + [Bucket(color, clusterCount)]) + rest == merged + ([Bucket(color, clusterCount)] + rest);
  }

  /** One step of the outer pass, on the unused colours: the key `counts[i]`
      heads them, the colours it absorbs are the close ones among the rest,
      and the colours left unused afterwards are the far ones. */
  lemma OuterStep(counts: seq<Bucket>, i: nat, u0: set<Tagged>)
    requires DistinctKeys(counts) && i < |counts|
    requires forall k :: 0 <= k < i ==> counts[k].color in u0
    requires counts[i].color !in u0
    ensures Select(counts[i..], NotIn(u0)) == [counts[i]] + Select(counts[i + 1..], NotIn(u0))
    ensures Select(counts, AbsorbedBy(counts[i].color, u0)) ==
      Select(Select(counts[i + 1..], NotIn(u0)), Within(counts[i].color))
    ensures Select(counts[i + 1..], NotIn(u0 + KeySet(Select(counts, AbsorbedBy(counts[i].color, u0))) + {counts[i].color})) ==
      Select(Select(counts[i + 1..], NotIn(u0)), Not(Within(counts[i].color)))
  {
    var c := counts[i].color;
    var tail := counts[i + 1..];
    SelectStep(counts, i, NotIn(u0));
    assert Holds(NotIn(u0), counts[i]);
    AbsorbedAfter(counts, i, u0);
    AbsorbedOnlyAfter(counts, i, u0);
    DistinctTail(counts, i);
    RemainingAfter(tail, c, u0);
  }

  lemma GroupsStep(x: Bucket, rest: seq<Bucket>, all: seq<Bucket>, near: seq<Bucket>, far: seq<Bucket>)
    requires all == [x] + rest
    requires near == Select(rest, Within(x.color)) && far == Select(rest, Not(Within(x.color)))
    ensures Groups(all) == [Bucket(x.color, x.count + Sum(near))] + Groups(far)
  {
    GroupsCons(x, rest);
  }

  /** A suffix of a counter has distinct keys, none equal to the key just
      before it. */
  lemma DistinctTail(counts: seq<Bucket>, i: nat)
    requires DistinctKeys(counts) && i < |counts|
    ensures DistinctKeys(counts[i + 1..])
    ensures forall x :: x in counts[i + 1..] ==> x.color != counts[i].color
  {
    var tail := counts[i + 1..];
    assert forall k :: 0 <= k < |tail| ==> tail[k] == counts[i + 1 + k];
  }

  /** With distinct keys, an entry's key is among the keys of a sub-list
      exactly when the entry itself is in it. */
  lemma KeySetMember(bs: seq<Bucket>, sub: seq<Bucket>, x: Bucket)
    requires DistinctKeys(bs) && x in bs
    requires forall y :: y in sub ==> y in bs
    ensures x.color in KeySet(sub) <==> x in sub
  {
    if x.color in KeySet(sub) {
      var k :| 0 <= k < |sub| && sub[k].color == x.color;
      var y := sub[k];
      assert y in bs;
      var p :| 0 <= p < |bs| && bs[p] == x;
      var q :| 0 <= q < |bs| && bs[q] == y;
      assert p == q;
    }
    if x in sub {
      var k :| 0 <= k < |sub| && sub[k] == x;
      assert sub[k].color in KeySet(sub);
    }
  }

  /** The inner pass of step `i` absorbs exactly the close unused colours
      after position `i`. */
  lemma AbsorbedAfter(counts: seq<Bucket>, i: nat, u0: set<Tagged>)
    requires DistinctKeys(counts) && i < |counts|
    requires forall k :: 0 <= k < i ==> counts[k].color in u0
    ensures var c := counts[i].color;
      Select(counts, AbsorbedBy(c, u0)) == Select(Select(counts[i + 1..], NotIn(u0)), Within(c))
  {
    AbsorbedOnlyAfter(counts, i, u0);
    DistinctTail(counts, i);
    AbsorbedFromUnused(counts[i + 1..], counts[i].color, u0);
  }

  lemma AbsorbedOnlyAfter(counts: seq<Bucket>, i: nat, u0: set<Tagged>)
    requires i < |counts|
    requires forall k :: 0 <= k < i ==> counts[k].color in u0
    ensures var cr := AbsorbedBy(counts[i].color, u0);
      Select(counts, cr) == Select(counts[i + 1..], cr)
  {
    var c := counts[i].color;
    var cr := AbsorbedBy(c, u0);
    var head := counts[..i];
    forall k | 0 <= k < |head| ensures !Holds(cr, head[k]) {
      assert head[k] == counts[k];
      HoldsAbsorbedBy(c, u0, head[k]);
    }
    HoldsAbsorbedBy(c, u0, counts[i]);
    SplitAt(counts, i);
    SelectSkip(head, counts[i], counts[i + 1..], cr);
  }

  lemma SplitAt(bs: seq<Bucket>, i: nat)
    requires i < |bs|
    ensures bs == bs[..i] + ([bs[i]] + bs[i + 1..])
  {
  }

  /** Entries before the tail that fail the criterion drop out. */
  lemma SelectSkip(head: seq<Bucket>, y: Bucket, tail: seq<Bucket>, cr: Criterion)
    requires forall k :: 0 <= k < |head| ==> !Holds(cr, head[k])
    requires !Holds(cr, y)
    ensures Select(head + ([y] + tail), cr) == Select(tail, cr)
  {
    SelectAppend(head, [y] + tail, cr);
    SelectAppend([y], tail, cr);
    SelectNone(head, cr);
    assert Select([y], cr) == [] by {
      assert [y][1..] == [];
    }
  }

  lemma AbsorbedFromUnused(tail: seq<Bucket>, c: Tagged, u0: set<Tagged>)
    requires forall x :: x in tail ==> x.color != c
    ensures Select(tail, AbsorbedBy(c, u0)) == Select(Select(tail, NotIn(u0)), Within(c))
  {
    var cr := AbsorbedBy(c, u0);
    SelectSelect(tail, NotIn(u0), Within(c));
    forall x | x in tail ensures Holds(cr, x) <==> Holds(And(NotIn(u0), Within(c)), x) {
      HoldsAbsorbedBy(c, u0, x);
    }
    SelectCongruent(tail, cr, And(NotIn(u0), Within(c)));
  }

  /** After step `i` marks the absorbed colours and its own key as used, the
      unused colours after position `i` are those the specification goes on
      with. */
  lemma RemainingAfter(tail: seq<Bucket>, c: Tagged, u0: set<Tagged>)
    requires DistinctKeys(tail)
    requires forall x :: x in tail ==> x.color != c
    ensures var absorbed := Select(tail, AbsorbedBy(c, u0));
      Select(tail, NotIn(u0 + KeySet(absorbed) + {c})) == Select(Select(tail, NotIn(u0)), Not(Within(c)))
  {
    var cr := AbsorbedBy(c, u0);
    var absorbed := Select(tail, cr);
    SelectMembers(tail, cr);
    SelectSelect(tail, NotIn(u0), Not(Within(c)));
    forall x | x in tail
      ensures Holds(NotIn(u0 + KeySet(absorbed) + {c}), x) <==> Holds(And(NotIn(u0), Not(Within(c))), x)
    {
      KeySetMember(tail, absorbed, x);
      HoldsAbsorbedBy(c, u0, x);
      assert Holds(And(NotIn(u0), Not(Within(c))), x) <==> Holds(NotIn(u0), x) && Holds(Not(Within(c)), x);
    }
    SelectCongruent(tail, NotIn(u0 + KeySet(absorbed) + {c}), And(NotIn(u0), Not(Within(c))));
  }

  /** Keys pairwise 30 or more apart. */
  predicate Apart(bs: seq<Bucket>)
  {
    forall i, j :: 0 <= i < j < |bs| ==> DistanceSq(bs[i].color.rgb, bs[j].color.rgb) >= 900
  }

  lemma {:induction false} SubseqMembers(xs: seq<Tagged>, ys: seq<Tagged>)
    requires IsSubseq(xs, ys)
    ensures forall x :: x in xs ==> x in ys
    decreases |ys|
  {
    if xs != [] {
      if xs[0] == ys[0] && IsSubseq(xs[1..], ys[1..]) {
        SubseqMembers(xs[1..], ys[1..]);
        assert forall x :: x in xs ==> x == xs[0] || x in xs[1..];
      } else {
        SubseqMembers(xs, ys[1..]);
      }
    }
  }

  // ---- ranking ----

  /** Counts never increase along the sequence. */
  predicate SortedDesc(bs: seq<Bucket>)
  {
    forall i, j :: 0 <= i < j < |bs| ==> bs[i].count >= bs[j].count
  }

  /** `x` goes in front of the first entry whose count it reaches, so it
      stays ahead of the entries with its own count that come after it in
      the input. */
  function Insert(x: Bucket, t: seq<Bucket>): (r: seq<Bucket>)
    ensures |r| == |t| + 1
    ensures multiset(r) == multiset(t) + multiset{x}
  {
    if t == [] || x.count >= t[0].count then [x] + t
    else
      assert t == [t[0]] + t[1..];
      [t[0]] + Insert(x, t[1..])
  }

  /** `sorted(entries, key=count, reverse=True)`, which is stable. */
  function SortDesc(bs: seq<Bucket>): (r: seq<Bucket>)
    ensures multiset(r) == multiset(bs)
  {
    if bs == [] then []
    else
      assert bs == [bs[0]] + bs[1..];
      Insert(bs[0], SortDesc(bs[1..]))
  }

  lemma {:induction false} InsertSorted(x: Bucket, t: seq<Bucket>)
    requires SortedDesc(t)
    ensures SortedDesc(Insert(x, t))
    decreases |t|
  {
    if !(t == [] || x.count >= t[0].count) {
      var u := Insert(x, t[1..]);
      InsertSorted(x, t[1..]);
      forall y | y in u ensures y.count <= t[0].count {
        assert y in multiset(u);
        if y != x {
          assert y in t[1..];
        }
      }
    }
  }

  /** The entries of one count keep their relative order. */
  lemma {:induction false} InsertStable(x: Bucket, t: seq<Bucket>, v: nat)
    ensures Select(Insert(x, t), CountIs(v)) == (if x.count == v then [x] else []) + Select(t, CountIs(v))
    decreases |t|
  {
    if t == [] || x.count >= t[0].count {
      assert ([x] + t)[1..] == t;
    } else {
      InsertStable(x, t[1..], v);
      var r := Insert(x, t);
      assert r[0] == t[0] && r[1..] == Insert(x, t[1..]);
    }
  }

  /** The result is sorted by decreasing count, is a permutation of the
      input, and ties keep their input order: together these determine it. */
  lemma {:induction false} SortDescSpec(bs: seq<Bucket>)
    ensures SortedDesc(SortDesc(bs))
    ensures multiset(SortDesc(bs)) == multiset(bs)
    ensures forall v :: Select(SortDesc(bs), CountIs(v)) == Select(bs, CountIs(v))
    decreases |bs|
  {
    if bs != [] {
      SortDescSpec(bs[1..]);
      InsertSorted(bs[0], SortDesc(bs[1..]));
      forall v ensures Select(SortDesc(bs), CountIs(v)) == Select(bs, CountIs(v)) {
        InsertStable(bs[0], SortDesc(bs[1..]), v);
      }
    }
  }

  const TopColors: nat := 10

  /** `Counter.most_common(10)`: the ten largest counts, ties in insertion
      order. */
  function MostCommon(bs: seq<Bucket>): (r: seq<Bucket>)
    ensures |r| == if |bs| < TopColors then |bs| else TopColors
  {
    var s := SortDesc(bs);
    assert |s| == |bs| by { assert |multiset(s)| == |multiset(bs)|; }
    s[..if |s| < TopColors then |s| else TopColors]
  }

  /** The kept entries are sorted, come from the input, and no entry left
      out has a larger count than any entry kept. */
  lemma MostCommonSpec(bs: seq<Bucket>)
    ensures SortedDesc(MostCommon(bs))
    ensures multiset(MostCommon(bs)) <= multiset(bs)
    ensures forall x, y :: x in multiset(bs) - multiset(MostCommon(bs)) && y in MostCommon(bs) ==> x.count <= y.count
  {
    var s := SortDesc(bs);
    SortDescSpec(bs);
    var r := MostCommon(bs);
    var rest := s[|r|..];
    assert s == r + rest;
    assert multiset(s) == multiset(r) + multiset(rest);
    PrefixDominates(s, |r|);
    forall x | x in multiset(bs) - multiset(r) ensures x in rest {
    }
  }

  lemma PrefixDominates(s: seq<Bucket>, n: nat)
    requires SortedDesc(s) && n <= |s|
    ensures SortedDesc(s[..n])
    ensures forall x, y :: x in s[n..] && y in s[..n] ==> x.count <= y.count
  {
    forall x, y | x in s[n..] && y in s[..n] ensures x.count <= y.count {
      var a :| 0 <= a < n && s[..n][a] == y;
      var b :| 0 <= b < |s| - n && s[n..][b] == x;
      assert s[a] == y && s[n + b] == x;
    }
  }

  lemma ApartSym(a: Bucket, b: Bucket)
    ensures DistanceSq(a.color.rgb, b.color.rgb) == DistanceSq(b.color.rgb, a.color.rgb)
  {
    DistanceSymmetric(a.color.rgb, b.color.rgb);
  }

  lemma ApartCons(x: Bucket, t: seq<Bucket>)
    requires Apart(t)
    requires forall y :: y in t ==> DistanceSq(x.color.rgb, y.color.rgb) >= 900
    ensures Apart([x] + t)
  {
    var r := [x] + t;
    forall i, j | 0 <= i < j < |r| ensures DistanceSq(r[i].color.rgb, r[j].color.rgb) >= 900 {
      if i == 0 {
        assert r[j] == t[j - 1];
      } else {
        assert r[i] == t[i - 1] && r[j] == t[j - 1];
      }
    }
  }

  lemma ApartTail(t: seq<Bucket>)
    requires Apart(t) && t != []
    ensures Apart(t[1..])
    ensures forall y :: y in t[1..] ==> DistanceSq(t[0].color.rgb, y.color.rgb) >= 900
  {
    var u := t[1..];
    forall i, j | 0 <= i < j < |u| ensures DistanceSq(u[i].color.rgb, u[j].color.rgb) >= 900 {
      assert u[i] == t[i + 1] && u[j] == t[j + 1];
    }
    forall y | y in u ensures DistanceSq(t[0].color.rgb, y.color.rgb) >= 900 {
      var k :| 0 <= k < |u| && u[k] == y;
      assert t[k + 1] == y;
    }
  }

  lemma {:induction false} InsertApart(x: Bucket, t: seq<Bucket>)
    requires Apart(t)
    requires forall y :: y in t ==> DistanceSq(x.color.rgb, y.color.rgb) >= 900
    ensures Apart(Insert(x, t))
    decreases |t|
  {
    if t == [] || x.count >= t[0].count {
      ApartCons(x, t);
    } else {
      var u := Insert(x, t[1..]);
      ApartTail(t);
      InsertApart(x, t[1..]);
      forall y | y in u ensures DistanceSq(t[0].color.rgb, y.color.rgb) >= 900 {
        assert y in multiset(u);
        if y == x {
          ApartSym(x, t[0]);
        } else {
          assert y in t[1..];
        }
      }
      ApartCons(t[0], u);
    }
  }

  /** Reordering keeps keys apart. */
  lemma {:induction false} SortApart(bs: seq<Bucket>)
    requires Apart(bs)
    ensures Apart(SortDesc(bs))
    decreases |bs|
  {
    if bs != [] {
      var tail := bs[1..];
      ApartTail(bs);
      SortApart(tail);
      forall y | y in SortDesc(tail) ensures DistanceSq(bs[0].color.rgb, y.color.rgb) >= 900 {
        assert y in multiset(SortDesc(tail));
      }
      InsertApart(bs[0], SortDesc(tail));
    }
  }

  lemma ApartPrefix(s: seq<Bucket>, n: nat)
    requires Apart(s) && n <= |s|
    ensures Apart(s[..n])
  {
    assert forall i :: 0 <= i < n ==> s[..n][i] == s[i];
  }

  /** What `_rank_colors` returns: filter, count, merge, keep the ten most
      frequent. */
  function Ranked(colors: seq<string>): Result<seq<Bucket>>
  {
    var kept :- FilterColors(colors);
    Ok(MostCommon(Groups(Tally(kept))))
  }

  /** `_rank_colors` */
  method RankColors(colors: seq<string>) returns (res: Result<seq<Bucket>>)
    ensures res == Ranked(colors)
  {
    var kept :- FilterColors(colors);
    var counts := Tally(kept);
    TallySpec(kept);
    var clustered := ClusterSimilar(counts);
    return Ok(MostCommon(clustered));
  }

  /** Ranking fails exactly when some colour does not parse; otherwise it
      yields at most ten entries by decreasing count, whose keys are
      colours of the input that survived the filter, pairwise 30 or more
      apart. */
  lemma RankedSpec(colors: seq<string>)
    ensures Ranked(colors).Ok? <==> forall k :: 0 <= k < |colors| ==> HexToRgb(colors[k]).Ok?
    ensures Ranked(colors).Ok? ==>
      && |Ranked(colors).value| <= TopColors
      && SortedDesc(Ranked(colors).value)
      && Apart(Ranked(colors).value)
      && forall i :: 0 <= i < |Ranked(colors).value| ==> KeptColor(colors, Ranked(colors).value[i].color)
  {
    FilterOk(colors, HexToRgb);
    var f := FilterColors(colors);
    if f.Ok? {
      var counts := Tally(f.value);
      var g := Groups(counts);
      var r := MostCommon(g);
      ClusterKeysApart(counts);
      SortApart(g);
      ApartPrefix(SortDesc(g), |r|);
      MostCommonSpec(g);
      FilterKept(colors, HexToRgb);
      RankedKept(colors, f.value, g, r);
    }
  }

  /** A colour of the input that parses to `t.rgb` and was not dropped. */
  predicate KeptColor(colors: seq<string>, t: Tagged)
  {
    t.hex in colors && HexToRgb(t.hex) == Ok(t.rgb) && !Dropped(t.rgb)
  }

  lemma RankedKept(colors: seq<string>, kept: seq<Tagged>, g: seq<Bucket>, r: seq<Bucket>)
    requires forall t :: t in kept ==> KeptColor(colors, t)
    requires g == Groups(Tally(kept)) && multiset(r) <= multiset(g)
    ensures forall i :: 0 <= i < |r| ==> KeptColor(colors, r[i].color)
  {
    var counts := Tally(kept);
    TallySpec(kept);
    ClusterKeysInOrder(counts);
    SubseqMembers(Keys(g), Keys(counts));
    forall i | 0 <= i < |r| ensures KeptColor(colors, r[i].color) {
      assert r[i] in multiset(g);
      var k :| 0 <= k < |g| && g[k] == r[i];
      assert Keys(g)[k] == r[i].color;
      assert r[i].color in kept;
    }
  }

  // ---- the palette ----

  /** The three notations `_build_palette` stores beside a colour's hex. */
  datatype Notations = Notations(rgb: string, cmyk: string, pantone: string)

  /** `f"{r}, {g}, {b}"` */
  function RgbText(c: Rgb): string
  {
    Decimal(c.r) + ", " + Decimal(c.g) + ", " + Decimal(c.b)
  }

  /** The channels as text, `rgb_to_cmyk` and `find_nearest_pantone` of a
      parsed colour. */
  function ColorNotations(c: Rgb): Notations
  {
    Notations(RgbText(c), RgbToCmyk(c), PantoneMatch(c))
  }

  /** The entry `make_color_spec` builds for a ranked colour once the
      validator has accepted its hex; `notes` computes the notations. */
  function Described(t: Tagged, name: string, notes: Rgb -> Notations): ColorSpec
  {
    var n := notes(t.rgb);
    ColorSpec(name, Upper(t.hex), Some(n.rgb), Some(n.cmyk), Some(n.pantone))
  }

  /** `make_color_spec` for the slot called `name`. */
  function MakeSpec(t: Tagged, name: string, notes: Rgb -> Notations): Result<ColorSpec>
  {
    if HexPattern(t.hex) then Ok(Described(t, name, notes)) else Err(InvalidHexMessage)
  }

  /** `MakeSpec` is what the `ColorSpec` validator makes of the colour's
      name, hex and notations: rejected exactly when the hex is not `#RRGGBB`. */
  lemma MakeSpecValidates(t: Tagged, name: string, notes: Rgb -> Notations)
    ensures var n := notes(t.rgb);
      MakeSpec(t, name, notes) == MakeColorSpec(name, t.hex, Some(n.rgb), Some(n.cmyk), Some(n.pantone))
  {
  }

  /** The name of palette slot `i`: the three main colours, then
      `Neutral 1` to `Neutral 4`. */
  function SlotName(i: nat): string
  {
    if i == 0 then "Primary"
    else if i == 1 then "Secondary"
    else if i == 2 then "Accent"
    else "Neutral " + Decimal(i - 2)
  }

  /** The entries for slots `first`, `first + 1`, ... in that order; the
      first hex the validator rejects raises. */
  function Entries(cs: seq<Tagged>, first: nat, notes: Rgb -> Notations): (r: Result<seq<ColorSpec>>)
    ensures r.Ok? ==> |r.value| == |cs|
  {
    if cs == [] then Ok([])
    else
      var h :- MakeSpec(cs[0], SlotName(first), notes);
      var rest :- Entries(cs[1..], first + 1, notes);
      Ok([h] + rest)
  }

  /** The run succeeds exactly when every hex passes the validator. */
  lemma {:induction false} EntriesOk(cs: seq<Tagged>, first: nat, notes: Rgb -> Notations)
    ensures Entries(cs, first, notes).Ok? <==> forall k :: 0 <= k < |cs| ==> HexPattern(cs[k].hex)
    ensures Entries(cs, first, notes).Err? ==> Entries(cs, first, notes).error == InvalidHexMessage
  {
    if cs != [] {
      EntriesOk(cs[1..], first + 1, notes);
      assert forall k :: 1 <= k < |cs| ==> cs[1..][k - 1] == cs[k];
    }
  }

  /** Slot `first + k` describes the colour at position `k`. */
  lemma {:induction false} EntryAt(cs: seq<Tagged>, first: nat, notes: Rgb -> Notations, k: nat)
    requires Entries(cs, first, notes).Ok? && k < |cs|
    ensures Entries(cs, first, notes).value[k] == Described(cs[k], SlotName(first + k), notes)
    decreases k
  {
    if k > 0 {
      EntryAt(cs[1..], first + 1, notes, k - 1);
      EntriesTail(cs, first, notes, k);
    }
  }

  lemma EntriesTail(cs: seq<Tagged>, first: nat, notes: Rgb -> Notations, k: nat)
    requires Entries(cs, first, notes).Ok? && 0 < k < |cs|
    ensures Entries(cs[1..], first + 1, notes).Ok?
    ensures Entries(cs, first, notes).value[k] == Entries(cs[1..], first + 1, notes).value[k - 1]
    ensures cs[1..][k - 1] == cs[k] && first + 1 + (k - 1) == first + k
  {
  }

  /** The palette used when no colour survived ranking. */
  const DefaultPalette: ColorPalette := ColorPalette(
    ColorSpec("Primary", "#1A1A2E", None, None, None),
    Some(ColorSpec("Secondary", "#4A4A6A", None, None, None)),
    Some(ColorSpec("Accent", "#0066FF", None, None, None)),
    [])

  /** Each default entry is what the `ColorSpec` validator makes of it. */
  lemma DefaultPaletteValidates()
    ensures MakeColorSpec("Primary", "#1A1A2E", None, None, None) == Ok(DefaultPalette.primary)
    ensures MakeColorSpec("Secondary", "#4A4A6A", None, None, None) == Ok(DefaultPalette.secondary.value)
    ensures MakeColorSpec("Accent", "#0066FF", None, None, None) == Ok(DefaultPalette.accent.value)
  {
    assert Upper("#1A1A2E") == "#1A1A2E";
    assert Upper("#4A4A6A") == "#4A4A6A";
    assert Upper("#0066FF") == "#0066FF";
  }

  /** Primary, secondary, accent and four neutrals. */
  const PaletteSlots: nat := 7

  /** `_build_palette`: the first seven ranked colours fill primary,
      secondary, accent and the neutrals, in that order. `notes` computes
      each colour's notations; `Palette` passes `ColorNotations`. */
  function BuildPalette(ranked: seq<Bucket>, notes: Rgb -> Notations): Result<ColorPalette>
  {
    if ranked == [] then Ok(DefaultPalette)
    else
      var n := if |ranked| < PaletteSlots then |ranked| else PaletteSlots;
      var es :- Entries(Keys(ranked)[..n], 0, notes);
      Ok(ColorPalette(es[0],
                      if n > 1 then Some(es[1]) else None,
                      if n > 2 then Some(es[2]) else None,
                      if n > 3 then es[3..] else []))
  }

  /** With no colours the defaults are used; otherwise the palette is built
      exactly when the first seven ranked hexes pass the validator. */
  lemma BuildPaletteOk(ranked: seq<Bucket>, notes: Rgb -> Notations)
    ensures ranked == [] ==> BuildPalette(ranked, notes) == Ok(DefaultPalette)
    ensures ranked != [] ==>
      (BuildPalette(ranked, notes).Ok? <==>
       forall i :: 0 <= i < |ranked| && i < PaletteSlots ==> HexPattern(ranked[i].color.hex))
    ensures BuildPalette(ranked, notes).Err? ==> BuildPalette(ranked, notes).error == InvalidHexMessage
  {
    if ranked != [] {
      var n := if |ranked| < PaletteSlots then |ranked| else PaletteSlots;
      var cs := Keys(ranked)[..n];
      assert forall i :: 0 <= i < n ==> cs[i] == ranked[i].color;
      EntriesOk(cs, 0, notes);
    }
  }

  /** Slot `i` of the palette describes rank `i`. */
  lemma PaletteEntry(ranked: seq<Bucket>, notes: Rgb -> Notations, i: nat)
    requires ranked != [] && BuildPalette(ranked, notes).Ok? && i < |ranked| && i < PaletteSlots
    ensures var n := if |ranked| < PaletteSlots then |ranked| else PaletteSlots;
      Entries(Keys(ranked)[..n], 0, notes).value[i] == Described(ranked[i].color, SlotName(i), notes)
  {
    var n := if |ranked| < PaletteSlots then |ranked| else PaletteSlots;
    var cs := Keys(ranked)[..n];
    assert cs[i] == ranked[i].color;
    EntryAt(cs, 0, notes, i);
  }

  /** Ranks 1, 2 and 3 give primary, secondary and accent, each holding
      that colour's hex and notations. */
  lemma BuildPaletteMain(ranked: seq<Bucket>, notes: Rgb -> Notations)
    requires ranked != [] && BuildPalette(ranked, notes).Ok?
    ensures BuildPalette(ranked, notes).value.primary == Described(ranked[0].color, "Primary", notes)
    ensures BuildPalette(ranked, notes).value.secondary.Some? <==> |ranked| > 1
    ensures |ranked| > 1 ==>
      BuildPalette(ranked, notes).value.secondary.value == Described(ranked[1].color, "Secondary", notes)
    ensures BuildPalette(ranked, notes).value.accent.Some? <==> |ranked| > 2
    ensures |ranked| > 2 ==>
      BuildPalette(ranked, notes).value.accent.value == Described(ranked[2].color, "Accent", notes)
  {
    PaletteEntry(ranked, notes, 0);
    if |ranked| > 1 {
      PaletteEntry(ranked, notes, 1);
    }
    if |ranked| > 2 {
      PaletteEntry(ranked, notes, 2);
    }
  }

  /** Ranks 4 to 7, as far as there are colours, give `Neutral 1` to
      `Neutral 4`. */
  lemma BuildPaletteNeutrals(ranked: seq<Bucket>, notes: Rgb -> Notations)
    requires ranked != [] && BuildPalette(ranked, notes).Ok?
    ensures |BuildPalette(ranked, notes).value.neutrals| ==
      if |ranked| <= 3 then 0 else if |ranked| < PaletteSlots then |ranked| - 3 else PaletteSlots - 3
    ensures forall k :: 0 <= k < |BuildPalette(ranked, notes).value.neutrals| ==>
      BuildPalette(ranked, notes).value.neutrals[k] ==
        Described(ranked[3 + k].color, "Neutral " + Decimal(k + 1), notes)
  {
    var n := if |ranked| < PaletteSlots then |ranked| else PaletteSlots;
    var es := Entries(Keys(ranked)[..n], 0, notes).value;
    var ns := BuildPalette(ranked, notes).value.neutrals;
    forall k | 0 <= k < |ns| ensures ns[k] == Described(ranked[3 + k].color, "Neutral " + Decimal(k + 1), notes) {
      PaletteEntry(ranked, notes, 3 + k);
      assert ns[k] == es[3 + k];
      assert SlotName(3 + k) == "Neutral " + Decimal(k + 1);
    }
  }

  /** What `extract` returns for the colours it found. */
  function Palette(colors: seq<string>): Result<ColorPalette>
  {
    var ranked :- Ranked(colors);
    BuildPalette(ranked, ColorNotations)
  }

  /** `extract`: the stylesheet colours, then the image colours, ranked and
      laid out as a palette. */
  method Extract(hexMatches: seq<string>, rgbMatches: seq<RgbMatch>, hslColors: seq<string>,
                 palettes: seq<Option<seq<Rgb>>>) returns (res: Result<ColorPalette>)
    ensures res == Palette(CssColors(hexMatches, rgbMatches, hslColors) +
                           ImageColors(palettes[..if |palettes| < MaxImages then |palettes| else MaxImages]))
  {
    var cssColors := ExtractFromCss(hexMatches, rgbMatches, hslColors);
    var imageColors := ExtractFromImages(palettes);
    var ranked :- RankColors(cssColors + imageColors);
    return BuildPalette(ranked, ColorNotations);
  }

  /** A ranked colour that is canonical passes the validator. */
  lemma CanonicalPasses(s: string)
    requires IsCanonicalHex(s)
    ensures HexPattern(s) && HexToRgb(s).Ok?
  {
    SixDigitHexParses(s);
  }

  predicate AllCanonical(colors: seq<string>)
  {
    forall k :: 0 <= k < |colors| ==> IsCanonicalHex(colors[k])
  }

  lemma AllCanonicalAppend(a: seq<string>, b: seq<string>)
    requires AllCanonical(a) && AllCanonical(b)
    ensures AllCanonical(a + b)
  {
    assert forall k :: |a| <= k < |a + b| ==> (a + b)[k] == b[k - |a|];
  }

  /** When every colour found is a canonical `#RRGGBB` (hex literals
      always are, `rgb()` matches are when their channels are at most 255,
      image colours always are), extraction yields a palette. */
  lemma PaletteOfCanonical(colors: seq<string>)
    requires AllCanonical(colors)
    ensures Palette(colors).Ok?
  {
    forall k | 0 <= k < |colors| ensures HexToRgb(colors[k]).Ok? {
      CanonicalPasses(colors[k]);
    }
    RankedSpec(colors);
    var ranked := Ranked(colors).value;
    forall i | 0 <= i < |ranked| ensures HexPattern(ranked[i].color.hex) {
      assert KeptColor(colors, ranked[i].color);
      CanonicalPasses(ranked[i].color.hex);
    }
    BuildPaletteOk(ranked, ColorNotations);
  }

  lemma ExtractedCanonical(hexMatches: seq<string>, rgbMatches: seq<RgbMatch>, hslColors: seq<string>,
                           images: seq<Option<seq<Rgb>>>)
    requires forall i :: 0 <= i < |hexMatches| ==> IsHexLiteral(hexMatches[i])
    requires forall i :: 0 <= i < |rgbMatches| ==> rgbMatches[i].r <= 255 && rgbMatches[i].g <= 255 && rgbMatches[i].b <= 255
    requires AllCanonical(hslColors)
    ensures Palette(CssColors(hexMatches, rgbMatches, hslColors) + ImageColors(images)).Ok?
  {
    var css := CssColors(hexMatches, rgbMatches, hslColors);
    CssColorsSpec(hexMatches, rgbMatches, hslColors);
    var h, r := |hexMatches|, |rgbMatches|;
    forall k | 0 <= k < |css| ensures IsCanonicalHex(css[k]) {
      if k < h {
        CanonicalLiteralSpec(hexMatches[k]);
      } else if k < h + r {
        assert css[k] == MatchHex(rgbMatches[k - h]);
      } else {
        assert css[k] == css[h + r..][k - h - r];
      }
    }
    AllCanonicalAppend(css, ImageColors(images));
    PaletteOfCanonical(css + ImageColors(images));
  }
}
