/** Colour arithmetic: hex and RGB conversion, CMYK, distance, the
    near-white and near-black tests and the nearest swatch lookup.
    Distances are kept squared: `d < 30` is `DistanceSq < 900` and
    `d < 100` is `DistanceSq < 10000`. */
module ColorUtils {
  import opened Wrappers
  import opened Text

  type Channel = x: int | 0 <= x <= 255

  datatype Rgb = Rgb(r: Channel, g: Channel, b: Channel)

  /** `#` followed by exactly six upper-case hex digits. */
  predicate IsCanonicalHex(s: string)
  {
    |s| == 7 && s[0] == '#' && forall k :: 1 <= k < 7 ==> IsHexDigit(s[k]) && !IsLowerLetter(s[k])
  }

  /** `int(t, 16)` on a slice of at most two characters; `None` is the
      `ValueError` it raises. */
  function ParsePair(t: string): Option<Channel>
    requires |t| <= 2
  {
    if |t| == 1 && IsHexDigit(t[0]) then Some(HexValue(t[0]))
    else if |t| == 2 && IsHexDigit(t[0]) && IsHexDigit(t[1]) then Some(HexValue(t[0]) * 16 + HexValue(t[1]))
    else None
  }

  function BadPair(t: string): string
  {
    "invalid literal for int() with base 16: '" + t + "'"
  }

  /** `hex_to_rgb`: strip every leading `#`, then read the digits. */
  function HexToRgb(hex: string): Result<Rgb>
  {
    RgbOfDigits(TrimStart(hex, {'#'}))
  }

  /** After the leading `#`s, five hex digits parse (the third slice then
      holds one), and six read as three base-16 pairs. */
  lemma HexToRgbSpec(hex: string)
    ensures HexToRgb(hex).Ok? <==> DigitsParse(TrimStart(hex, {'#'}))
    ensures HexToRgb(hex).Ok? && |TrimStart(hex, {'#'})| >= 6 ==> HexToRgb(hex).value == PairsValue(TrimStart(hex, {'#'}))
  {
  }

  /** At least five characters, the first five (and the sixth if present)
      hex digits. */
  predicate DigitsParse(t: string)
  {
    && |t| >= 5 && IsHexDigit(t[0]) && IsHexDigit(t[1]) && IsHexDigit(t[2])
    && IsHexDigit(t[3]) && IsHexDigit(t[4]) && (|t| >= 6 ==> IsHexDigit(t[5]))
  }

  /** The colour six hex digits spell. */
  function PairsValue(t: string): Rgb
    requires |t| >= 6 && forall k :: 0 <= k < 6 ==> IsHexDigit(t[k])
  {
    Rgb(HexValue(t[0]) * 16 + HexValue(t[1]), HexValue(t[2]) * 16 + HexValue(t[3]), HexValue(t[4]) * 16 + HexValue(t[5]))
  }

  /** The slices [0:2], [2:4] and [4:6] of the stripped text read in base
      16; the first slice that does not parse raises. */
  function RgbOfDigits(t: string): (res: Result<Rgb>)
    ensures res.Ok? <==> DigitsParse(t)
    ensures res.Ok? && |t| >= 6 ==> res.value == PairsValue(t)
  {
    var r, g, b := Slice(t, 0, 2), Slice(t, 2, 4), Slice(t, 4, 6);
    PairAt(t, 0);
    PairAt(t, 2);
    PairAt(t, 4);
    var x, y, z := ParsePair(r), ParsePair(g), ParsePair(b);
    if x.None? then Err(BadPair(r))
    else if y.None? then Err(BadPair(g))
    else if z.None? then Err(BadPair(b))
    else Ok(Rgb(x.value, y.value, z.value))
  }

  /** The slice `t[i:i+2]` parses exactly when it is non-empty and all hex
      digits; a full pair reads as two base-16 digits. */
  lemma PairAt(t: string, i: nat)
    ensures ParsePair(Slice(t, i, i + 2)).Some? <==>
      |t| > i && IsHexDigit(t[i]) && (|t| > i + 1 ==> IsHexDigit(t[i + 1]))
    ensures ParsePair(Slice(t, i, i + 2)).Some? && |t| >= i + 2 ==>
      ParsePair(Slice(t, i, i + 2)).value == HexValue(t[i]) * 16 + HexValue(t[i + 1])
  {
    var p := Slice(t, i, i + 2);
    if |t| >= i + 2 {
      assert p == [t[i], t[i + 1]];
    } else if |t| == i + 1 {
      assert p == [t[i]];
    } else {
      assert p == [];
    }
  }

  /** `rgb_to_hex` and the `f'#{r:02X}{g:02X}{b:02X}'` formatting the
      extractor uses: a channel above 255 gives more than two digits. */
  function RgbToHex(r: nat, g: nat, b: nat): (s: string)
    ensures |s| >= 7 && s[0] == '#'
    ensures forall k :: 1 <= k < |s| ==> IsHexDigit(s[k]) && !IsLowerLetter(s[k])
    ensures IsCanonicalHex(s) <==> r <= 255 && g <= 255 && b <= 255
  {
    var s := "#" + Hex2(r) + Hex2(g) + Hex2(b);
    assert forall k :: 1 <= k < |s| ==> IsHexDigit(s[k]) && !IsLowerLetter(s[k]);
    s
  }

  /** Converting a colour to hex and back gives the same colour. */
  lemma RgbHexRoundTrip(c: Rgb)
    ensures HexToRgb(RgbToHex(c.r, c.g, c.b)) == Ok(c)
  {
    var s := RgbToHex(c.r, c.g, c.b);
    var x, y, z := Hex2(c.r), Hex2(c.g), Hex2(c.b);
    assert s == "#" + x + y + z;
    assert s[1] == x[0] && s[2] == x[1] && s[3] == y[0] && s[4] == y[1] && s[5] == z[0] && s[6] == z[1];
    PairsParse(s, c);
  }

  lemma PairsParse(s: string, c: Rgb)
    requires |s| >= 7 && s[0] == '#' && forall k :: 1 <= k < 7 ==> IsHexDigit(s[k])
    requires HexValue(s[1]) * 16 + HexValue(s[2]) == c.r
    requires HexValue(s[3]) * 16 + HexValue(s[4]) == c.g
    requires HexValue(s[5]) * 16 + HexValue(s[6]) == c.b
    ensures HexToRgb(s) == Ok(c)
  {
    SixDigitHexParses(s);
  }

  /** A literal starting with six digits, in either case, parses to its three
      pairs whatever follows them. */
  lemma SixDigitHexParses(s: string)
    requires |s| >= 7 && s[0] == '#' && forall k :: 1 <= k < 7 ==> IsHexDigit(s[k])
    ensures HexToRgb(s) == Ok(Rgb(HexValue(s[1]) * 16 + HexValue(s[2]),
                                  HexValue(s[3]) * 16 + HexValue(s[4]),
                                  HexValue(s[5]) * 16 + HexValue(s[6])))
  {
    assert TrimStart(s, {'#'}) == s[1..] by {
      assert s[1..] == TrimStart(s[1..], {'#'});
    }
  }

  /** `hex_to_rgb(rgb_to_hex(*hex_to_rgb(h))) == hex_to_rgb(h)`. */
  lemma HexRoundTripStable(h: string)
    requires HexToRgb(h).Ok?
    ensures var c := HexToRgb(h).value; HexToRgb(RgbToHex(c.r, c.g, c.b)) == HexToRgb(h)
  {
    RgbHexRoundTrip(HexToRgb(h).value);
  }

  // ---- CMYK ----

  /** Python's `int(x)`: truncation toward zero. */
  function Int(x: real): int
  {
    if x >= 0.0 then x.Floor else -((-x).Floor)
  }

  function Min3(a: real, b: real, c: real): real
  {
    if a <= b && a <= c then a else if b <= c then b else c
  }

  datatype Cmyk = Cmyk(c: int, m: int, y: int, k: int)

  /** `1 - ch / 255` */
  function Inverse(ch: Channel): (x: real)
    ensures 0.0 <= x <= 1.0
    ensures x == 1.0 <==> ch == 0
  {
    1.0 - ch as real / 255.0
  }

  lemma InverseAntitone(a: Channel, b: Channel)
    requires a >= b
    ensures Inverse(a) <= Inverse(b)
  {
  }

  lemma RatioAtMostOne(x: real, d: real)
    requires 0.0 <= x <= d && d > 0.0
    ensures 0.0 <= x / d <= 1.0
  {
    assert x / d * d == x;
  }

  /** `int((x - k) / (1 - k) * 100)` */
  function Percent(x: real, k: real): (p: int)
    requires k <= x <= 1.0 && k < 1.0
    ensures 0 <= p <= 100
    ensures x == k ==> p == 0
  {
    RatioAtMostOne(x - k, 1.0 - k);
    assert 0.0 <= (x - k) / (1.0 - k) * 100.0 <= 100.0;
    Int((x - k) / (1.0 - k) * 100.0)
  }

  /** The four integers `rgb_to_cmyk` prints, computed on exact reals. */
  function CmykOf(rgb: Rgb): (res: Cmyk)
    ensures 0 <= res.c <= 100 && 0 <= res.m <= 100 && 0 <= res.y <= 100 && 0 <= res.k <= 100
  {
    if rgb.r == 0 && rgb.g == 0 && rgb.b == 0 then Cmyk(0, 0, 0, 100)
    else
      var c, m, y := Inverse(rgb.r), Inverse(rgb.g), Inverse(rgb.b);
      var k := Min3(c, m, y);
      if k == 1.0 then Cmyk(0, 0, 0, 100)
      else
        assert 0.0 <= k * 100.0 <= 100.0;
        Cmyk(Percent(c, k), Percent(m, k), Percent(y, k), Int(k * 100.0))
  }

  /** `rgb_to_cmyk`: `"c, m, y, k"` in percent. */
  function RgbToCmyk(rgb: Rgb): string
  {
    var q := CmykOf(rgb);
    Decimal(q.c) + ", " + Decimal(q.m) + ", " + Decimal(q.y) + ", " + Decimal(q.k)
  }

  lemma CmykOfBlack()
    ensures RgbToCmyk(Rgb(0, 0, 0)) == "0, 0, 0, 100"
  {
    assert Decimal(100) == "100" by {
      assert Decimal(10) == "10";
    }
  }

  lemma CmykOfWhite()
    ensures RgbToCmyk(Rgb(255, 255, 255)) == "0, 0, 0, 0"
  {
    var q := CmykOf(Rgb(255, 255, 255));
    assert q == Cmyk(0, 0, 0, 0);
  }

  /** The second guard (`k == 1`) holds only for pure black, which the
      first guard has already returned. */
  lemma KIsOneOnlyForBlack(rgb: Rgb)
    ensures Min3(Inverse(rgb.r), Inverse(rgb.g), Inverse(rgb.b)) == 1.0
            <==> rgb.r == 0 && rgb.g == 0 && rgb.b == 0
  {
  }

  /** The component of the brightest channel is 0. */
  lemma BrightestChannelIsZero(rgb: Rgb)
    requires !(rgb.r == 0 && rgb.g == 0 && rgb.b == 0)
    ensures rgb.r >= rgb.g && rgb.r >= rgb.b ==> CmykOf(rgb).c == 0
    ensures rgb.g >= rgb.r && rgb.g >= rgb.b ==> CmykOf(rgb).m == 0
    ensures rgb.b >= rgb.r && rgb.b >= rgb.g ==> CmykOf(rgb).y == 0
  {
    var c, m, y := Inverse(rgb.r), Inverse(rgb.g), Inverse(rgb.b);
    KIsOneOnlyForBlack(rgb);
    if rgb.r >= rgb.g && rgb.r >= rgb.b {
      InverseAntitone(rgb.r, rgb.g);
      InverseAntitone(rgb.r, rgb.b);
      assert Min3(c, m, y) == c;
    }
    if rgb.g >= rgb.r && rgb.g >= rgb.b {
      InverseAntitone(rgb.g, rgb.r);
      InverseAntitone(rgb.g, rgb.b);
      assert Min3(c, m, y) == m;
    }
    if rgb.b >= rgb.r && rgb.b >= rgb.g {
      InverseAntitone(rgb.b, rgb.r);
      InverseAntitone(rgb.b, rgb.g);
      assert Min3(c, m, y) == y;
    }
  }

  // ---- distance ----

  function Sq(x: int): nat
  {
    x * x
  }

  lemma SqBound(x: int)
    requires -255 <= x <= 255
    ensures Sq(x) <= 255 * 255
  {
    if x < 0 {
      assert Sq(x) == Sq(-x);
      assert -x * -x <= 255 * -x <= 255 * 255;
    } else {
      assert x * x <= 255 * x <= 255 * 255;
    }
  }

  /** `color_distance` squared: at most `3 * 255^2` (black against white). */
  function DistanceSq(a: Rgb, b: Rgb): (d: nat)
    ensures d <= 3 * 255 * 255
  {
    SqBound(a.r - b.r);
    SqBound(a.g - b.g);
    SqBound(a.b - b.b);
    Sq(a.r - b.r) + Sq(a.g - b.g) + Sq(a.b - b.b)
  }

  /** The distance is 0 exactly on identical colours. */
  lemma DistanceZeroIff(a: Rgb, b: Rgb)
    ensures DistanceSq(a, b) == 0 <==> a == b
  {
    if DistanceSq(a, b) == 0 {
      assert Sq(a.r - b.r) == 0 && Sq(a.g - b.g) == 0 && Sq(a.b - b.b) == 0;
    }
  }

  lemma DistanceSymmetric(a: Rgb, b: Rgb)
    ensures DistanceSq(a, b) == DistanceSq(b, a)
  {
    assert Sq(a.r - b.r) == Sq(b.r - a.r);
    assert Sq(a.g - b.g) == Sq(b.g - a.g);
    assert Sq(a.b - b.b) == Sq(b.b - a.b);
  }

  /** `color_distance(h1, h2)`: either literal may fail to parse. */
  function ColorDistanceSq(h1: string, h2: string): (res: Result<nat>)
    ensures res.Ok? <==> HexToRgb(h1).Ok? && HexToRgb(h2).Ok?
    ensures res.Ok? ==> res.value == DistanceSq(HexToRgb(h1).value, HexToRgb(h2).value)
  {
    var a :- HexToRgb(h1);
    var b :- HexToRgb(h2);
    Ok(DistanceSq(a, b))
  }

  // ---- near white / near black ----

  const NearWhiteThreshold: int := 240
  const NearBlackThreshold: int := 15

  predicate NearWhite(c: Rgb, threshold: int)
  {
    c.r >= threshold && c.g >= threshold && c.b >= threshold
  }

  predicate NearBlack(c: Rgb, threshold: int)
  {
    c.r <= threshold && c.g <= threshold && c.b <= threshold
  }

  /** With the default thresholds no colour is both near white and near black. */
  lemma NearWhiteExcludesNearBlack(c: Rgb)
    ensures !(NearWhite(c, NearWhiteThreshold) && NearBlack(c, NearBlackThreshold))
  {
  }

  /** `is_near_white(hex)`: raises when `hex` does not parse. */
  function IsNearWhite(hex: string): (res: Result<bool>)
    ensures res.Ok? <==> HexToRgb(hex).Ok?
    ensures res.Ok? ==> (res.value <==> var c := HexToRgb(hex).value;
                                         c.r >= 240 && c.g >= 240 && c.b >= 240)
  {
    var c :- HexToRgb(hex);
    Ok(NearWhite(c, NearWhiteThreshold))
  }

  /** `is_near_black(hex)`: raises when `hex` does not parse. */
  function IsNearBlack(hex: string): (res: Result<bool>)
    ensures res.Ok? <==> HexToRgb(hex).Ok?
    ensures res.Ok? ==> (res.value <==> var c := HexToRgb(hex).value;
                                         c.r <= 15 && c.g <= 15 && c.b <= 15)
  {
    var c :- HexToRgb(hex);
    Ok(NearBlack(c, NearBlackThreshold))
  }

  // ---- nearest swatch ----

  datatype Swatch = Swatch(hex: string, rgb: Rgb, name: string)

  /** `PANTONE_COLORS` in insertion order; each entry keeps the colour its
      hex key denotes (`PantoneHexesParse`). */
  const PantoneColors: seq<Swatch> := [
    Swatch("#FF0000", Rgb(255, 0, 0), "Pantone 185 C"),
    Swatch("#FF6600", Rgb(255, 102, 0), "Pantone 1505 C"),
    Swatch("#FFCC00", Rgb(255, 204, 0), "Pantone 116 C"),
    Swatch("#00FF00", Rgb(0, 255, 0), "Pantone 802 C"),
    Swatch("#00CCFF", Rgb(0, 204, 255), "Pantone 2995 C"),
    Swatch("#0066FF", Rgb(0, 102, 255), "Pantone 2728 C"),
    Swatch("#0000FF", Rgb(0, 0, 255), "Pantone 286 C"),
    Swatch("#6600FF", Rgb(102, 0, 255), "Pantone 2685 C"),
    Swatch("#FF00FF", Rgb(255, 0, 255), "Pantone 807 C"),
    Swatch("#000000", Rgb(0, 0, 0), "Pantone Black C"),
    Swatch("#FFFFFF", Rgb(255, 255, 255), "Pantone White"),
    Swatch("#1A1A2E", Rgb(26, 26, 46), "Pantone 5395 C"),
    Swatch("#4A4A6A", Rgb(74, 74, 106), "Pantone 5275 C")
  ]

  const NoConfidentMatch: string := "Contact Pantone for exact match"

  lemma PantoneHexesParse()
    ensures forall i :: 0 <= i < |PantoneColors| ==> HexToRgb(PantoneColors[i].hex) == Ok(PantoneColors[i].rgb)
  {
    forall i | 0 <= i < |PantoneColors|
      ensures HexToRgb(PantoneColors[i].hex) == Ok(PantoneColors[i].rgb)
    {
      SwatchSpelling(i);
      RgbHexRoundTrip(PantoneColors[i].rgb);
    }
  }

  /** Each key of the table is the canonical spelling of its colour. */
  lemma SwatchSpelling(i: nat)
    requires i < |PantoneColors|
    ensures var c := PantoneColors[i].rgb; PantoneColors[i].hex == RgbToHex(c.r, c.g, c.b)
  {
    var c := PantoneColors[i].rgb;
    Hex2Values();
    assert RgbToHex(c.r, c.g, c.b) == "#" + Hex2(c.r) + Hex2(c.g) + Hex2(c.b);
    if i < 5 {
      SpellingUpTo5(i);
    } else if i < 10 {
      SpellingUpTo10(i);
    } else {
      assert PantoneColors[i].hex == "#" + Hex2(c.r) + Hex2(c.g) + Hex2(c.b);
    }
  }

  lemma SpellingUpTo5(i: nat)
    requires i < 5
    ensures var c := PantoneColors[i].rgb; PantoneColors[i].hex == "#" + Hex2(c.r) + Hex2(c.g) + Hex2(c.b)
  {
    Hex2Values();
  }

  lemma SpellingUpTo10(i: nat)
    requires 5 <= i < 10
    ensures var c := PantoneColors[i].rgb; PantoneColors[i].hex == "#" + Hex2(c.r) + Hex2(c.g) + Hex2(c.b)
  {
    Hex2Values();
  }

  lemma Hex2Values()
    ensures Hex2(0) == "00" && Hex2(255) == "FF" && Hex2(102) == "66" && Hex2(204) == "CC"
    ensures Hex2(26) == "1A" && Hex2(46) == "2E" && Hex2(74) == "4A" && Hex2(106) == "6A"
  {
  }

  /** The index of the first entry of `t[..n]` at minimal distance from `c`. */
  function NearestIn(c: Rgb, t: seq<Swatch>, n: nat): (i: nat)
    requires 0 < n <= |t|
    ensures i < n
  {
    if n == 1 then 0
    else
      var i := NearestIn(c, t, n - 1);
      if DistanceSq(c, t[n - 1].rgb) < DistanceSq(c, t[i].rgb) then n - 1 else i
  }

  /** The entry found is at minimal distance, and no earlier entry is as
      close. */
  lemma {:induction false} NearestInSpec(c: Rgb, t: seq<Swatch>, n: nat)
    requires 0 < n <= |t|
    ensures forall j :: 0 <= j < n ==> DistanceSq(c, t[NearestIn(c, t, n)].rgb) <= DistanceSq(c, t[j].rgb)
    ensures forall j :: 0 <= j < NearestIn(c, t, n) ==> DistanceSq(c, t[NearestIn(c, t, n)].rgb) < DistanceSq(c, t[j].rgb)
  {
    if n > 1 {
      NearestInSpec(c, t, n - 1);
    }
  }

  /** What `find_nearest_pantone` returns for a colour that parsed. */
  function PantoneMatch(c: Rgb): string
  {
    var i := NearestIn(c, PantoneColors, |PantoneColors|);
    if DistanceSq(c, PantoneColors[i].rgb) < 10000 then PantoneColors[i].name else NoConfidentMatch
  }

  /** `find_nearest_pantone`: the name of the nearest swatch when the best
      distance is below 100. `color_distance` parses `hex` afresh on every
      iteration, so a literal that does not parse raises on the first. */
  method FindNearestPantone(hex: string) returns (res: Result<string>)
    ensures HexToRgb(hex).Err? ==> res == Err(HexToRgb(hex).error)
    ensures HexToRgb(hex).Ok? ==> res == Ok(PantoneMatch(HexToRgb(hex).value))
  {
    var parsed := HexToRgb(hex);
    if parsed.Err? {
      return Err(parsed.error);
    }
    var minDistance, nearest := ScanSwatches(parsed.value, PantoneColors);
    if minDistance < 10000 {
      return Ok(nearest);
    }
    return Ok(NoConfidentMatch);
  }

  /** The loop of `find_nearest_pantone` over the swatches `t`: it keeps
      the first strictly smaller distance, starting from infinity. */
  method ScanSwatches(c: Rgb, t: seq<Swatch>) returns (minDistance: nat, nearest: string)
    requires |t| > 0
    ensures minDistance == DistanceSq(c, t[NearestIn(c, t, |t|)].rgb)
    ensures nearest == t[NearestIn(c, t, |t|)].name
  {
    var best: Option<nat> := None;  // float('inf')
    nearest := "N/A";
    var idx := 0;
    for n := 0 to |t|
      invariant n == 0 <==> best.None?
      invariant n > 0 ==> idx == NearestIn(c, t, n)
      invariant n > 0 ==> best == Some(DistanceSq(c, t[idx].rgb))
      invariant n > 0 ==> nearest == t[idx].name
    {
      var distance := DistanceSq(c, t[n].rgb);
      if best.None? || distance < best.value {
        best := Some(distance);
        nearest := t[n].name;
        idx := n;
      }
    }
    minDistance := best.value;
  }

  /** The sentinel is returned exactly when every table entry is 100 or
      more away; otherwise the name is that of the first entry at minimal
      distance. The initial `"N/A"` never escapes. */
  lemma PantoneMatchSpec(c: Rgb)
    ensures PantoneMatch(c) == NoConfidentMatch <==>
      forall j :: 0 <= j < |PantoneColors| ==> DistanceSq(c, PantoneColors[j].rgb) >= 10000
    ensures PantoneMatch(c) != NoConfidentMatch ==>
      exists i :: 0 <= i < |PantoneColors| && PantoneMatch(c) == PantoneColors[i].name
        && (forall j :: 0 <= j < |PantoneColors| ==> DistanceSq(c, PantoneColors[i].rgb) <= DistanceSq(c, PantoneColors[j].rgb))
        && (forall j :: 0 <= j < i ==> DistanceSq(c, PantoneColors[i].rgb) < DistanceSq(c, PantoneColors[j].rgb))
    ensures PantoneMatch(c) != "N/A"
  {
    var i := NearestIn(c, PantoneColors, |PantoneColors|);
    NearestInSpec(c, PantoneColors, |PantoneColors|);
    assert forall j :: 0 <= j < |PantoneColors| ==> PantoneColors[j].name != "N/A" && PantoneColors[j].name != NoConfidentMatch;
    if DistanceSq(c, PantoneColors[i].rgb) >= 10000 {
      assert PantoneMatch(c) == NoConfidentMatch;
    } else {
      assert PantoneMatch(c) == PantoneColors[i].name;
    }
  }

  /** Every swatch of the table is matched to its own name. */
  lemma PantoneMatchesOwnSwatch(k: nat)
    requires k < |PantoneColors|
    ensures PantoneMatch(PantoneColors[k].rgb) == PantoneColors[k].name
  {
    var c := PantoneColors[k].rgb;
    var i := NearestIn(c, PantoneColors, |PantoneColors|);
    NearestInSpec(c, PantoneColors, |PantoneColors|);
    assert DistanceSq(c, PantoneColors[i].rgb) <= DistanceSq(c, PantoneColors[k].rgb) == 0;
    DistanceZeroIff(c, PantoneColors[i].rgb);
    SwatchIndexes();
  }

  /** Where a colour sits in the table, or -1. */
  function SwatchIndex(c: Rgb): int
  {
    if c == Rgb(255, 0, 0) then 0 else if c == Rgb(255, 102, 0) then 1
    else if c == Rgb(255, 204, 0) then 2 else if c == Rgb(0, 255, 0) then 3
    else if c == Rgb(0, 204, 255) then 4 else if c == Rgb(0, 102, 255) then 5
    else if c == Rgb(0, 0, 255) then 6 else if c == Rgb(102, 0, 255) then 7
    else if c == Rgb(255, 0, 255) then 8 else if c == Rgb(0, 0, 0) then 9
    else if c == Rgb(255, 255, 255) then 10 else if c == Rgb(26, 26, 46) then 11
    else if c == Rgb(74, 74, 106) then 12 else -1
  }

  /** No two entries of the table share a colour. */
  lemma SwatchIndexes()
    ensures forall k :: 0 <= k < |PantoneColors| ==> SwatchIndex(PantoneColors[k].rgb) == k
  {
  }
}
