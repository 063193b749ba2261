/** The records the extractors produce: a colour with its derived notations,
    the palette, fonts, logo and the assembled brand, with the defaults and
    list caps the record declarations give them. */
module BrandData {
  import opened Wrappers
  import opened Text
  import opened ColorUtils

  /** `^#[0-9A-Fa-f]{6}$` under `re.match`: Python's `$` also matches just
      before one final newline. */
  predicate HexPattern(v: string)
  {
    && (|v| == 7 || (|v| == 8 && v[7] == '\n'))
    && v[0] == '#'
    && forall k :: 1 <= k < 7 ==> IsHexDigit(v[k])
  }

  const InvalidHexMessage: string := "Invalid hex color format. Expected #RRGGBB"

  /** `ColorSpec.validate_hex`: the value is stored upper-cased, and anything
      that does not match the pattern raises. */
  function ValidateHex(v: string): (r: Result<string>)
    ensures r.Ok? <==> HexPattern(v)
    ensures r.Err? ==> r.error == InvalidHexMessage
    ensures r.Ok? ==> |r.value| == |v| && forall k :: 0 <= k < |v| ==> r.value[k] == UpperChar(v[k])
  {
    if HexPattern(v) then Ok(Upper(v)) else Err(InvalidHexMessage)
  }

  /** A stored hex value is canonical when it has no trailing newline, passes
      the validator again unchanged and denotes the same colour as the input. */
  lemma ValidateHexCanonical(v: string)
    requires ValidateHex(v).Ok?
    ensures var u := ValidateHex(v).value;
      && (|v| == 7 ==> IsCanonicalHex(u))
      && ValidateHex(u) == Ok(u)
      && HexToRgb(u) == HexToRgb(v)
  {
    var u := ValidateHex(v).value;
    assert forall k :: 1 <= k < 7 ==> IsHexDigit(u[k]) && HexValue(u[k]) == HexValue(v[k]);
    assert forall k :: 0 <= k < |u| ==> UpperChar(u[k]) == u[k];
    assert Upper(u) == u;
    SixDigitHexAgree(v, u);
  }

  /** Two strings whose six digits after `#` agree digit by digit parse to
      the same colour. */
  lemma SixDigitHexAgree(v: string, u: string)
    requires |v| >= 7 && |u| >= 7 && v[0] == '#' && u[0] == '#'
    requires forall k :: 1 <= k < 7 ==> IsHexDigit(v[k]) && IsHexDigit(u[k]) && HexValue(u[k]) == HexValue(v[k])
    ensures HexToRgb(u) == HexToRgb(v)
  {
    SixDigitHexParses(v);
    SixDigitHexParses(u);
  }

  /** One entry of the palette. `rgb`, `cmyk` and `pantone` are optional. */
  datatype ColorSpec = ColorSpec(name: string, hex: string, rgb: Option<string>, cmyk: Option<string>, pantone: Option<string>)

  /** Building a `ColorSpec` runs the hex validator. */
  function MakeColorSpec(name: string, hex: string, rgb: Option<string>, cmyk: Option<string>, pantone: Option<string>): (r: Result<ColorSpec>)
    ensures r.Ok? <==> HexPattern(hex)
    ensures r.Err? ==> r.error == InvalidHexMessage
    ensures r.Ok? ==> r.value.name == name && r.value.hex == Upper(hex)
                      && r.value.rgb == rgb && r.value.cmyk == cmyk && r.value.pantone == pantone
  {
    var h :- ValidateHex(hex);
    Ok(ColorSpec(name, h, rgb, cmyk, pantone))
  }

  /** A palette always has a primary colour; `neutrals` defaults to `[]`. */
  datatype ColorPalette = ColorPalette(primary: ColorSpec, secondary: Option<ColorSpec>, accent: Option<ColorSpec>, neutrals: seq<ColorSpec>)

  /** `source` is one of "google", "adobe", "custom" when present. */
  datatype FontSpec = FontSpec(name: string, family: string, weight: Option<string>, style: Option<string>,
                               source: Option<string>, downloadUrl: Option<string>)

  const DefaultSystemFallback: string := "Arial, Helvetica, sans-serif"

  datatype Typography = Typography(primary: FontSpec, secondary: Option<FontSpec>, systemFallback: string)

  datatype BrandPillar = BrandPillar(title: string, description: string)

  datatype PersonalityTrait = PersonalityTrait(name: string, description: string)

  datatype VoiceGuideline = VoiceGuideline(isTrait: string, isExample: string, isNotTrait: string, isNotExample: string)

  type byte = x: int | 0 <= x < 256

  /** A logo: `format` is "png" unless detected otherwise. */
  datatype LogoAsset = LogoAsset(primaryUrl: Option<string>, primaryData: Option<seq<byte>>, variations: seq<string>, format: string)

  const DefaultLogoFormat: string := "png"

  const MaxPillars: nat := 3
  const MaxTraits: nat := 4
  const MaxVoiceGuidelines: nat := 3

  /** The assembled brand. The extractors fill the identity and visual
      fields; the narrative fields start as `None` and the lists as `[]`
      until the text analysis merges its content in place. */
  class ExtractedBrand {
    var companyName: string
    var tagline: Option<string>
    var domain: string
    var colors: ColorPalette
    var typography: Typography
    var logo: Option<LogoAsset>
    var positioningHeadline: Option<string>
    var positioningDescription: Option<string>
    var mission: Option<string>
    var missionDescription: Option<string>
    var vision: Option<string>
    var visionDescription: Option<string>
    var pillars: seq<BrandPillar>
    var traits: seq<PersonalityTrait>
    var promise: Option<string>
    var promiseDescription: Option<string>
    var voiceGuidelines: seq<VoiceGuideline>
    var boilerplate: Option<string>
    var photoStyle: Option<string>

    /** The list caps of the record declaration. */
    predicate Valid()
      reads this
    {
      |pillars| <= MaxPillars && |traits| <= MaxTraits && |voiceGuidelines| <= MaxVoiceGuidelines
    }

    /** Every narrative field, in declaration order. */
    function Narrative(): seq<Option<string>>
      reads this
    {
      [tagline, positioningHeadline, positioningDescription, mission, missionDescription,
       vision, visionDescription, promise, promiseDescription, boilerplate, photoStyle]
    }

    constructor (companyName: string, domain: string, colors: ColorPalette, typography: Typography, logo: Option<LogoAsset>)
      ensures Valid()
      ensures this.companyName == companyName && this.domain == domain
      ensures this.colors == colors && this.typography == typography && this.logo == logo
      ensures forall k :: 0 <= k < |Narrative()| ==> Narrative()[k] == None
      ensures pillars == [] && traits == [] && voiceGuidelines == []
    {
      this.companyName := companyName;
      this.domain := domain;
      this.colors := colors;
      this.typography := typography;
      this.logo := logo;
      tagline := None;
      positioningHeadline := None;
      positioningDescription := None;
      mission := None;
      missionDescription := None;
      vision := None;
      visionDescription := None;
      pillars := [];
      traits := [];
      promise := None;
      promiseDescription := None;
      voiceGuidelines := [];
      boilerplate := None;
      photoStyle := None;
    }
  }
}
