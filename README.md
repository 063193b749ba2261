# Brand guidelines builder: a verified model of the extraction pipeline

The brand guidelines builder takes a website URL, gathers what the site says about itself, and renders a brand guidelines PDF. Along the way it:

- scrapes the home page and its about and contact pages;
- extracts a colour palette from the stylesheets;
- picks the primary and secondary typefaces;
- resolves a logo;
- asks a language model for the narrative content (tagline, mission, pillars, voice) and merges the reply into the brand record.

A web API creates jobs and reports their progress. A background task drives the pipeline and records each stage in the job's record.

This project models the deterministic core of that pipeline in Dafny and proves what each step promises:

- **Colour arithmetic** (`color_utils.dfy`): hex and RGB conversion and their round trip, CMYK, squared distance, the near-white and near-black tests, and the nearest-swatch lookup over the fixed Pantone table.
- **Palette extraction** (`color_extractor.dfy`):
  - canonical literals;
  - the near-white and near-black filter;
  - the frequency counter;
  - the greedy clustering pass with threshold 30;
  - the stable top-ten ranking;
  - palette assembly with its fixed fallback.
- **Typography** (`typography_extractor.dfy`): Google Fonts family decoding, the first entry of each `font-family` stack, and the primary and secondary selection rule.
- **Logo** (`logo_extractor.dfy`): the first-truthy chain schema.org → `og:image` → header and nav → `.svg` image → icons → `/favicon.ico`, the format guess and the download acceptance test.
- **AI reply handling** (`ai_analyzer.dfy`): prompt truncation, code-fence removal, isolation of the outermost braces, and the in-place merge with its list caps of 3, 4 and 3.
- **Records** (`brand_data.dfy`, `job.dfy`): the hex validator, defaults and list caps, the job status enum and the progress record.
- **Jobs** (`store.dfy`, `routes.dfy`, `tasks.dfy`):
  - the job store and its read–modify–write status updates;
  - the fixed sequence of checkpoints and the failure write;
  - company-name derivation and the PDF path;
  - the HTTP handlers, with download gating by status.
- **PDF helpers** (`pdf_generator.dfy`): the theme colours and the greedy word wrap.
- **Scraping** (`website_scraper.dfy`): URL normalisation, key-page link selection, and the limit on stylesheet downloads.

`text.dfy`, `url.dfy`, `json.dfy`, `search.dfy` and `wrappers.dfy` model the parts of Python's `str`, `urlparse`, JSON values, linear search and `None`/exceptions that the modules rely on.

Code that changes state in place is modelled as imperative Dafny:

- the merged brand record is a class;
- the job store and the Celery queue are classes;
- the loops are methods with invariants, each proved against a specification function.

Browsers, HTTP, Redis, the language model, regular expressions and HTML parsing are not run. Their outputs enter the model as parameters: captured groups, parsed elements, a `loads` function, the page visitor, and which stage raised.

## Model

| member | source | states |
|---|---|---|
| ColorUtils.HexToRgbSpec | brand-guidelines-builder/backend/src/utils/color_utils.py:9-12 | after every leading `#` is stripped, `hex_to_rgb` succeeds exactly when five hex digits (and a sixth if present) follow, and six digits read as three base-16 pairs |
| ColorUtils.RgbOfDigits | brand-guidelines-builder/backend/src/utils/color_utils.py:11-12 | the three two-character slices parse exactly when the digits do, the first bad slice raising |
| ColorUtils.PairAt | brand-guidelines-builder/backend/src/utils/color_utils.py:12 | `int(t[i:i+2], 16)` succeeds exactly on a non-empty run of hex digits and reads a full pair as two base-16 digits |
| ColorUtils.RgbToHex | brand-guidelines-builder/backend/src/utils/color_utils.py:15-17 | `#` then upper-case hex digits; canonical `#RRGGBB` exactly when every channel is at most 255 |
| ColorUtils.RgbHexRoundTrip | brand-guidelines-builder/backend/src/utils/color_utils.py:9-17 | `hex_to_rgb(rgb_to_hex(c)) == c` |
| ColorUtils.SixDigitHexParses | brand-guidelines-builder/backend/src/utils/color_utils.py:9-12 | six hex digits after `#`, in either case, parse to their three pairs whatever follows |
| ColorUtils.HexRoundTripStable | brand-guidelines-builder/backend/src/utils/color_utils.py:9-17 | a colour that parses reads the same after one trip through `rgb_to_hex` |
| ColorUtils.Percent | brand-guidelines-builder/backend/src/utils/color_utils.py:34-38 | each CMYK component is a whole percentage from 0 to 100 |
| ColorUtils.CmykOf | brand-guidelines-builder/backend/src/utils/color_utils.py:20-38 | all four components lie between 0 and 100 |
| ColorUtils.CmykOfBlack | brand-guidelines-builder/backend/src/utils/color_utils.py:23-24 | black prints as `0, 0, 0, 100` |
| ColorUtils.CmykOfWhite | brand-guidelines-builder/backend/src/utils/color_utils.py:20-38 | white prints as `0, 0, 0, 0` |
| ColorUtils.KIsOneOnlyForBlack | brand-guidelines-builder/backend/src/utils/color_utils.py:30-32 | the `k == 1` guard holds only for pure black, which the first guard already returned |
| ColorUtils.BrightestChannelIsZero | brand-guidelines-builder/backend/src/utils/color_utils.py:26-38 | the component of the brightest channel is 0 |
| ColorUtils.DistanceSq | brand-guidelines-builder/backend/src/utils/color_utils.py:41-49 | the squared distance is at most `3 * 255^2` (black against white) |
| ColorUtils.DistanceZeroIff | brand-guidelines-builder/backend/src/utils/color_utils.py:41-49 | the distance is 0 exactly for identical colours |
| ColorUtils.DistanceSymmetric | brand-guidelines-builder/backend/src/utils/color_utils.py:41-49 | the distance is symmetric |
| ColorUtils.ColorDistanceSq | brand-guidelines-builder/backend/src/utils/color_utils.py:41-49 | `color_distance` succeeds exactly when both colours parse, and is then the distance of their channels |
| ColorUtils.NearWhiteExcludesNearBlack | brand-guidelines-builder/backend/src/utils/color_utils.py:52-61 | with the default thresholds no colour is both near white and near black |
| ColorUtils.IsNearWhite | brand-guidelines-builder/backend/src/utils/color_utils.py:52-55 | raises exactly when the colour does not parse, otherwise true exactly when every channel is at least 240 |
| ColorUtils.IsNearBlack | brand-guidelines-builder/backend/src/utils/color_utils.py:58-61 | raises exactly when the colour does not parse, otherwise true exactly when every channel is at most 15 |
| ColorUtils.PantoneHexesParse | brand-guidelines-builder/backend/src/utils/color_utils.py:102-116 | every key of the Pantone table parses to its colour |
| ColorUtils.SwatchSpelling | brand-guidelines-builder/backend/src/utils/color_utils.py:102-116 | every key of the table is the canonical spelling of its colour |
| ColorUtils.NearestInSpec | brand-guidelines-builder/backend/src/utils/color_utils.py:128-132 | the entry the scan keeps is at minimal distance, and no earlier entry is as close |
| ColorUtils.FindNearestPantone | brand-guidelines-builder/backend/src/utils/color_utils.py:119-137 | a colour that does not parse raises; otherwise the result is the table's match for its channels |
| ColorUtils.ScanSwatches | brand-guidelines-builder/backend/src/utils/color_utils.py:125-132 | the loop keeps the first entry at minimal distance and that distance |
| ColorUtils.PantoneMatchSpec | brand-guidelines-builder/backend/src/utils/color_utils.py:119-137 | the fallback text is returned exactly when every entry is 100 or more away; otherwise the name is that of the first nearest entry, and `"N/A"` never escapes |
| ColorUtils.PantoneMatchesOwnSwatch | brand-guidelines-builder/backend/src/utils/color_utils.py:102-137 | every swatch of the table is matched to its own name |
| ColorUtils.SwatchIndexes | brand-guidelines-builder/backend/src/utils/color_utils.py:102-116 | no two entries of the table share a colour |
| BrandData.ValidateHex | brand-guidelines-builder/backend/src/models/brand_data.py:19-24 | accepted exactly when the value matches `^#[0-9A-Fa-f]{6}$` (a final newline included, as Python's `$` allows); the stored value is upper-cased, and a rejection carries the validator's message |
| BrandData.ValidateHexCanonical | brand-guidelines-builder/backend/src/models/brand_data.py:19-24 | a stored hex passes the validator again unchanged and denotes the same colour; without a trailing newline it is canonical |
| BrandData.MakeColorSpec | brand-guidelines-builder/backend/src/models/brand_data.py:11-24 | a `ColorSpec` is built exactly when its hex passes, with every other field as given |
| BrandData.ExtractedBrand.constructor | brand-guidelines-builder/backend/src/models/brand_data.py:84-116 | a new brand has the given identity and visuals, every narrative field `None` and empty lists, within the list caps |
| ColorExtractor.CanonicalLiteral | brand-guidelines-builder/backend/src/extractors/color_extractor.py:64-67 | a `#abc` literal becomes seven characters, any other literal keeps its length |
| ColorExtractor.CanonicalLiteralSpec | brand-guidelines-builder/backend/src/extractors/color_extractor.py:62-67 | every hex match becomes a canonical `#RRGGBB`; a six-digit literal keeps its colour and `#abc` denotes the colour with each digit doubled |
| ColorExtractor.ExtractFromCss | brand-guidelines-builder/backend/src/extractors/color_extractor.py:56-82 | the method's loops return exactly the hex matches in canonical form, then the `rgb()` matches as `#RRGGBB`, then the `hsl()` colours |
| ColorExtractor.CssColorsSpec | brand-guidelines-builder/backend/src/extractors/color_extractor.py:56-82 | position by position: canonical hex literals first, `rgb()` matches next, `hsl()` colours last; the length is the total number of matches |
| ColorExtractor.RgbLiteralParses | brand-guidelines-builder/backend/src/extractors/color_extractor.py:70-73 | a colour written from an `rgb()` match always parses again, and with channels up to 255 it is canonical and denotes those channels |
| ColorExtractor.ImageColors | brand-guidelines-builder/backend/src/extractors/color_extractor.py:113-126 | every image colour is a canonical `#RRGGBB` |
| ColorExtractor.PaletteHexes | brand-guidelines-builder/backend/src/extractors/color_extractor.py:121-122 | one canonical hex per palette colour |
| ColorExtractor.ExtractFromImages | brand-guidelines-builder/backend/src/extractors/color_extractor.py:113-126 | only the first five images are read, an image whose palette fails is skipped, and every colour returned is canonical |
| ColorExtractor.FilterOk | brand-guidelines-builder/backend/src/extractors/color_extractor.py:131-134 | the near-white/near-black filter succeeds exactly when every colour parses |
| ColorExtractor.FilterError | brand-guidelines-builder/backend/src/extractors/color_extractor.py:131-134 | a failing filter reports the error of the first colour that does not parse |
| ColorExtractor.FilterKept | brand-guidelines-builder/backend/src/extractors/color_extractor.py:131-134 | every colour kept is an input colour, parsed, and neither near white nor near black |
| ColorExtractor.FilterComplete | brand-guidelines-builder/backend/src/extractors/color_extractor.py:131-134 | every input colour that parses and is not dropped is kept |
| ColorExtractor.TallySpec | brand-guidelines-builder/backend/src/extractors/color_extractor.py:137 | `Counter` has one entry per distinct colour holding its number of occurrences, the counts add up to the number of colours, and the keys are in first-occurrence order |
| ColorExtractor.ClustersPartition | brand-guidelines-builder/backend/src/extractors/color_extractor.py:144-164 | every counted colour lands in exactly one cluster |
| ColorExtractor.GroupsPreserveTotal | brand-guidelines-builder/backend/src/extractors/color_extractor.py:144-164 | merging keeps the total count |
| ColorExtractor.ClustersFrom | brand-guidelines-builder/backend/src/extractors/color_extractor.py:150-162 | every cluster member is an input colour |
| ColorExtractor.ClustersNear | brand-guidelines-builder/backend/src/extractors/color_extractor.py:155-159 | every colour absorbed into a cluster is closer than 30 to that cluster's key |
| ColorExtractor.ClusterHeadsApart | brand-guidelines-builder/backend/src/extractors/color_extractor.py:150-162 | the keys of any two clusters are 30 or more apart |
| ColorExtractor.ClusterKeysApart | brand-guidelines-builder/backend/src/extractors/color_extractor.py:144-164 | the merged keys are pairwise 30 or more apart |
| ColorExtractor.ClusterKeysInOrder | brand-guidelines-builder/backend/src/extractors/color_extractor.py:146-162 | the merged keys are input colours in input order |
| ColorExtractor.NoTransitiveMerging | brand-guidelines-builder/backend/src/extractors/color_extractor.py:155-159 | closeness is measured against the key only: of three colours 20 apart in a row, the third stays a key of its own |
| ColorExtractor.ClusterSimilar | brand-guidelines-builder/backend/src/extractors/color_extractor.py:144-164 | the nested loops over the counter compute exactly the greedy clustering `Groups` |
| ColorExtractor.AbsorbClose | brand-guidelines-builder/backend/src/extractors/color_extractor.py:154-159 | the inner loop adds the counts of exactly the unused other colours closer than 30 and marks them used |
| ColorExtractor.SortDescSpec | brand-guidelines-builder/backend/src/extractors/color_extractor.py:142 | the sort by decreasing count is a stable permutation: sorted, same multiset, and ties keep their input order |
| ColorExtractor.MostCommon | brand-guidelines-builder/backend/src/extractors/color_extractor.py:142 | `most_common(10)` keeps ten entries, or all of them when there are fewer |
| ColorExtractor.MostCommonSpec | brand-guidelines-builder/backend/src/extractors/color_extractor.py:142 | the kept entries are sorted, come from the counter, and no entry left out has a larger count than one kept |
| ColorExtractor.RankColors | brand-guidelines-builder/backend/src/extractors/color_extractor.py:128-142 | the method returns exactly filter, count, cluster and keep ten |
| ColorExtractor.RankedSpec | brand-guidelines-builder/backend/src/extractors/color_extractor.py:128-142 | ranking fails exactly when some colour does not parse; otherwise it gives at most ten entries by decreasing count, keys pairwise 30 or more apart, each a kept input colour |
| ColorExtractor.MakeSpecValidates | brand-guidelines-builder/backend/src/extractors/color_extractor.py:176-184 | `make_color_spec` is the `ColorSpec` validator applied to the name, hex and notations of the colour |
| ColorExtractor.EntriesOk | brand-guidelines-builder/backend/src/extractors/color_extractor.py:188-196 | the entries of a palette are built exactly when every hex passes the validator, and a rejection carries the validator's message |
| ColorExtractor.EntryAt | brand-guidelines-builder/backend/src/extractors/color_extractor.py:189-195 | slot `first + k` describes the colour at position `k` |
| ColorExtractor.DefaultPaletteValidates | brand-guidelines-builder/backend/src/extractors/color_extractor.py:168-174 | each fallback entry is what the validator makes of its name and hex |
| ColorExtractor.BuildPaletteOk | brand-guidelines-builder/backend/src/extractors/color_extractor.py:166-196 | no ranked colours give the fallback palette; otherwise the palette is built exactly when the first seven hexes pass the validator |
| ColorExtractor.PaletteEntry | brand-guidelines-builder/backend/src/extractors/color_extractor.py:186-196 | palette slot `i` describes rank `i` |
| ColorExtractor.BuildPaletteMain | brand-guidelines-builder/backend/src/extractors/color_extractor.py:188-191 | ranks 1 to 3 give primary, secondary and accent, and secondary and accent are present exactly when there are that many colours |
| ColorExtractor.BuildPaletteNeutrals | brand-guidelines-builder/backend/src/extractors/color_extractor.py:192-195 | ranks 4 to 7 give `Neutral 1` to `Neutral 4`, as many as there are colours |
| ColorExtractor.Extract | brand-guidelines-builder/backend/src/extractors/color_extractor.py:26-54 | the method returns the palette of the stylesheet colours followed by the colours of the first five images |
| ColorExtractor.CanonicalPasses | brand-guidelines-builder/backend/src/extractors/color_extractor.py:188-196 | a canonical ranked hex passes the validator and parses |
| ColorExtractor.PaletteOfCanonical | brand-guidelines-builder/backend/src/extractors/color_extractor.py:26-54 | when every colour found is canonical, extraction yields a palette |
| ColorExtractor.ExtractedCanonical | brand-guidelines-builder/backend/src/extractors/color_extractor.py:26-82 | hex literals, `rgb()` matches with channels up to 255, canonical `hsl()` colours and image colours always give a palette |
| TypographyExtractor.Dedup | brand-guidelines-builder/backend/src/extractors/typography_extractor.py:75 | the result has no duplicates and holds exactly the names of the input (`list(set(...))`, order not promised) |
| TypographyExtractor.KeepNamesSpec | brand-guidelines-builder/backend/src/extractors/typography_extractor.py:56-60 | a name is kept exactly when it is accepted and is the name of some item, in both directions |
| TypographyExtractor.KeepNamesFrom | brand-guidelines-builder/backend/src/extractors/typography_extractor.py:56-60 | every kept name is accepted and comes from some item |
| TypographyExtractor.KeptSpec | brand-guidelines-builder/backend/src/extractors/typography_extractor.py:56-60 | of the parts a `family=` value splits into, a name is kept exactly when it is the non-empty cleaned form of one of them |
| TypographyExtractor.DecodedHasNoPlus | brand-guidelines-builder/backend/src/extractors/typography_extractor.py:51 | after `%20` and `+` are replaced by spaces no `+` remains |
| TypographyExtractor.ParamNamesShape | brand-guidelines-builder/backend/src/extractors/typography_extractor.py:51-60 | every name one first-form value yields is non-empty, stripped, free of `+`, `:`, `@` and `|` |
| TypographyExtractor.Css2ParamNames | brand-guidelines-builder/backend/src/extractors/typography_extractor.py:63-73 | a `css2` value, whose capture stops before any `&`, yields at most one name, and it is clean: splitting on `&family=` never separates anything |
| TypographyExtractor.AllNamesShape | brand-guidelines-builder/backend/src/extractors/typography_extractor.py:47-60 | all names from the first URL form are clean and hold no `|` |
| TypographyExtractor.Css2NamesShape | brand-guidelines-builder/backend/src/extractors/typography_extractor.py:64-73 | the `css2` values give at most one name each, all clean |
| TypographyExtractor.GoogleNamesShape | brand-guidelines-builder/backend/src/extractors/typography_extractor.py:42-75 | every web-font name the extractor collects is clean |
| TypographyExtractor.ExtractGoogleFonts | brand-guidelines-builder/backend/src/extractors/typography_extractor.py:42-75 | the result is duplicate-free and holds exactly the names collected from both URL forms |
| TypographyExtractor.CollectAll | brand-guidelines-builder/backend/src/extractors/typography_extractor.py:47-60 | the outer loop over captured values yields every value's names in match order |
| TypographyExtractor.CollectNames | brand-guidelines-builder/backend/src/extractors/typography_extractor.py:56-60 | the inner loop keeps exactly the non-empty cleaned parts, in order |
| TypographyExtractor.FamiliesSpec | brand-guidelines-builder/backend/src/extractors/typography_extractor.py:77-94 | a family is listed exactly when it is the non-empty, non-generic first entry of some declaration |
| TypographyExtractor.FirstFamilyShape | brand-guidelines-builder/backend/src/extractors/typography_extractor.py:86-89 | a first entry holds no comma and neither starts nor ends with a quote |
| TypographyExtractor.GenericIgnoresCase | brand-guidelines-builder/backend/src/extractors/typography_extractor.py:96-98 | the generic keywords are matched case-insensitively |
| TypographyExtractor.ExtractFontFamilies | brand-guidelines-builder/backend/src/extractors/typography_extractor.py:77-94 | the result is duplicate-free and holds exactly the listed families |
| TypographyExtractor.SpecimenUrlHasNoSpace | brand-guidelines-builder/backend/src/extractors/typography_extractor.py:115 | the specimen URL's name part has no space |
| TypographyExtractor.InterIsGoogleFont | brand-guidelines-builder/backend/src/extractors/typography_extractor.py:124-131 | the fallback is Inter from Google with its specimen link |
| TypographyExtractor.FirstOtherSpec | brand-guidelines-builder/backend/src/extractors/typography_extractor.py:139-150 | the search finds nothing exactly when every later name equals the primary's; otherwise it finds the first that differs |
| TypographyExtractor.BuildTypography | brand-guidelines-builder/backend/src/extractors/typography_extractor.py:100-156 | the method's primary-then-secondary search with `break` agrees with the selection rule |
| TypographyExtractor.PrimaryRule | brand-guidelines-builder/backend/src/extractors/typography_extractor.py:106-131 | the primary is the first web font (with its specimen link), else the first custom family (no link), else Inter; its source is `google` or `custom` accordingly |
| TypographyExtractor.SecondaryRule | brand-guidelines-builder/backend/src/extractors/typography_extractor.py:133-156 | the secondary is the first name after position 0 of web fonts then families that differs from the primary; there is none exactly when no later name differs; it is a Google font with a link exactly when its name is a web-font name; the fallback stack is fixed |
| TypographyExtractor.SelectionFromSets | brand-guidelines-builder/backend/src/extractors/typography_extractor.py:22-40 | whatever order the two sets come in, the primary is a web font with a specimen link when there are any, else a custom family without a link, else Inter; there is no secondary exactly when every found name is the primary's, and a secondary is another found font, from Google with a specimen link exactly when it is a web-font name |
| TypographyExtractor.Extract | brand-guidelines-builder/backend/src/extractors/typography_extractor.py:22-40 | `extract` picks the primary from the web fonts (with a specimen link) when any were found, else from the families (no link), else Inter; it has no secondary exactly when every found name is the primary's; a secondary is another found font, marked `google` and linked exactly when it is a web-font name |
| LogoExtractor.FindSchemaLogo | brand-guidelines-builder/backend/src/extractors/logo_extractor.py:71-104 | the loops with early returns give the first logo decided by a JSON-LD script (a list searched item by item, an object through its own `logo`), else the microdata element's `src`, `content` or `href` |
| LogoExtractor.EmptyLogoObjectStops | brand-guidelines-builder/backend/src/extractors/logo_extractor.py:87-88 | a `logo` object with neither `url` nor `contentUrl` returns nothing at once: later scripts and the microdata are not consulted |
| LogoExtractor.StringLogoVerbatim | brand-guidelines-builder/backend/src/extractors/logo_extractor.py:92-93 | a string logo is returned as it is, even empty |
| LogoExtractor.UnparsedSkipped | brand-guidelines-builder/backend/src/extractors/logo_extractor.py:76-78 | an empty script or one that does not parse is skipped |
| LogoExtractor.FindContainerPick | brand-guidelines-builder/backend/src/extractors/logo_extractor.py:120-137 | one container's loops give the first matching image's `src`, else the image of the first matching link |
| LogoExtractor.FindHeaderLogo | brand-guidelines-builder/backend/src/extractors/logo_extractor.py:106-139 | the container loop returns the joined pick of the first container that has one |
| LogoExtractor.HeaderLogoSpec | brand-guidelines-builder/backend/src/extractors/logo_extractor.py:106-139 | no header logo exactly when no container picks; otherwise it is the joined pick of the first container that does, every earlier one having none |
| LogoExtractor.ContainerPickSpec | brand-guidelines-builder/backend/src/extractors/logo_extractor.py:120-137 | a container picks exactly when it has a matching image or matching link, and images come before links |
| LogoExtractor.FindSvgLogo | brand-guidelines-builder/backend/src/extractors/logo_extractor.py:141-160 | the image loop returns the joined `src` of the first `.svg` image naming a keyword |
| LogoExtractor.SvgLogoSpec | brand-guidelines-builder/backend/src/extractors/logo_extractor.py:153-160 | no `.svg` logo exactly when no image matches; otherwise the first matching one, joined to the base URL |
| LogoExtractor.Favicon | brand-guidelines-builder/backend/src/extractors/logo_extractor.py:162-188 | the icon is the scraper's apple-touch icon or favicon when non-empty, or some non-empty path joined to the base URL (which source wins is stated by `FaviconOrder`) |
| LogoExtractor.FaviconOrder | brand-guidelines-builder/backend/src/extractors/logo_extractor.py:169-188 | the first present source wins, in the order: scraper's apple-touch icon, apple-touch-icon link joined to the base URL, scraper's favicon, icon link joined to the base URL; once an earlier source is present no later one changes the answer; `/favicon.ico` on the base URL when all four are missing |
| LogoExtractor.DetectFormat | brand-guidelines-builder/backend/src/extractors/logo_extractor.py:206-217 | the format is svg exactly when `.svg` appears in the lower-cased URL; otherwise png exactly when `.png` appears or no known extension does; otherwise jpeg exactly when `.jpg` or `.jpeg` appears; otherwise ico exactly when `.ico` appears |
| LogoExtractor.Downloaded | brand-guidelines-builder/backend/src/extractors/logo_extractor.py:190-204 | data is kept exactly for a 200 response whose content type names an image or whose URL ends in an image extension, and it is the response body |
| LogoExtractor.LogoUrlIsFirstTruthy | brand-guidelines-builder/backend/src/extractors/logo_extractor.py:39-58 | the step-by-step reassignment picks the first truthy source in the order schema, `og:image`, header, `.svg`, icons |
| LogoExtractor.ChainOfFour | brand-guidelines-builder/backend/src/extractors/logo_extractor.py:43-58 | four reassignments guarded by "still falsy" pick the first truthy value |
| LogoExtractor.FirstTruthySpec | brand-guidelines-builder/backend/src/extractors/logo_extractor.py:43-58 | a source is used exactly when every earlier one gave a falsy value; with none truthy the icon fallback is used |
| LogoExtractor.Extract | brand-guidelines-builder/backend/src/extractors/logo_extractor.py:20-69 | `extract` returns the asset built from the chosen URL, the accepted download and the detected format |
| LogoExtractor.LogoAlwaysHasUrl | brand-guidelines-builder/backend/src/extractors/logo_extractor.py:20-69 | the asset always carries a URL and no variations; building it fails exactly when the schema markup won with a truthy value that is not a string |
| AiAnalyzer.Truncated | brand-guidelines-builder/backend/src/extractors/ai_analyzer.py:56 | the embedded text is a prefix of the scraped text, of length 15000 when longer and the whole text otherwise |
| AiAnalyzer.PromptEmbedsPrefix | brand-guidelines-builder/backend/src/extractors/ai_analyzer.py:53-111 | the prompt carries the truncated text right after its fixed head, and all of the text when it has at most 15000 characters |
| AiAnalyzer.FenceEnd | brand-guidelines-builder/backend/src/extractors/ai_analyzer.py:123-127 | the scan stops at the first later line whose stripped text is a fence, and at the end when there is none |
| AiAnalyzer.FirstLineIsFence | brand-guidelines-builder/backend/src/extractors/ai_analyzer.py:119-122 | when the stripped reply opens with a fence its first line does too, so the opening line is always dropped |
| AiAnalyzer.UnfencedSpec | brand-guidelines-builder/backend/src/extractors/ai_analyzer.py:116-128 | a reply that does not open with a fence is only stripped; one that does keeps the lines strictly between the opening line and the closing fence |
| AiAnalyzer.JsonCandidateExists | brand-guidelines-builder/backend/src/extractors/ai_analyzer.py:131-138 | a candidate exists exactly when some `}` follows some `{`; otherwise the error is "Could not parse JSON from AI response" |
| AiAnalyzer.JsonCandidateShape | brand-guidelines-builder/backend/src/extractors/ai_analyzer.py:131-135 | the candidate starts with `{`, ends with `}`, sits in the text at the first `{`, with no `{` before it and no `}` after it |
| AiAnalyzer.StripFence | brand-guidelines-builder/backend/src/extractors/ai_analyzer.py:116-128 | the line scan with `break` computes the unfenced text |
| AiAnalyzer.ParseResponse | brand-guidelines-builder/backend/src/extractors/ai_analyzer.py:113-138 | the unfenced text's candidate is handed to the JSON parser; without a candidate the parse fails with the ValueError message |
| AiAnalyzer.TextField | brand-guidelines-builder/backend/src/extractors/ai_analyzer.py:143-153 | a narrative field gets a value exactly when its key is present with a string value, and `None` otherwise |
| AiAnalyzer.BuildAll | brand-guidelines-builder/backend/src/extractors/ai_analyzer.py:157-168 | building records keeps the number of items |
| AiAnalyzer.BuildAllSpec | brand-guidelines-builder/backend/src/extractors/ai_analyzer.py:157-168 | the records are built exactly when every item can be, and each record is the one its item builds |
| AiAnalyzer.Take | brand-guidelines-builder/backend/src/extractors/ai_analyzer.py:158 | `xs[:n]` is a prefix of length `min(|xs|, n)` |
| AiAnalyzer.ListUpdateSpec | brand-guidelines-builder/backend/src/extractors/ai_analyzer.py:156-169 | a list is kept exactly when its key is missing or falsy; otherwise it is replaced by the records of the first `cap` items, and the update fails when the value is no list of records |
| AiAnalyzer.MergeError | brand-guidelines-builder/backend/src/extractors/ai_analyzer.py:156-169 | the merge raises exactly when one of the three list updates fails |
| AiAnalyzer.MergeData | brand-guidelines-builder/backend/src/extractors/ai_analyzer.py:140-171 | the 11 narrative fields are overwritten from their keys (`None` when missing), pillars, traits and voice guidelines are updated in turn up to the first failure, everything else is untouched, the list caps 3/4/3 are preserved, and the same object is returned |
| AiAnalyzer.SetNarrative | brand-guidelines-builder/backend/src/extractors/ai_analyzer.py:143-153 | every narrative field is overwritten from its own key |
| AiAnalyzer.ListCapped | brand-guidelines-builder/backend/src/extractors/ai_analyzer.py:156-169 | a replacing list never exceeds its cap, so a capped list stays capped |
| Job.StatusOf | brand-guidelines-builder/backend/src/models/job.py:11-21 | `JobStatus(value)` gives the member whose value it is, and none exactly when no member has that value |
| Job.StatusValuesDistinct | brand-guidelines-builder/backend/src/models/job.py:11-21 | there are exactly nine statuses with pairwise different values, and each value reads back as its member |
| Job.ValueInjective | brand-guidelines-builder/backend/src/models/job.py:11-21 | two statuses have the same value exactly when they are the same status |
| Job.NewJobProgress | brand-guidelines-builder/backend/src/models/job.py:24-33 | a progress record built from id, status and creation time has every other field at its default: 0%, empty step, no error, no completion time, no PDF path |
| Store.JobKey | brand-guidelines-builder/backend/src/api/routes.py:46 | the key is `job:` followed by the job id |
| Store.JobKeyInjective | brand-guidelines-builder/backend/src/api/routes.py:46 | two jobs share a key exactly when they are the same job |
| Store.JobStore.GetJob | brand-guidelines-builder/backend/src/api/routes.py:44-49 | a record is returned exactly when one is stored under the job's key |
| Store.JobStore.SetJob | brand-guidelines-builder/backend/src/api/routes.py:52-54 | the record replaces what was stored for this job, reads back as stored, and no other job's record changes |
| Store.JobStore.constructor | brand-guidelines-builder/backend/src/api/routes.py:20 | the store starts empty |
| Search.FirstMatch | brand-guidelines-builder/backend/src/extractors/logo_extractor.py:82-88 | a match is an accepted element of the sequence |
| Search.FirstMatchSpec | brand-guidelines-builder/backend/src/extractors/logo_extractor.py:82-88 | there is no match exactly when no element is accepted; otherwise the match is the element at the first accepted position |
| Search.FindFirst | brand-guidelines-builder/backend/src/extractors/logo_extractor.py:82-88 | the loop returning at the first accepted element computes the first match |
| Search.FirstFound | brand-guidelines-builder/backend/src/extractors/logo_extractor.py:82-88 | an accepted element with nothing accepted before it is the first match |
| Routes.TaskQueue.constructor | brand-guidelines-builder/backend/src/api/routes.py:78-79 | the queue starts with no calls |
| Routes.TaskQueue.Delay | brand-guidelines-builder/backend/src/api/routes.py:79 | `delay` appends exactly one call with the job id and URL |
| Routes.CreateJob | brand-guidelines-builder/backend/src/api/routes.py:57-81 | the pending record is stored under the new job's key before the extraction task is queued, one call is queued, and the answer is the job id with `pending` |
| Routes.StatusOfFields | brand-guidelines-builder/backend/src/api/routes.py:84-102 | a record with these values answers with them, a missing error message or PDF path reading as `None` |
| Routes.StatusDefaults | brand-guidelines-builder/backend/src/api/routes.py:91-99 | an unknown job is a 404 "Job not found"; a record with no progress or step reads as 0 and `""` |
| Routes.CreatedJobStatus | brand-guidelines-builder/backend/src/api/routes.py:65-102 | a job just created reads back as pending at 0%, "Queued for processing", with no error and no path |
| Routes.PdfFilename | brand-guidelines-builder/backend/src/api/routes.py:129 | the file name is `brand_guidelines_`, then the first eight characters of the job id (all of it when shorter), then `.pdf` |
| Routes.NotReadyOf | brand-guidelines-builder/backend/src/api/routes.py:116-120 | a job in any status other than `completed` is refused with 400, the detail naming the status |
| Routes.DownloadGating | brand-guidelines-builder/backend/src/api/routes.py:105-130 | the PDF is served exactly for a stored, completed job with a truthy path; an unknown job is 404, another status 400, a completed job without a path 404 "PDF file not found"; the file is the stored path as `application/pdf` |
| Routes.CreatedJobNotReady | brand-guidelines-builder/backend/src/api/routes.py:65-120 | a job just created is refused with "PDF not ready. Current status: pending" |
| Tasks.UpdatedSpec | brand-guidelines-builder/backend/src/workers/tasks.py:32-41 | an update sets the four status fields, lets the keyword arguments win, and keeps every other key of the old record; its keys are the old ones, the status keys and the keyword keys |
| Tasks.UpdateJobStatus | brand-guidelines-builder/backend/src/workers/tasks.py:22-43 | the job's record (or `{}` when there is none) is replaced by its update; no other job's record changes |
| Tasks.ApplyKeeps | brand-guidelines-builder/backend/src/workers/tasks.py:35-41 | a write keeps every key it does not name |
| Tasks.ApplySets | brand-guidelines-builder/backend/src/workers/tasks.py:35-41 | a write sets the job id, the status value, the progress, the step and its keyword fields |
| Tasks.ReplayedStep | brand-guidelines-builder/backend/src/workers/tasks.py:59-195 | replaying one more write is applying it to the replayed record |
| Tasks.Checkpoint | brand-guidelines-builder/backend/src/workers/tasks.py:61-184 | only the last checkpoint, `completed`, carries a keyword field, and that field is `pdf_path` |
| Tasks.Checkpoints | brand-guidelines-builder/backend/src/workers/tasks.py:61-184 | the first `n` checkpoints are `n` writes |
| Tasks.CheckpointsAt | brand-guidelines-builder/backend/src/workers/tasks.py:61-184 | the `i`-th of the first `n` checkpoints is checkpoint `i` |
| Tasks.AfterCheckpointsStep | brand-guidelines-builder/backend/src/workers/tasks.py:61-184 | proof step of `AdvanceCheckpoint`: one more checkpoint is one more write on top |
| Tasks.ReplayedAfter | brand-guidelines-builder/backend/src/workers/tasks.py:59-195 | a replay of `ws` with `w` applied on top is the replay of `ws + [w]` |
| Tasks.AfterCheckpointsReplayed | brand-guidelines-builder/backend/src/workers/tasks.py:61-184 | the record after the first `n` checkpoints is those writes replayed in order |
| Tasks.RunRecordReplayed | brand-guidelines-builder/backend/src/workers/tasks.py:59-195 | the record a run leaves is its writes replayed in order |
| Tasks.WriteCheckpoint | brand-guidelines-builder/backend/src/workers/tasks.py:61-184 | one checkpoint write updates the job's current record |
| Tasks.AdvanceCheckpoint | brand-guidelines-builder/backend/src/workers/tasks.py:61-184 | the checkpoint of stage `k` advances the record from `k` to `k + 1` checkpoints and leaves other jobs alone |
| Tasks.ExceptIfRaised | brand-guidelines-builder/backend/src/workers/tasks.py:188-195 | the `except` branch runs exactly when the stage just started raised, and then leaves the record a failed run leaves; otherwise nothing changes |
| Tasks.ExtractBrandTask | brand-guidelines-builder/backend/src/workers/tasks.py:46-195 | a run that raises re-raises its message, one that finishes returns the PDF path, and the job's record ends as the run's writes replayed over it |
| Tasks.SuccessOrder | brand-guidelines-builder/backend/src/workers/tasks.py:59-186 | a finished run writes every status from `scraping` to `completed` in the enum's order, with strictly rising progress ending at 100 |
| Tasks.CheckpointStatus | brand-guidelines-builder/backend/src/workers/tasks.py:61-184 | checkpoint `k` writes the status after the `k`-th in the enum's order, `pending` being first |
| Tasks.CheckpointProgress | brand-guidelines-builder/backend/src/workers/tasks.py:61-184 | progress rises from one checkpoint to the next: 10, 30, 45, 55, 70, 90, 100 |
| Tasks.FailureOrder | brand-guidelines-builder/backend/src/workers/tasks.py:188-195 | a run that raised wrote a finished run's checkpoints up to the failing stage, then the failure write last; no earlier write is `failed` and progress drops |
| Tasks.PdfPathOnlyAtCompletion | brand-guidelines-builder/backend/src/workers/tasks.py:180-184 | a write carries `pdf_path` exactly when it is the `completed` one, and it carries the computed path |
| Tasks.AfterCheckpointsKeeps | brand-guidelines-builder/backend/src/workers/tasks.py:61-184 | a key no checkpoint names keeps what the record held |
| Tasks.RunKeeps | brand-guidelines-builder/backend/src/workers/tasks.py:59-195 | every key a run never names, such as `created_at` and `url`, keeps its value |
| Tasks.FinishedRecord | brand-guidelines-builder/backend/src/workers/tasks.py:180-184 | after a finished run the record reads `completed`, 100%, "Complete!", with the PDF path |
| Tasks.FinishedKeepsError | brand-guidelines-builder/backend/src/workers/tasks.py:180-186 | a finished run leaves the error message as it was |
| Tasks.FailedRecord | brand-guidelines-builder/backend/src/workers/tasks.py:188-193 | after a run that raised the record reads `failed`, 0%, "Failed", with the message |
| Tasks.FailedKeepsPdfPath | brand-guidelines-builder/backend/src/workers/tasks.py:188-193 | a run that raised leaves the PDF path as it was |
| Tasks.FinishedStatus | brand-guidelines-builder/backend/src/workers/tasks.py:180-184 | after a finished run over a record without an error the status endpoint reads `completed` at 100% with the path |
| Tasks.FinishedDownload | brand-guidelines-builder/backend/src/workers/tasks.py:170-184 | after a finished run the PDF is served from the computed path under the job's file name |
| Tasks.FailedStatus | brand-guidelines-builder/backend/src/workers/tasks.py:188-193 | after a failed run over a record without a path the status endpoint reads `failed` at 0% with the message |
| Tasks.FailedDownload | brand-guidelines-builder/backend/src/workers/tasks.py:188-193 | after a failed run the download is refused with 400 naming `failed` |
| Tasks.FreshRecordClean | brand-guidelines-builder/backend/src/workers/tasks.py:59-195 | a record the job creation stored holds neither an error message nor a PDF path |
| Tasks.PathParts | brand-guidelines-builder/backend/src/workers/tasks.py:170-172 | the kept path components are never empty or `.` |
| Tasks.JoinEndsWithLast | brand-guidelines-builder/backend/src/workers/tasks.py:172 | a join ends with its last part |
| Tasks.PdfPathNonEmpty | brand-guidelines-builder/backend/src/workers/tasks.py:170-172 | the output path is non-empty and ends with the job's `<job_id>.pdf` |
| Tasks.CleanNameShape | brand-guidelines-builder/backend/src/workers/tasks.py:128 | a cleaned company name holds no `|` and no `-` and has no surrounding whitespace |
| Tasks.CleanNameIdempotent | brand-guidelines-builder/backend/src/workers/tasks.py:128 | cleaning a cleaned name changes nothing |
| Tasks.CutAtAll | brand-guidelines-builder/backend/src/workers/tasks.py:128 | a string with none of the stop characters is not cut |
| Tasks.TitleFrom | brand-guidelines-builder/backend/src/workers/tasks.py:124 | title-casing keeps the length |
| Tasks.TitleFromSpec | brand-guidelines-builder/backend/src/workers/tasks.py:124 | each character is cased by whether a letter precedes it, and by nothing else |
| Tasks.TitleCharKind | brand-guidelines-builder/backend/src/workers/tasks.py:124 | casing keeps a letter a letter and a non-letter itself |
| Tasks.TitleFromIdempotent | brand-guidelines-builder/backend/src/workers/tasks.py:124 | title-casing twice is title-casing once |
| Tasks.CompanyNameSource | brand-guidelines-builder/backend/src/workers/tasks.py:121-128 | the name comes from the non-empty `og:title`, else the non-empty title, and from the domain's first label only when both are empty, always cleaned |
| Tasks.DomainNameShape | brand-guidelines-builder/backend/src/workers/tasks.py:124-128 | a name taken from the domain holds no `.`, `|` or `-` |
| Tasks.PageNamed | brand-guidelines-builder/backend/src/workers/tasks.py:81 | `pages[name]` gives a page stored under that name, and fails exactly when no page has it |
| Tasks.ScrapedInputs | brand-guidelines-builder/backend/src/workers/tasks.py:80-117 | colours get the home page's stylesheets followed by the external ones and no images; typography reads the home HTML with the same stylesheets; the logo reads the home HTML |
| Tasks.CollectText | brand-guidelines-builder/backend/src/workers/tasks.py:145-153 | the text loop collects every page's text followed by a blank line, in page order |
| Tasks.PagesTextAppend | brand-guidelines-builder/backend/src/workers/tasks.py:145-153 | the text of two runs of pages is their texts one after the other |
| Tasks.HomeTextFirst | brand-guidelines-builder/backend/src/workers/tasks.py:145-153 | the home page's text comes first |
| WebsiteScraper.NormalizeUrl | brand-guidelines-builder/backend/src/scraper/website_scraper.py:61-63 | the URL always ends up with `http://` or `https://`, still ends with what was given, and is unchanged exactly when it already had one |
| WebsiteScraper.PageLinks | brand-guidelines-builder/backend/src/scraper/website_scraper.py:131-138 | every reported link has both an `href` and text, and there are no more links than anchors |
| WebsiteScraper.FilteredMembers | brand-guidelines-builder/backend/src/scraper/website_scraper.py:137 | a link survives the filter exactly when it has both an `href` and text |
| WebsiteScraper.FilteredAppend | brand-guidelines-builder/backend/src/scraper/website_scraper.py:137 | filtering keeps the links in order |
| WebsiteScraper.PageLinksMembers | brand-guidelines-builder/backend/src/scraper/website_scraper.py:131-138 | a link is reported exactly when it is the lower-cased, JavaScript-trimmed text and the `href` of some anchor, both non-empty |
| WebsiteScraper.PageLinksAppend | brand-guidelines-builder/backend/src/scraper/website_scraper.py:131-138 | the links keep the anchors' document order |
| WebsiteScraper.FirstCandidate | brand-guidelines-builder/backend/src/scraper/website_scraper.py:149-162 | a found link is an internal link of the page that names a keyword |
| WebsiteScraper.FirstCandidateNone | brand-guidelines-builder/backend/src/scraper/website_scraper.py:149-162 | nothing is found exactly when no link is an internal link naming a keyword |
| WebsiteScraper.FirstCandidateFirst | brand-guidelines-builder/backend/src/scraper/website_scraper.py:149-162 | the link found is the first candidate |
| WebsiteScraper.FirstCandidateAt | brand-guidelines-builder/backend/src/scraper/website_scraper.py:149-162 | a candidate with none before it is the one found |
| WebsiteScraper.KeyPagesFor | brand-guidelines-builder/backend/src/scraper/website_scraper.py:148-164 | at most one key page per pattern |
| WebsiteScraper.FindCandidate | brand-guidelines-builder/backend/src/scraper/website_scraper.py:149-162 | the inner loop with `continue` and `break` finds the first candidate |
| WebsiteScraper.FindKeyPages | brand-guidelines-builder/backend/src/scraper/website_scraper.py:129-164 | the nested loops give, for each page type in turn, its first candidate made absolute |
| WebsiteScraper.KeyPagesForFrom | brand-guidelines-builder/backend/src/scraper/website_scraper.py:148-164 | every found page is the page of one of the patterns |
| WebsiteScraper.KeyPagesForComplete | brand-guidelines-builder/backend/src/scraper/website_scraper.py:148-164 | each pattern that has a candidate has its page among the key pages, so every pattern gets one when all have candidates |
| WebsiteScraper.PageForSpec | brand-guidelines-builder/backend/src/scraper/website_scraper.py:149-162 | a page type gets a page exactly when some link is a candidate, and it is the first candidate's `href`, joined to the base URL unless it starts with `http` |
| WebsiteScraper.KeyPagesShape | brand-guidelines-builder/backend/src/scraper/website_scraper.py:142-164 | the key pages are at most `about` then `contact` |
| WebsiteScraper.ExternalNeverChosen | brand-guidelines-builder/backend/src/scraper/website_scraper.py:150-154 | a link whose netloc is non-empty and differs from the base's is never chosen |
| WebsiteScraper.ScrapedKeyPages | brand-guidelines-builder/backend/src/scraper/website_scraper.py:82-86 | no more pages are kept than key pages were found |
| WebsiteScraper.ScrapedKeyPagesSpec | brand-guidelines-builder/backend/src/scraper/website_scraper.py:82-86 | every kept page was scraped from its key page's URL, and each key page that scraped is kept under its name, so one is dropped only when scraping it raised |
| WebsiteScraper.AssemblePages | brand-guidelines-builder/backend/src/scraper/website_scraper.py:73-86 | the loop yields the home page followed by the key pages that scraped |
| WebsiteScraper.Downloaded | brand-guidelines-builder/backend/src/scraper/website_scraper.py:189-202 | no more texts than URLs |
| WebsiteScraper.DownloadedAppend | brand-guidelines-builder/backend/src/scraper/website_scraper.py:194-200 | downloading two lists of URLs one after the other concatenates their texts |
| WebsiteScraper.DownloadedFrom | brand-guidelines-builder/backend/src/scraper/website_scraper.py:194-200 | each kept text is the body of a 200 response to one of the URLs |
| WebsiteScraper.DownloadCss | brand-guidelines-builder/backend/src/scraper/website_scraper.py:189-202 | only the first ten URLs are fetched, in order, keeping the texts of 200 responses, so at most ten texts |
| WebsiteScraper.Scrape | brand-guidelines-builder/backend/src/scraper/website_scraper.py:51-101 | with the normalised URL: no data when the home page fails; otherwise its base URL, the home page then the key pages found among the page script's links that scraped, the downloaded stylesheets and the meta values; so the pages start with `home` and number at most three |
| PdfGenerator.SetupColors | brand-guidelines-builder/backend/src/generator/pdf_generator.py:326-356 | the theme's fixed colours never depend on the brand; `primary` is the palette's primary hex; `aurora` and `accent` are the accent's hex or `#0066ff`, `storm` and `secondary` the secondary's hex or `#1f3c88` |
| PdfGenerator.SetupColorsValid | brand-guidelines-builder/backend/src/generator/pdf_generator.py:326-356 | every theme entry is a valid `#RRGGBB` value when the palette's own hex values are |
| PdfGenerator.WrapText | brand-guidelines-builder/backend/src/generator/pdf_generator.py:1308-1328 | the lines hold exactly the words of the text, in order, none empty and each its words joined by single spaces; there are no lines exactly when there are no words; a line exceeds the limit only when it is one word; the first word of each line would not have fitted on the line before; the first line is held one character under the limit when its first word fits |
| PdfGenerator.WrapWords | brand-guidelines-builder/backend/src/generator/pdf_generator.py:1314-1328 | the greedy loop over the words meets the same packing properties, stated over the word list |
| PdfGenerator.Step | brand-guidelines-builder/backend/src/generator/pdf_generator.py:1314-1325 | proof step of `WrapWords`: one turn of the loop, through either branch, keeps the packing invariant |
| PdfGenerator.Flush | brand-guidelines-builder/backend/src/generator/pdf_generator.py:1325-1326 | proof step of `WrapWords`: pushing the pending line after the loop leaves lines that hold every word and meet the packing properties |
| PdfGenerator.Extend | brand-guidelines-builder/backend/src/generator/pdf_generator.py:1316-1318 | proof step of `WrapWords`: appending a word that keeps the count within the limit keeps the pending line well formed |
| PdfGenerator.Open | brand-guidelines-builder/backend/src/generator/pdf_generator.py:1321-1323 | proof step of `WrapWords`: a word that opens a line is counted with its trailing space only when it opens the first line and fits |
| PdfGenerator.Close | brand-guidelines-builder/backend/src/generator/pdf_generator.py:1320-1321 | proof step of `WrapWords`: pushing the pending line keeps the finished lines well formed and counts the new one as the pending line was |
| PdfGenerator.Finish | brand-guidelines-builder/backend/src/generator/pdf_generator.py:1308-1328 | lines built from word groups read back as those groups, so the packing properties hold of the lines' own words |
| Text.WordsOfJoin | brand-guidelines-builder/backend/src/generator/pdf_generator.py:1310-1326 | splitting words joined by single spaces gives the words back |
| Text.Words | brand-guidelines-builder/backend/src/generator/pdf_generator.py:1310 | `text.split()` gives non-empty words free of any character `str.isspace()` holds for |
| Text.Find | brand-guidelines-builder/backend/src/extractors/ai_analyzer.py:131 | `find` gives the first index where the pattern occurs, or -1 when it occurs nowhere |
| Text.RFind | brand-guidelines-builder/backend/src/extractors/ai_analyzer.py:132 | `rfind` gives the last index of the character, or -1 |
| Text.Strip | brand-guidelines-builder/backend/src/extractors/ai_analyzer.py:116 | a stripped text neither starts nor ends with a character `str.isspace()` holds for |
| Text.StripCharsRemovesOnly | brand-guidelines-builder/backend/src/extractors/ai_analyzer.py:116 | `strip` removes only stripped characters, and only from the two ends: what is left is the slice between them |
| Text.Split | brand-guidelines-builder/backend/src/extractors/ai_analyzer.py:121 | `split` on a separator gives at least one part |
| Text.CutAt | brand-guidelines-builder/backend/src/extractors/typography_extractor.py:58 | the first part of a split on a character class is the longest prefix free of those characters |
| Text.CutAtPrefix | brand-guidelines-builder/backend/src/workers/tasks.py:128 | a prefix free of the stop characters, followed by a stop character or nothing, is exactly what the cut keeps |
| Text.Hex2 | brand-guidelines-builder/backend/src/utils/color_utils.py:15-17 | `{:02X}` writes upper-case hex digits, exactly two of them when the value is below 256, and they read back as the value |
| Text.Hex2IsPadded | brand-guidelines-builder/backend/src/utils/color_utils.py:15-17 | `{:02X}` is `format(n, 'X')` left-padded with `0` to width two |
| Text.Upper | brand-guidelines-builder/backend/src/models/brand_data.py:24 | ASCII `upper()`: keeps the length and maps each `a`-`z` to its capital, leaving every other character alone |
| Text.Lower | brand-guidelines-builder/backend/src/extractors/typography_extractor.py:98 | ASCII `lower()`: keeps the length and maps each `A`-`Z` to its small letter, leaving every other character alone |
| Text.ReplaceCharRemoves | brand-guidelines-builder/backend/src/extractors/typography_extractor.py:51 | replacing a character by another leaves none of the first behind |
| Text.TrimStartRemoves | brand-guidelines-builder/backend/src/extractors/typography_extractor.py:58 | everything `lstrip` removes is a stripped character |
| Text.SplitAvoids | brand-guidelines-builder/backend/src/extractors/typography_extractor.py:54 | the parts of `split(c)` hold no `c` |
| Url.Netloc | brand-guidelines-builder/backend/src/workers/tasks.py:120 | the netloc never holds `/`, `?` or `#` |
| Url.NetlocOfAbsolute | brand-guidelines-builder/backend/src/workers/tasks.py:120 | `scheme://host` followed by a path, query or fragment has `host` as its netloc |
| Url.NetlocOfRelative | brand-guidelines-builder/backend/src/scraper/website_scraper.py:150-153 | a path with no `:` that does not start with `//` has an empty netloc, so it counts as internal |
| Url.AfterValidScheme | brand-guidelines-builder/backend/src/workers/tasks.py:120 | a valid scheme and its `:` are removed before the netloc is read |

## Left out

- Browser automation, HTTP clients, Redis and the language-model API call: their results are parameters (`scrapePage`, `fetch`, `loads`, `outcome`, `pageText`), because they are I/O.
- Regular-expression scans and BeautifulSoup parsing: the model receives the captured groups and the element records in document order, because regex and HTML engines are library code.
- `urljoin` is the parameter `join`, because URL resolution is library code. `urlparse` is modelled only as far as `netloc`.
- `json.loads`/`json.dumps` round trips of the stored records are taken as the identity; that holds for the strings, integers and `None` the job records contain.
- The `hsl()` branch of `_extract_from_css` and `_hsl_to_rgb`: floating-point approximation. The converted colours are a parameter.
- `get_luminance` and `contrast_ratio`: floating-point colour maths that the pipeline does not use.
- ColorThief palette extraction from images: the per-image palettes are a parameter, `None` for an image that raises.
- ColorUtils.CmykOf: computed on exact reals rather than IEEE doubles, so results where float rounding would flip `int(x * 100)` are not reproduced.
- ColorUtils.PairAt: `int(x, 16)` also accepts a sign, surrounding whitespace and underscores between digits; the model accepts hex digits only.
- AiAnalyzer.TextField: a narrative key holding a JSON value that is not a string (a number, a list) is stored as that value by the source; the model stores `None` for it.
- Tasks.TitleFrom: `str.title()` is modelled on ASCII letters only.
- WebsiteScraper.AnchorText: the page script's JavaScript `toLowerCase` is modelled on ASCII letters only, like Text.Lower; its `trim` set is modelled in full. The browser resolves `a.href` to an absolute URL; the model takes the anchors' `href` values as given.
- Wrappers.Result: an `Err` text names the failure; it is the Python exception's `str(e)` only where a member says so. Exceptions raised inside libraries (an `AttributeError` on a non-string logo value, pydantic's `ValidationError` around a validator's message, a reply field that is not a list or whose items do not build the record) carry other texts.
- Text.Upper: `str.upper()` is modelled on ASCII letters only, so it keeps the length; Python maps other letters too and can lengthen a string (`'ß'` becomes `'SS'`). brand_data.py:24 and color_extractor.py:67 upper-case a colour only after an ASCII hex pattern matched it, so both calls are unaffected.
- Text.Lower: `str.lower()` is modelled on ASCII letters only; Python also lower-cases other letters and can lengthen a string (`'İ'` becomes `'i'` and a combining dot). Its call sites only look for ASCII names and keywords in the result: typography_extractor.py:98 gives the same answer, since no generic family name is the lower case of a non-ASCII text, and so do the scraper's page keywords; the one difference is the Kelvin sign U+212A, which Python lowers to `k`, so a logo URL, class or `alt` text spelling `MAR` plus a Kelvin sign matches the `mark` pattern at logo_extractor.py:123-157 in Python and not in the model.
- Url.Netloc: the removal of tabs and newlines from URLs, and the handling of IPv6 brackets and ports, are not modelled.
- Tasks.PathParts: `pathlib` normalisation is modelled as dropping empty and `.` components; a job id holding `/` is not treated specially.
- Pydantic's lax coercions in the response models: a field of the wrong JSON type is a server error in the model. The records the pipeline writes are always well typed.
- Routes.Shown renders only scalar statuses; a list or object stored as a status is not rendered.
- The 24-hour expiry of job records: time is not modelled.
- Celery delivery and retries: `max_retries=2` is declared, but the Celery task never asks for a retry.
- The health-check route: it only pings Redis.
- A Redis failure inside `update_job_status`, or inside the failure write itself: store operations are taken to succeed.
- Page screenshots: they are taken but never read by the pipeline.
- `_find_css_urls` reads the stylesheet links of whatever page the browser last visited, which is the last key page tried and not necessarily the home page. The model takes those URLs as an input.
- The fixed instructions of the prompt that follow the website content are the parameter `instructions`.
- `AIAnalyzer.analyze` itself: the prompt, the API call and the parse and merge are composed there, and only the parts other than the call are modelled.
- All PDF drawing, and reportlab's `HexColor` parsing. `_setup_colors`'s fallback for a missing primary colour is unreachable, because `primary` is a required field of the palette.
