/** The model-facing half of brand analysis: the prompt is built from the
    scraped text, the reply is unwrapped from a code fence and the outermost
    braces, and the parsed object is merged into the extracted brand.

    The API call is not modelled; `json.loads` is the parameter `loads`, and
    the fixed instructions that follow the website content in the prompt are
    the parameter `instructions`. */
module AiAnalyzer {
  import opened Wrappers
  import opened Text
  import opened Json
  import opened BrandData

  // ---- prompt ----

  const PromptTextLimit: nat := 15000

  /** `text[:15000] if len(text) > 15000 else text` */
  function Truncated(text: string): (r: string)
    ensures r <= text
    ensures |r| == if |text| > PromptTextLimit then PromptTextLimit else |text|
  {
    if |text| > PromptTextLimit then text[..PromptTextLimit] else text
  }

  function PromptHead(companyName: string): string
  {
    "Analyze this website content for " + companyName + " and generate brand guidelines content.\n\nWEBSITE CONTENT:\n"
  }

  /** `_build_prompt` */
  function BuildPrompt(text: string, companyName: string, instructions: string): string
  {
    PromptHead(companyName) + Truncated(text) + "\n\n" + instructions
  }

  /** The prompt carries the first 15000 characters of the text, and all of
      it when it is no longer, right after the fixed head. */
  lemma PromptEmbedsPrefix(text: string, companyName: string, instructions: string)
    ensures var p := BuildPrompt(text, companyName, instructions);
            var h := |PromptHead(companyName)|;
            var t := Truncated(text);
            h + |t| <= |p| && p[h..h + |t|] == t && t <= text && |t| <= PromptTextLimit
    ensures |text| <= PromptTextLimit ==> Truncated(text) == text
  {
    var h := PromptHead(companyName);
    var t := Truncated(text);
    var p := BuildPrompt(text, companyName, instructions);
    assert p == h + t + ("\n\n" + instructions);
    assert p[|h|..|h| + |t|] == t;
  }

  // ---- unwrapping the reply ----

  const Fence: string := "```"

  predicate StartsWith(s: string, p: string)
  {
    p <= s
  }

  /** A line that is a closing fence once stripped. */
  predicate IsFence(line: string)
  {
    Strip(line) == Fence
  }

  /** The index of the first line after the opening one whose stripped text
      is a fence, scanning from `i`; `|lines|` when there is none. */
  function FenceEnd(lines: seq<string>, i: nat): (e: nat)
    requires 1 <= i <= |lines|
    ensures i <= e <= |lines|
    ensures forall j :: i <= j < e ==> !IsFence(lines[j])
    ensures e < |lines| ==> IsFence(lines[e])
    decreases |lines| - i
  {
    if i == |lines| then i
    else if IsFence(lines[i]) then i
    else FenceEnd(lines, i + 1)
  }

  /** The reply with a leading code fence removed: the first line is dropped
      and the text stops before the first later line that is a fence. */
  function Unfenced(text: string): string
  {
    var t := Strip(text);
    if StartsWith(t, Fence) then
      var lines := Split(t, "\n");
      var start := if StartsWith(lines[0], Fence) then 1 else 0;
      Join(lines[start..FenceEnd(lines, 1)], "\n")
    else t
  }

  /** The first of the lines of a text that starts with a fence starts with
      the fence itself, so the opening line is always the one dropped. */
  lemma FirstLineIsFence(t: string)
    requires StartsWith(t, Fence)
    ensures StartsWith(Split(t, "\n")[0], Fence)
  {
    var i := Find(t, "\n");
    FindChar(t, '\n');
    if i >= 0 {
      assert t[0] == '`' && t[1] == '`' && t[2] == '`';
      assert i >= 3;
      assert Split(t, "\n")[0] == t[..i];
      assert Fence == t[..3] <= t[..i];
    }
  }

  /** A reply that does not open with a fence is only stripped; one that does
      keeps the lines strictly between the opening line and the closing
      fence. */
  lemma UnfencedSpec(text: string)
    ensures !StartsWith(Strip(text), Fence) ==> Unfenced(text) == Strip(text)
    ensures StartsWith(Strip(text), Fence) ==>
      var lines := Split(Strip(text), "\n");
      Unfenced(text) == Join(lines[1..FenceEnd(lines, 1)], "\n")
  {
    if StartsWith(Strip(text), Fence) {
      FirstLineIsFence(Strip(text));
    }
  }

  const NoJsonMessage: string := "Could not parse JSON from AI response"

  /** The text from the first `{` through the last `}`. */
  function JsonCandidate(t: string): Result<string>
  {
    var start := Find(t, "{");
    var end := RFind(t, '}') + 1;
    if start >= 0 && end > start then Ok(t[start..end]) else Err(NoJsonMessage)
  }

  /** A candidate exists exactly when some `}` follows some `{`. */
  lemma JsonCandidateExists(t: string)
    ensures JsonCandidate(t).Ok? <==> exists i, j :: 0 <= i < j < |t| && t[i] == '{' && t[j] == '}'
    ensures JsonCandidate(t).Err? ==> JsonCandidate(t).error == NoJsonMessage
  {
    FindChar(t, '{');
    var start := Find(t, "{");
    var end := RFind(t, '}') + 1;
    if exists i, j :: 0 <= i < j < |t| && t[i] == '{' && t[j] == '}' {
      var i, j :| 0 <= i < j < |t| && t[i] == '{' && t[j] == '}';
      assert start >= 0 && start <= i;
      assert end - 1 >= j;
    }
    if start >= 0 && end > start {
      assert t[start] == '{' && t[end - 1] == '}';
    }
  }

  /** The candidate runs from the first `{` to the last `}`: nothing before
      it is a `{` and nothing after it is a `}`. */
  lemma JsonCandidateShape(t: string)
    requires JsonCandidate(t).Ok?
    ensures var c := JsonCandidate(t).value;
            var start := Find(t, "{");
            && |c| >= 2 && c[0] == '{' && c[|c| - 1] == '}'
            && 0 <= start <= |t| - |c| && t[start..start + |c|] == c
            && (forall k :: 0 <= k < start ==> t[k] != '{')
            && (forall k :: start + |c| <= k < |t| ==> t[k] != '}')
  {
    FindChar(t, '{');
    var start := Find(t, "{");
    var end := RFind(t, '}') + 1;
    assert t[start] == '{' && t[end - 1] == '}';
    var c := t[start..end];
    assert c[0] == t[start] && c[|c| - 1] == t[end - 1];
    assert t[start..start + |c|] == c;
  }

  /** The fence-stripping half of `_parse_response`, scanning the lines for
      the closing fence. */
  method StripFence(text: string) returns (t: string)
    ensures t == Unfenced(text)
  {
    t := Strip(text);
    if StartsWith(t, Fence) {
      var lines := Split(t, "\n");
      var startIdx := if StartsWith(lines[0], Fence) then 1 else 0;
      var endIdx := |lines|;
      var i := 1;
      while i < |lines|
        invariant 1 <= i <= |lines| && endIdx == |lines|
        invariant FenceEnd(lines, 1) == FenceEnd(lines, i)
      {
        if IsFence(lines[i]) {
          endIdx := i;
          break;
        }
        i := i + 1;
      }
      assert endIdx == FenceEnd(lines, 1);
      t := Join(lines[startIdx..endIdx], "\n");
    }
  }

  /** `_parse_response`: the unfenced text's candidate is handed to `loads`. */
  method ParseResponse(text: string, loads: string -> Result<map<string, Json>>)
    returns (r: Result<map<string, Json>>)
    ensures r == match JsonCandidate(Unfenced(text))
                 case Ok(c) => loads(c)
                 case Err(e) => Err(e)
  {
    var t := StripFence(text);
    var start := Find(t, "{");
    var end := RFind(t, '}') + 1;
    assert JsonCandidate(t) == if start >= 0 && end > start then Ok(t[start..end]) else Err(NoJsonMessage);
    if start >= 0 && end > start {
      return loads(t[start..end]);
    }
    return Err(NoJsonMessage);
  }

  // ---- merging ----

  /** `ai_content.get(key)` stored in a text field. */
  function TextField(content: map<string, Json>, key: string): (r: Option<string>)
    ensures r.Some? <==> key in content && content[key].JStr?
  {
    if key in content && content[key].JStr? then Some(content[key].s) else None
  }

  /** The narrative fields `_merge_data` writes, in the order of
      `ExtractedBrand.Narrative()`, each read from its own key. */
  function NarrativeOf(content: map<string, Json>): seq<Option<string>>
  {
    [TextField(content, "tagline"), TextField(content, "positioning_headline"),
     TextField(content, "positioning_description"), TextField(content, "mission"),
     TextField(content, "mission_description"), TextField(content, "vision"),
     TextField(content, "vision_description"), TextField(content, "promise"),
     TextField(content, "promise_description"), TextField(content, "boilerplate"),
     TextField(content, "photo_style")]
  }

  /** A string field of a record built from an object with `**`. */
  function StrAt(m: map<string, Json>, key: string): Option<string>
  {
    if key in m && m[key].JStr? then Some(m[key].s) else None
  }

  function BuildPillar(item: Json): Option<BrandPillar>
  {
    if !item.JObj? then None
    else
      var title :- StrAt(item.fields, "title");
      var description :- StrAt(item.fields, "description");
      Some(BrandPillar(title, description))
  }

  function BuildTrait(item: Json): Option<PersonalityTrait>
  {
    if !item.JObj? then None
    else
      var name :- StrAt(item.fields, "name");
      var description :- StrAt(item.fields, "description");
      Some(PersonalityTrait(name, description))
  }

  function BuildGuideline(item: Json): Option<VoiceGuideline>
  {
    if !item.JObj? then None
    else
      var isTrait :- StrAt(item.fields, "is_trait");
      var isExample :- StrAt(item.fields, "is_example");
      var isNotTrait :- StrAt(item.fields, "is_not_trait");
      var isNotExample :- StrAt(item.fields, "is_not_example");
      Some(VoiceGuideline(isTrait, isExample, isNotTrait, isNotExample))
  }

  /** Every item built, or nothing when one of them cannot be. */
  function BuildAll<T>(items: seq<Json>, build: Json -> Option<T>): (r: Option<seq<T>>)
    ensures r.Some? ==> |r.value| == |items|
  {
    if items == [] then Some([])
    else
      var x :- build(items[0]);
      var rest :- BuildAll(items[1..], build);
      Some([x] + rest)
  }

  lemma {:induction false} BuildAllSpec<T>(items: seq<Json>, build: Json -> Option<T>)
    ensures BuildAll(items, build).Some? <==> forall k :: 0 <= k < |items| ==> build(items[k]).Some?
    ensures BuildAll(items, build).Some? ==>
      forall k :: 0 <= k < |items| ==> BuildAll(items, build).value[k] == build(items[k]).value
  {
    if items != [] {
      BuildAllSpec(items[1..], build);
      assert forall k :: 1 <= k < |items| ==> items[1..][k - 1] == items[k];
    }
  }

  const NotAListMessage: string := "expected a list of objects"
  const InvalidItemMessage: string := "list item does not build the record"

  /** `xs[:n]` */
  function Take<T>(xs: seq<T>, n: nat): (r: seq<T>)
    ensures r <= xs && |r| == if |xs| < n then |xs| else n
  {
    if |xs| <= n then xs else xs[..n]
  }

  /** What `if key in ai_content and ai_content[key]:` does with a list
      field: `None` keeps the old list, a value replaces it, an error is the
      exception building the records raises. */
  function ListUpdate<T>(content: map<string, Json>, key: string, cap: nat, build: Json -> Option<T>)
    : Result<Option<seq<T>>>
  {
    if key !in content || !Truthy(content[key]) then Ok(None)
    else
      match content[key]
      case JArr(items) =>
        (match BuildAll(Take(items, cap), build)
         case Some(xs) => Ok(Some(xs))
         case None => Err(InvalidItemMessage))
      case _ => Err(NotAListMessage)
  }

  /** A list is kept when its key is missing or falsy; otherwise it is
      replaced by the records of the first `cap` items, and the merge fails
      when the value is no list or one of those items is not a record. */
  lemma ListUpdateSpec<T>(content: map<string, Json>, key: string, cap: nat, build: Json -> Option<T>)
    ensures ListUpdate(content, key, cap, build) == Ok(None) <==> key !in content || !Truthy(content[key])
    ensures ListUpdate(content, key, cap, build).Ok? ==>
      key !in content || !Truthy(content[key])
      || (content[key].JArr? && forall k :: 0 <= k < |content[key].items| && k < cap ==> build(content[key].items[k]).Some?)
    ensures ListUpdate(content, key, cap, build).Ok? && ListUpdate(content, key, cap, build).value.Some? ==>
      var items := content[key].items;
      var xs := ListUpdate(content, key, cap, build).value.value;
      && |xs| <= cap && |xs| == (if |items| < cap then |items| else cap)
      && forall k :: 0 <= k < |xs| ==> xs[k] == build(items[k]).value
  {
    if key in content && Truthy(content[key]) && content[key].JArr? {
      var items := content[key].items;
      var head := Take(items, cap);
      BuildAllSpec(head, build);
      assert forall k :: 0 <= k < |head| ==> head[k] == items[k];
    }
  }

  /** The list the merge leaves in place of `old`. */
  function Updated<T>(u: Result<Option<seq<T>>>, old_: seq<T>): seq<T>
  {
    if u.Ok? && u.value.Some? then u.value.value else old_
  }

  /** The exception `_merge_data` raises, if any: that of the first list
      whose update fails. */
  function MergeError(content: map<string, Json>): (e: Option<string>)
    ensures e.None? <==>
      && ListUpdate(content, "pillars", MaxPillars, BuildPillar).Ok?
      && ListUpdate(content, "traits", MaxTraits, BuildTrait).Ok?
      && ListUpdate(content, "voice_guidelines", MaxVoiceGuidelines, BuildGuideline).Ok?
  {
    var p := ListUpdate(content, "pillars", MaxPillars, BuildPillar);
    var t := ListUpdate(content, "traits", MaxTraits, BuildTrait);
    var v := ListUpdate(content, "voice_guidelines", MaxVoiceGuidelines, BuildGuideline);
    if p.Err? then Some(p.error) else if t.Err? then Some(t.error) else if v.Err? then Some(v.error) else None
  }

  /** `_merge_data`: the narrative fields are overwritten first, then the
      three lists are updated in turn; an update that fails stops the merge,
      leaving what was already written. */
  method MergeData(existing: ExtractedBrand, content: map<string, Json>) returns (r: Result<ExtractedBrand>)
    modifies existing`tagline, existing`positioningHeadline, existing`positioningDescription,
             existing`mission, existing`missionDescription, existing`vision, existing`visionDescription,
             existing`promise, existing`promiseDescription, existing`boilerplate, existing`photoStyle,
             existing`pillars, existing`traits, existing`voiceGuidelines
    ensures existing.Narrative() == NarrativeOf(content)
    ensures var p := ListUpdate(content, "pillars", MaxPillars, BuildPillar);
            var t := ListUpdate(content, "traits", MaxTraits, BuildTrait);
            var v := ListUpdate(content, "voice_guidelines", MaxVoiceGuidelines, BuildGuideline);
            && existing.pillars == Updated(p, old(existing.pillars))
            && existing.traits == (if p.Ok? then Updated(t, old(existing.traits)) else old(existing.traits))
            && existing.voiceGuidelines ==
               (if p.Ok? && t.Ok? then Updated(v, old(existing.voiceGuidelines)) else old(existing.voiceGuidelines))
    ensures r == match MergeError(content)
                 case Some(e) => Err(e)
                 case None => Ok(existing)
    ensures old(existing.Valid()) ==> existing.Valid()
  {
    SetNarrative(existing, content);

    var pillars := ListUpdate(content, "pillars", MaxPillars, BuildPillar);
    if pillars.Err? {
      return Err(pillars.error);
    }
    ListCapped(content, "pillars", MaxPillars, BuildPillar, existing.pillars);
    existing.pillars := Updated(pillars, existing.pillars);
    var traits := ListUpdate(content, "traits", MaxTraits, BuildTrait);
    if traits.Err? {
      return Err(traits.error);
    }
    ListCapped(content, "traits", MaxTraits, BuildTrait, existing.traits);
    existing.traits := Updated(traits, existing.traits);
    var guidelines := ListUpdate(content, "voice_guidelines", MaxVoiceGuidelines, BuildGuideline);
    if guidelines.Err? {
      return Err(guidelines.error);
    }
    ListCapped(content, "voice_guidelines", MaxVoiceGuidelines, BuildGuideline, existing.voiceGuidelines);
    existing.voiceGuidelines := Updated(guidelines, existing.voiceGuidelines);
    return Ok(existing);
  }

  /** The first half of `_merge_data`: every narrative field is overwritten,
      with `None` where the key is missing. */
  method SetNarrative(existing: ExtractedBrand, content: map<string, Json>)
    modifies existing`tagline, existing`positioningHeadline, existing`positioningDescription,
             existing`mission, existing`missionDescription, existing`vision, existing`visionDescription,
             existing`promise, existing`promiseDescription, existing`boilerplate, existing`photoStyle
    ensures existing.Narrative() == NarrativeOf(content)
  {
    ghost var n := NarrativeOf(content);
    existing.tagline := TextField(content, "tagline");
    existing.positioningHeadline := TextField(content, "positioning_headline");
    existing.positioningDescription := TextField(content, "positioning_description");
    existing.mission := TextField(content, "mission");
    existing.missionDescription := TextField(content, "mission_description");
    existing.vision := TextField(content, "vision");
    existing.visionDescription := TextField(content, "vision_description");
    existing.promise := TextField(content, "promise");
    existing.promiseDescription := TextField(content, "promise_description");
    existing.boilerplate := TextField(content, "boilerplate");
    existing.photoStyle := TextField(content, "photo_style");
    assert existing.Narrative() == [n[0], n[1], n[2], n[3], n[4], n[5], n[6], n[7], n[8], n[9], n[10]];
  }

  /** A replacing list never exceeds its cap, so an update keeps a capped
      list capped. */
  lemma ListCapped<T>(content: map<string, Json>, key: string, cap: nat, build: Json -> Option<T>, old_: seq<T>)
    ensures |old_| <= cap ==> |Updated(ListUpdate(content, key, cap, build), old_)| <= cap
  {
    ListUpdateSpec(content, key, cap, build);
  }
}
