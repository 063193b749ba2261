/** The two pieces of the PDF generator that compute rather than draw: the
    theme colours built from the brand palette, and the greedy word wrap
    used to lay out every paragraph. */
module PdfGenerator {
  import opened BrandData
  import opened Text

  const MonsoonHex: string := "#070d59"
  const DefaultAccentHex: string := "#0066ff"
  const DefaultSecondaryHex: string := "#1f3c88"

  /** The colour table `_setup_colors` builds, one field per name, as the
      hex strings handed to `HexColor`. */
  datatype ThemeColors = ThemeColors(
    monsoon: string, aurora: string, storm: string, frost: string, fog: string,
    mist: string, dust: string, haze: string, white: string,
    textDark: string, textLight: string,
    primary: string, accent: string, secondary: string)

  /** The colours the theme fixes whatever the brand. */
  predicate ThemeFixed(c: ThemeColors)
  {
    && c.monsoon == MonsoonHex && c.frost == "#ffffff" && c.fog == "#d6e0f0"
    && c.mist == "#f1f3f8" && c.dust == "#e0bea3" && c.haze == "#decfc3"
    && c.white == "#ffffff" && c.textDark == MonsoonHex && c.textLight == "#666666"
  }

  /** `_setup_colors`. The primary colour is a required field of the
      palette, so its `#070d59` fallback never applies; a missing accent or
      secondary colour falls back to a theme blue. */
  function SetupColors(colors: ColorPalette): (c: ThemeColors)
    ensures ThemeFixed(c)
    ensures c.primary == colors.primary.hex
    ensures c.aurora == c.accent && c.storm == c.secondary
    ensures c.accent == if colors.accent.Some? then colors.accent.value.hex else DefaultAccentHex
    ensures c.secondary == if colors.secondary.Some? then colors.secondary.value.hex else DefaultSecondaryHex
  {
    var accentHex := if colors.accent.Some? then colors.accent.value.hex else DefaultAccentHex;
    var secondaryHex := if colors.secondary.Some? then colors.secondary.value.hex else DefaultSecondaryHex;
    ThemeColors(MonsoonHex, accentHex, secondaryHex, "#ffffff", "#d6e0f0", "#f1f3f8", "#e0bea3", "#decfc3",
                "#ffffff", MonsoonHex, "#666666", colors.primary.hex, accentHex, secondaryHex)
  }

  /** Every entry is a valid `#RRGGBB` value when the palette's own hex
      values are. */
  predicate AllHex(c: ThemeColors)
  {
    && HexPattern(c.monsoon) && HexPattern(c.aurora) && HexPattern(c.storm) && HexPattern(c.frost)
    && HexPattern(c.fog) && HexPattern(c.mist) && HexPattern(c.dust) && HexPattern(c.haze)
    && HexPattern(c.white) && HexPattern(c.textDark) && HexPattern(c.textLight)
    && HexPattern(c.primary) && HexPattern(c.accent) && HexPattern(c.secondary)
  }

  lemma SetupColorsValid(colors: ColorPalette)
    requires HexPattern(colors.primary.hex)
    requires colors.accent.Some? ==> HexPattern(colors.accent.value.hex)
    requires colors.secondary.Some? ==> HexPattern(colors.secondary.value.hex)
    ensures AllHex(SetupColors(colors))
  {
    assert HexPattern(MonsoonHex) && HexPattern("#ffffff") && HexPattern("#d6e0f0");
    assert HexPattern("#f1f3f8") && HexPattern("#e0bea3") && HexPattern("#decfc3");
    assert HexPattern("#666666") && HexPattern(DefaultAccentHex) && HexPattern(DefaultSecondaryHex);
  }

  /** The words of the lines, in order. */
  function WordsOfLines(lines: seq<string>): seq<string>
    decreases |lines|
  {
    if lines == [] then [] else WordsOfLines(lines[..|lines| - 1]) + Words(lines[|lines| - 1])
  }

  /** The words of the groups, in order. */
  function Concat(groups: seq<seq<string>>): seq<string>
    decreases |groups|
  {
    if groups == [] then [] else Concat(groups[..|groups| - 1]) + groups[|groups| - 1]
  }

  /** The first word fits on the first line together with one space. */
  predicate FirstFits(words: seq<string>, maxChars: int)
  {
    words != [] && |words[0]| + 1 <= maxChars
  }

  /** The count `_wrap_text` holds against the limit for line `g`: its
      length, plus one for the first line when that line was opened by a
      fitting first word (the count then includes a space after every
      word). */
  function Used(lines: seq<string>, g: nat, firstFits: bool): int
    requires g < |lines|
  {
    |lines[g]| + if g == 0 && firstFits then 1 else 0
  }

  predicate IsWord(w: string)
  {
    w != "" && NoWhitespace(w)
  }

  /** Each finished line is the words of its group joined by single
      spaces. */
  predicate Joined(lines: seq<string>, groups: seq<seq<string>>)
  {
    && |lines| == |groups|
    && (forall g :: 0 <= g < |groups| ==> groups[g] != [] && lines[g] == Join(groups[g], " "))
  }

  /** The groups hold words only. */
  predicate AllWords(groups: seq<seq<string>>)
  {
    forall g, k :: 0 <= g < |groups| && 0 <= k < |groups[g]| ==> IsWord(groups[g][k])
  }

  /** Each finished line is within the limit unless it is one word. */
  predicate Fits(lines: seq<string>, groups: seq<seq<string>>, ff: bool, maxChars: int)
  {
    && |lines| == |groups|
    && forall g :: 0 <= g < |groups| ==> |groups[g]| == 1 || Used(lines, g, ff) <= maxChars
  }

  /** The first word of each finished line would not have fitted on the
      line before. */
  predicate Greedy(lines: seq<string>, groups: seq<seq<string>>, ff: bool, maxChars: int)
  {
    && |lines| == |groups|
    && (forall g :: 0 <= g < |groups| ==> groups[g] != [])
    && forall g :: 0 <= g < |groups| - 1 ==> Used(lines, g, ff) + 1 + |groups[g + 1][0]| > maxChars
  }

  /** What holds of the finished lines; a first line opened by a fitting
      word is also one under the limit. */
  predicate Wrapped(lines: seq<string>, groups: seq<seq<string>>, ff: bool, maxChars: int)
  {
    && Joined(lines, groups)
    && AllWords(groups)
    && Fits(lines, groups, ff, maxChars)
    && Greedy(lines, groups, ff, maxChars)
    && (ff && lines != [] ==> |lines[0]| + 1 <= maxChars)
  }

  /** What holds of the line being built, a non-empty list of words after
      `lines`: its count, its bound, and that its first word did not fit on
      the last finished line. */
  predicate Pending(lines: seq<string>, currentLine: seq<string>, currentLength: int, ff: bool, maxChars: int)
  {
    && currentLine != []
    && (forall k :: 0 <= k < |currentLine| ==> IsWord(currentLine[k]))
    && currentLength == |Join(currentLine, " ")| + (if lines == [] && ff then 1 else 0)
    && (|currentLine| >= 2 || (lines == [] && ff) ==> currentLength <= maxChars)
    && (lines != [] ==> Used(lines, |lines| - 1, ff) + 1 + |currentLine[0]| > maxChars)
  }

  /** `_wrap_text`: the words of `text` packed greedily into lines joined
      by single spaces. The lines hold exactly the words of the text, in
      order, and none is empty; a line is within the limit unless it is a
      single word; the first word of each line would not have fitted on the
      line before it. The first line is held one character under the limit
      when its first word fits. */
  method WrapText(text: string, maxChars: int) returns (lines: seq<string>)
    ensures WordsOfLines(lines) == Words(text)
    ensures lines == [] <==> Words(text) == []
    ensures forall g :: 0 <= g < |lines| ==> Words(lines[g]) != [] && lines[g] == Join(Words(lines[g]), " ")
    ensures forall g :: 0 <= g < |lines| ==>
      |Words(lines[g])| == 1 || Used(lines, g, FirstFits(Words(text), maxChars)) <= maxChars
    ensures forall g :: 0 <= g < |lines| - 1 ==>
      Used(lines, g, FirstFits(Words(text), maxChars)) + 1 + |Words(lines[g + 1])[0]| > maxChars
    ensures FirstFits(Words(text), maxChars) ==> |lines| > 0 && |lines[0]| + 1 <= maxChars
  {
    var words := Words(text);
    lines := WrapWords(words, maxChars);
  }

  /** The loop of `_wrap_text` over the words of the text. */
  method WrapWords(words: seq<string>, maxChars: int) returns (lines: seq<string>)
    requires forall k :: 0 <= k < |words| ==> IsWord(words[k])
    ensures WordsOfLines(lines) == words
    ensures lines == [] <==> words == []
    ensures forall g :: 0 <= g < |lines| ==> Words(lines[g]) != [] && lines[g] == Join(Words(lines[g]), " ")
    ensures forall g :: 0 <= g < |lines| ==>
      |Words(lines[g])| == 1 || Used(lines, g, FirstFits(words, maxChars)) <= maxChars
    ensures forall g :: 0 <= g < |lines| - 1 ==>
      Used(lines, g, FirstFits(words, maxChars)) + 1 + |Words(lines[g + 1])[0]| > maxChars
    ensures FirstFits(words, maxChars) ==> |lines| > 0 && |lines[0]| + 1 <= maxChars
  {
    ghost var ff := FirstFits(words, maxChars);
    ghost var groups: seq<seq<string>> := [];
    lines := [];
    var currentLine: seq<string> := [];
    var currentLength := 0;
    for i := 0 to |words|
      invariant State(words, i, lines, groups, currentLine, currentLength, ff, maxChars)
    {
      var word := words[i];
      ghost var linesBefore, groupsBefore, lineBefore, lengthBefore := lines, groups, currentLine, currentLength;
      if currentLength + |word| + 1 <= maxChars {
        currentLine := currentLine + [word];
        currentLength := currentLength + |word| + 1;
      } else {
        if currentLine != [] {
          lines := lines + [Join(currentLine, " ")];
          groups := groups + [currentLine];
        }
        currentLine := [word];
        currentLength := |word|;
      }
      Step(words, i, linesBefore, groupsBefore, lineBefore, lengthBefore, ff, maxChars,
           lines, groups, currentLine, currentLength);
    }
    ghost var linesBefore, groupsBefore := lines, groups;
    if currentLine != [] {
      lines := lines + [Join(currentLine, " ")];
      groups := groups + [currentLine];
    }
    Flush(words, linesBefore, groupsBefore, currentLine, currentLength, ff, maxChars, lines, groups);
    Finish(words, lines, groups, maxChars);
  }

  /** The state of the loop after `i` words: the finished lines and their
      groups, and the line being built, hold the first `i` words. */
  predicate State(words: seq<string>, i: nat, lines: seq<string>, groups: seq<seq<string>>,
                  currentLine: seq<string>, currentLength: int, ff: bool, maxChars: int)
  {
    && i <= |words|
    && Concat(groups) + currentLine == words[..i]
    && (i == 0 ==> lines == [] && currentLine == [] && currentLength == 0)
    && (i > 0 ==> Pending(lines, currentLine, currentLength, ff, maxChars))
    && Wrapped(lines, groups, ff, maxChars)
  }

  /** One turn of the loop keeps its state. */
  lemma Step(words: seq<string>, i: nat, lines: seq<string>, groups: seq<seq<string>>,
             currentLine: seq<string>, currentLength: int, ff: bool, maxChars: int,
             lines': seq<string>, groups': seq<seq<string>>, currentLine': seq<string>, currentLength': int)
    requires forall k :: 0 <= k < |words| ==> IsWord(words[k])
    requires ff == FirstFits(words, maxChars)
    requires i < |words|
    requires State(words, i, lines, groups, currentLine, currentLength, ff, maxChars)
    requires var word := words[i];
      if currentLength + |word| + 1 <= maxChars then
        lines' == lines && groups' == groups && currentLine' == currentLine + [word] && currentLength' == currentLength + |word| + 1
      else
        && (currentLine != [] ==> lines' == lines + [Join(currentLine, " ")] && groups' == groups + [currentLine])
        && (currentLine == [] ==> lines' == lines && groups' == groups)
        && currentLine' == [word] && currentLength' == |word|
    ensures State(words, i + 1, lines', groups', currentLine', currentLength', ff, maxChars)
  {
    var word := words[i];
    assert IsWord(word);
    Consume(words, i, Concat(groups), currentLine);
    if currentLength + |word| + 1 <= maxChars {
      if currentLine != [] {
        Extend(lines, currentLine, currentLength, word, ff, maxChars);
      } else {
        Open(lines, word, |word| + 1, ff, maxChars);
      }
    } else if currentLine != [] {
      Break(lines, groups, currentLine, currentLength, word, ff, maxChars, lines', groups');
    } else {
      Open(lines, word, |word|, ff, maxChars);
    }
  }

  /** The last line is closed once every word is taken. */
  lemma Flush(words: seq<string>, lines: seq<string>, groups: seq<seq<string>>,
              currentLine: seq<string>, currentLength: int, ff: bool, maxChars: int,
              lines': seq<string>, groups': seq<seq<string>>)
    requires State(words, |words|, lines, groups, currentLine, currentLength, ff, maxChars)
    requires currentLine != [] ==> lines' == lines + [Join(currentLine, " ")] && groups' == groups + [currentLine]
    requires currentLine == [] ==> lines' == lines && groups' == groups
    ensures Wrapped(lines', groups', ff, maxChars)
    ensures Concat(groups') == words
  {
    assert words[..|words|] == words;
    if currentLine != [] {
      Close(lines, groups, currentLine, currentLength, ff, maxChars);
    }
  }

  /** Taking the next word of `words` onto what is taken. */
  lemma Consume(words: seq<string>, i: nat, done: seq<string>, current: seq<string>)
    requires i < |words| && done + current == words[..i]
    ensures done + (current + [words[i]]) == words[..i + 1]
    ensures (done + current) + [words[i]] == words[..i + 1]
  {
    assert words[..i + 1] == words[..i] + [words[i]];
  }

  /** `current_line.append(word)` while the count stays within the limit
      keeps the line being built in order. */
  lemma Extend(lines: seq<string>, currentLine: seq<string>, currentLength: int, word: string, ff: bool, maxChars: int)
    requires Pending(lines, currentLine, currentLength, ff, maxChars)
    requires IsWord(word) && currentLength + |word| + 1 <= maxChars
    ensures Pending(lines, currentLine + [word], currentLength + |word| + 1, ff, maxChars)
  {
    JoinAppend(currentLine, word, " ");
    assert (currentLine + [word])[0] == currentLine[0];
  }

  /** `current_line = [word]`: a word that opens a line, counted with its
      trailing space only when it opens the first line and fits. */
  lemma Open(lines: seq<string>, word: string, currentLength: int, ff: bool, maxChars: int)
    requires IsWord(word)
    requires currentLength == |word| + (if lines == [] && ff then 1 else 0)
    requires lines == [] && ff ==> currentLength <= maxChars
    requires lines != [] ==> Used(lines, |lines| - 1, ff) + 1 + |word| > maxChars
    ensures Pending(lines, [word], currentLength, ff, maxChars)
  {
  }

  /** `lines.append(' '.join(current_line))`: the finished lines stay in
      order, the new one counted as the line being built was. */
  lemma Close(lines: seq<string>, groups: seq<seq<string>>, currentLine: seq<string>, currentLength: int,
              ff: bool, maxChars: int)
    requires Pending(lines, currentLine, currentLength, ff, maxChars)
    requires Wrapped(lines, groups, ff, maxChars)
    ensures Used(lines + [Join(currentLine, " ")], |lines|, ff) == currentLength
    ensures Wrapped(lines + [Join(currentLine, " ")], groups + [currentLine], ff, maxChars)
    ensures Concat(groups + [currentLine]) == Concat(groups) + currentLine
  {
    var line := Join(currentLine, " ");
    assert (groups + [currentLine])[..|groups|] == groups;
    assert Used(lines + [line], |lines|, ff) == currentLength;
    JoinedPush(lines, groups, currentLine);
    AllWordsPush(groups, currentLine);
    FitsPush(lines, groups, line, currentLine, ff, maxChars);
    GreedyPush(lines, groups, line, currentLine, ff, maxChars);
  }

  lemma JoinedPush(lines: seq<string>, groups: seq<seq<string>>, group: seq<string>)
    requires Joined(lines, groups)
    requires group != []
    ensures Joined(lines + [Join(group, " ")], groups + [group])
  {
    var ls, gs := lines + [Join(group, " ")], groups + [group];
    forall g | 0 <= g < |gs|
      ensures gs[g] != [] && ls[g] == Join(gs[g], " ")
    {
      if g < |groups| {
        assert ls[g] == lines[g] && gs[g] == groups[g];
      }
    }
  }

  lemma AllWordsPush(groups: seq<seq<string>>, group: seq<string>)
    requires AllWords(groups)
    requires forall k :: 0 <= k < |group| ==> IsWord(group[k])
    ensures AllWords(groups + [group])
  {
    var gs := groups + [group];
    forall g, k | 0 <= g < |gs| && 0 <= k < |gs[g]|
      ensures IsWord(gs[g][k])
    {
      if g < |groups| {
        assert gs[g] == groups[g];
      }
    }
  }

  lemma FitsPush(lines: seq<string>, groups: seq<seq<string>>, line: string, group: seq<string>, ff: bool, maxChars: int)
    requires Fits(lines, groups, ff, maxChars)
    requires |group| == 1 || Used(lines + [line], |lines|, ff) <= maxChars
    ensures Fits(lines + [line], groups + [group], ff, maxChars)
  {
    var ls, gs := lines + [line], groups + [group];
    forall g | 0 <= g < |gs|
      ensures |gs[g]| == 1 || Used(ls, g, ff) <= maxChars
    {
      if g < |groups| {
        assert Used(ls, g, ff) == Used(lines, g, ff) && gs[g] == groups[g];
      }
    }
  }

  lemma GreedyPush(lines: seq<string>, groups: seq<seq<string>>, line: string, group: seq<string>, ff: bool, maxChars: int)
    requires Greedy(lines, groups, ff, maxChars)
    requires group != []
    requires lines != [] ==> Used(lines, |lines| - 1, ff) + 1 + |group[0]| > maxChars
    ensures Greedy(lines + [line], groups + [group], ff, maxChars)
  {
    var ls, gs := lines + [line], groups + [group];
    forall g | 0 <= g < |gs| - 1
      ensures Used(ls, g, ff) + 1 + |gs[g + 1][0]| > maxChars
    {
      assert Used(ls, g, ff) == Used(lines, g, ff);
    }
  }

  /** A word that does not fit closes the line being built and opens the
      next. */
  lemma Break(lines: seq<string>, groups: seq<seq<string>>, currentLine: seq<string>, currentLength: int,
              word: string, ff: bool, maxChars: int, lines': seq<string>, groups': seq<seq<string>>)
    requires Pending(lines, currentLine, currentLength, ff, maxChars)
    requires Wrapped(lines, groups, ff, maxChars)
    requires IsWord(word) && currentLength + |word| + 1 > maxChars
    requires lines' == lines + [Join(currentLine, " ")] && groups' == groups + [currentLine]
    ensures Wrapped(lines', groups', ff, maxChars)
    ensures Pending(lines', [word], |word|, ff, maxChars)
    ensures Concat(groups') == Concat(groups) + currentLine
  {
    Close(lines, groups, currentLine, currentLength, ff, maxChars);
    Open(lines', word, |word|, ff, maxChars);
  }

  /** The lines built from the groups of all the words meet the contract
      of the wrap. */
  lemma Finish(words: seq<string>, lines: seq<string>, groups: seq<seq<string>>, maxChars: int)
    requires Wrapped(lines, groups, FirstFits(words, maxChars), maxChars)
    requires Concat(groups) == words
    ensures WordsOfLines(lines) == words
    ensures lines == [] <==> words == []
    ensures forall g :: 0 <= g < |lines| ==> Words(lines[g]) != [] && lines[g] == Join(Words(lines[g]), " ")
    ensures forall g :: 0 <= g < |lines| ==>
      |Words(lines[g])| == 1 || Used(lines, g, FirstFits(words, maxChars)) <= maxChars
    ensures forall g :: 0 <= g < |lines| - 1 ==>
      Used(lines, g, FirstFits(words, maxChars)) + 1 + |Words(lines[g + 1])[0]| > maxChars
    ensures FirstFits(words, maxChars) ==> |lines| > 0 && |lines[0]| + 1 <= maxChars
  {
    forall g | 0 <= g < |lines|
      ensures Words(lines[g]) == groups[g]
    {
      assert forall k :: 0 <= k < |groups[g]| ==> IsWord(groups[g][k]);
      WordsOfJoin(groups[g]);
    }
    WordsOfGroups(lines, groups);
    if lines != [] {
      assert groups[|groups| - 1] != [];
      assert groups == groups[..|groups| - 1] + [groups[|groups| - 1]];
    }
  }

  /** The words of lines that each split into their group are the words
      of the groups. */
  lemma {:induction false} WordsOfGroups(lines: seq<string>, groups: seq<seq<string>>)
    requires |lines| == |groups|
    requires forall g :: 0 <= g < |lines| ==> Words(lines[g]) == groups[g]
    ensures WordsOfLines(lines) == Concat(groups)
    decreases |lines|
  {
    if lines != [] {
      WordsOfGroups(lines[..|lines| - 1], groups[..|groups| - 1]);
    }
  }
}
