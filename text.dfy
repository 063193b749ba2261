/** The parts of Python's `str` that the pipeline relies on: case mapping,
    searching, slicing, splitting, stripping and number formatting.
    Case mapping is the ASCII one; whitespace is Python's full set. */
module Text {

  /** The characters `str.strip()` and `str.split()` without arguments treat
      as whitespace. */
  const Whitespace: set<char> := set c: char | IsSpace(c)

  /** `c.isspace()`, by code point: tab, line feed, vertical tab, form feed
      and carriage return (9-13), the four information separators and space
      (28-32), next line, no-break space, ogham space mark, the en quad to
      hair space block, line and paragraph separator, narrow no-break space,
      medium mathematical space and ideographic space. */
  predicate IsSpace(c: char)
  {
    var n := c as int;
    9 <= n <= 13 || 28 <= n <= 32 || n == 0x85 || n == 0xA0 || n == 0x1680
    || 0x2000 <= n <= 0x200A || n == 0x2028 || n == 0x2029 || n == 0x202F || n == 0x205F || n == 0x3000
  }

  predicate IsDigit(c: char) { '0' <= c <= '9' }

  predicate IsHexDigit(c: char) { '0' <= c <= '9' || 'a' <= c <= 'f' || 'A' <= c <= 'F' }

  predicate IsLowerLetter(c: char) { 'a' <= c <= 'z' }

  /** The value of one base-16 digit, as `int(c, 16)` reads it. */
  function HexValue(c: char): (v: nat)
    requires IsHexDigit(c)
    ensures v < 16
  {
    if '0' <= c <= '9' then c as int - '0' as int
    else if 'a' <= c <= 'f' then c as int - 'a' as int + 10
    else c as int - 'A' as int + 10
  }

  /** The upper-case digit that `format(d, 'X')` writes for `d`. */
  function HexDigit(d: nat): (c: char)
    requires d < 16
    ensures IsHexDigit(c) && HexValue(c) == d && !IsLowerLetter(c)
  {
    if d < 10 then ('0' as int + d) as char else ('A' as int + d - 10) as char
  }

  function UpperChar(c: char): (u: char)
    ensures !IsLowerLetter(u)
    ensures IsHexDigit(c) ==> IsHexDigit(u) && HexValue(u) == HexValue(c)
  {
    if IsLowerLetter(c) then (c as int - 32) as char else c
  }

  function LowerChar(c: char): char
  {
    if 'A' <= c <= 'Z' then (c as int + 32) as char else c
  }

  /** `s.upper()` */
  function Upper(s: string): (r: string)
    ensures |r| == |s|
    ensures forall i :: 0 <= i < |s| ==> r[i] == UpperChar(s[i])
  {
    seq(|s|, i requires 0 <= i < |s| => UpperChar(s[i]))
  }

  /** `s.lower()` */
  function Lower(s: string): (r: string)
    ensures |r| == |s|
    ensures forall i :: 0 <= i < |s| ==> r[i] == LowerChar(s[i])
  {
    seq(|s|, i requires 0 <= i < |s| => LowerChar(s[i]))
  }

  /** `s.endswith(p)` */
  predicate EndsWith(s: string, p: string)
  {
    |p| <= |s| && s[|s| - |p|..] == p
  }

  /** `p` occurs in `s` at index `k`. */
  predicate MatchAt(s: string, p: string, k: nat)
  {
    k + |p| <= |s| && s[k..k + |p|] == p
  }

  /** `s.find(p)`: the first index at which `p` occurs, or -1. */
  function Find(s: string, p: string): (i: int)
    ensures i == -1 || 0 <= i <= |s| - |p|
    ensures i >= 0 ==> MatchAt(s, p, i)
    ensures forall k: nat :: (i < 0 || k < i) ==> !MatchAt(s, p, k)
    decreases |s|
  {
    if |s| < |p| then -1
    else if s[..|p|] == p then 0
    else
      var j := Find(s[1..], p);
      assert !MatchAt(s, p, 0);
      assert forall k: nat :: 1 <= k ==> (MatchAt(s, p, k) <==> MatchAt(s[1..], p, k - 1));
      if j < 0 then -1 else j + 1
  }

  /** `p in s` */
  predicate Contains(s: string, p: string)
  {
    Find(s, p) >= 0
  }

  /** `any(p in s for p in ps)` */
  predicate ContainsAny(s: string, ps: seq<string>)
  {
    exists i :: 0 <= i < |ps| && Contains(s, ps[i])
  }

  lemma FindChar(s: string, c: char)
    ensures Find(s, [c]) >= 0 ==> s[Find(s, [c])] == c
    ensures forall k :: 0 <= k < |s| && (Find(s, [c]) < 0 || k < Find(s, [c])) ==> s[k] != c
  {
    var i := Find(s, [c]);
    forall k | 0 <= k < |s| && (i < 0 || k < i)
      ensures s[k] != c
    {
      assert !MatchAt(s, [c], k);
      assert s[k..k + 1] == [s[k]];
    }
    if i >= 0 {
      assert MatchAt(s, [c], i);
      assert s[i..i + 1] == [s[i]];
    }
  }

  /** `s.rfind(c)`: the last index of `c`, or -1. */
  function RFind(s: string, c: char): (i: int)
    ensures -1 <= i < |s|
    ensures i >= 0 ==> s[i] == c
    ensures forall k :: i < k < |s| ==> s[k] != c
  {
    if s == [] then -1
    else if s[|s| - 1] == c then |s| - 1
    else RFind(s[..|s| - 1], c)
  }

  /** `s[i:j]` for non-negative `i` and `j`: both ends are clamped to `len(s)`. */
  function Slice(s: string, i: nat, j: nat): (r: string)
    ensures i <= j && j <= |s| ==> r == s[i..j]
    ensures |r| <= |s| && (j <= i ==> r == "")
  {
    var a := if i < |s| then i else |s|;
    var b := if j < |s| then j else |s|;
    if b <= a then "" else s[a..b]
  }

  /** `s.split(sep)` for a non-empty separator. */
  function Split(s: string, sep: string): (parts: seq<string>)
    requires |sep| > 0
    ensures |parts| >= 1
    decreases |s|
  {
    var i := Find(s, sep);
    if i < 0 then [s] else [s[..i]] + Split(s[i + |sep|..], sep)
  }

  /** `sep.join(parts)` */
  function Join(parts: seq<string>, sep: string): string
  {
    if |parts| == 0 then ""
    else if |parts| == 1 then parts[0]
    else parts[0] + sep + Join(parts[1..], sep)
  }

  /** The longest prefix of `s` holding no character of `cs`: `s.split(c)[0]`
      when `cs == {c}`, and `re.split('[...]', s)[0]` for a character class. */
  function CutAt(s: string, cs: set<char>): (r: string)
    ensures r <= s
    ensures forall k :: 0 <= k < |r| ==> r[k] !in cs
    ensures |r| < |s| ==> s[|r|] in cs
  {
    if s == [] || s[0] in cs then [] else [s[0]] + CutAt(s[1..], cs)
  }

  /** Cutting stops exactly at the end of a prefix free of the stop set when
      the rest starts with a stop character or is empty. */
  lemma {:induction false} CutAtPrefix(a: string, b: string, cs: set<char>)
    requires Avoids(a, cs) && (b == [] || b[0] in cs)
    ensures CutAt(a + b, cs) == a
  {
    if a != [] {
      assert (a + b)[1..] == a[1..] + b;
      CutAtPrefix(a[1..], b, cs);
    }
  }

  /** `s.lstrip(chars)` */
  function TrimStart(s: string, cs: set<char>): (r: string)
    ensures |r| <= |s| && r == s[|s| - |r|..]
    ensures r == [] || r[0] !in cs
  {
    if s != [] && s[0] in cs then TrimStart(s[1..], cs) else s
  }

  /** Everything `lstrip` removes is one of the stripped characters. */
  lemma {:induction false} TrimStartRemoves(s: string, cs: set<char>)
    ensures forall k :: 0 <= k < |s| - |TrimStart(s, cs)| ==> s[k] in cs
    decreases |s|
  {
    if s != [] && s[0] in cs {
      TrimStartRemoves(s[1..], cs);
      assert forall k :: 1 <= k < |s| ==> s[k] == s[1..][k - 1];
    }
  }

  /** `s.rstrip(chars)` */
  function TrimEnd(s: string, cs: set<char>): (r: string)
    ensures r <= s
    ensures r == [] || r[|r| - 1] !in cs
    ensures forall k :: |r| <= k < |s| ==> s[k] in cs
  {
    if s != [] && s[|s| - 1] in cs then TrimEnd(s[..|s| - 1], cs) else s
  }

  /** `s.strip(chars)` */
  function StripChars(s: string, cs: set<char>): (r: string)
    ensures r == [] || (r[0] !in cs && r[|r| - 1] !in cs)
    ensures |r| <= |s|
  {
    TrimEnd(TrimStart(s, cs), cs)
  }

  /** `s.strip()` */
  function Strip(s: string): (r: string)
    ensures r == [] || (r[0] !in Whitespace && r[|r| - 1] !in Whitespace)
    ensures |r| <= |s|
  {
    StripChars(s, Whitespace)
  }

  /** How many characters `lstrip(chars)` removes. */
  function Lead(s: string, cs: set<char>): nat
  {
    |s| - |TrimStart(s, cs)|
  }

  /** `strip(chars)` removes stripped characters only, and only at the two
      ends: the result is the slice of the input between a run of leading
      and a run of trailing stripped characters. */
  lemma StripCharsRemovesOnly(s: string, cs: set<char>)
    ensures Lead(s, cs) + |StripChars(s, cs)| <= |s|
    ensures forall k :: 0 <= k < |StripChars(s, cs)| ==> StripChars(s, cs)[k] == s[Lead(s, cs) + k]
    ensures forall k :: 0 <= k < Lead(s, cs) ==> s[k] in cs
    ensures forall k :: Lead(s, cs) + |StripChars(s, cs)| <= k < |s| ==> s[k] in cs
  {
    TrimStartRemoves(s, cs);
    var t := TrimStart(s, cs);
    var r := StripChars(s, cs);
    var i := Lead(s, cs);
    assert r == TrimEnd(t, cs) && i == |s| - |t|;
    TrimmedTail(s, t, r, i, cs);
  }

  /** The characters after the kept slice are the ones `rstrip` removed. */
  lemma TrimmedTail(s: string, t: string, r: string, i: nat, cs: set<char>)
    requires i <= |s| && t == s[i..] && r <= t
    requires forall k :: |r| <= k < |t| ==> t[k] in cs
    ensures i + |r| <= |s|
    ensures forall k :: 0 <= k < |r| ==> r[k] == s[i + k]
    ensures forall k :: i + |r| <= k < |s| ==> s[k] in cs
  {
    forall k | i + |r| <= k < |s| ensures s[k] in cs {
      assert s[k] == t[k - i];
    }
  }

  /** Python's `str.split()` with no argument: the maximal runs of
      non-whitespace characters, in order. */
  function Words(s: string): (ws: seq<string>)
    ensures forall i :: 0 <= i < |ws| ==> ws[i] != "" && NoWhitespace(ws[i])
    decreases |s|
  {
    if s == [] then []
    else if s[0] in Whitespace then Words(s[1..])
    else
      var w := CutAt(s, Whitespace);
      [w] + Words(s[|w|..])
  }

  predicate NoWhitespace(w: string)
  {
    forall k :: 0 <= k < |w| ==> w[k] !in Whitespace
  }

  /** Joining one more part appends the separator and the part. */
  lemma {:induction false} JoinAppend(parts: seq<string>, w: string, sep: string)
    requires parts != []
    ensures Join(parts + [w], sep) == Join(parts, sep) + sep + w
    decreases |parts|
  {
    if |parts| > 1 {
      assert (parts + [w])[1..] == parts[1..] + [w];
      JoinAppend(parts[1..], w, sep);
    }
  }

  /** Splitting words joined by single spaces gives the words back. */
  lemma {:induction false} WordsOfJoin(ws: seq<string>)
    requires forall i :: 0 <= i < |ws| ==> ws[i] != "" && NoWhitespace(ws[i])
    ensures Words(Join(ws, " ")) == ws
    decreases |ws|
  {
    if ws != [] {
      var w := ws[0];
      var tail := if |ws| == 1 then "" else " " + Join(ws[1..], " ");
      assert Join(ws, " ") == w + tail;
      assert Avoids(w, Whitespace);
      CutAtPrefix(w, tail, Whitespace);
      assert (w + tail)[0] == w[0];
      assert (w + tail)[|w|..] == tail;
      if |ws| > 1 {
        assert ' ' in Whitespace && tail[1..] == Join(ws[1..], " ");
        WordsOfJoin(ws[1..]);
      }
    }
  }

  /** `s.replace(pat, rep)`: left-to-right, non-overlapping. */
  function Replace(s: string, pat: string, rep: string): string
    requires |pat| > 0
    decreases |s|
  {
    if |s| < |pat| then s
    else if s[..|pat|] == pat then rep + Replace(s[|pat|..], pat, rep)
    else [s[0]] + Replace(s[1..], pat, rep)
  }

  /** Replacing one character by another leaves none of the first behind. */
  lemma {:induction false} ReplaceCharRemoves(s: string, c: char, d: char)
    requires c != d
    ensures c !in Replace(s, [c], [d])
    decreases |s|
  {
    if |s| >= 1 {
      if s[..1] == [c] {
        ReplaceCharRemoves(s[1..], c, d);
      } else {
        assert s[0] != c by { assert s[..1] == [s[0]]; }
        ReplaceCharRemoves(s[1..], c, d);
      }
    }
  }

  /** `str(n)` for a non-negative integer. */
  function Decimal(n: nat): (r: string)
    ensures |r| >= 1 && forall k :: 0 <= k < |r| ==> IsDigit(r[k])
  {
    if n < 10 then [('0' as int + n) as char]
    else Decimal(n / 10) + [('0' as int + n % 10) as char]
  }

  /** `format(n, 'X')` */
  function NatHex(n: nat): (r: string)
    ensures |r| >= 1 && forall k :: 0 <= k < |r| ==> IsHexDigit(r[k]) && !IsLowerLetter(r[k])
    ensures n >= 16 ==> |r| >= 2
    ensures n >= 256 ==> |r| >= 3
  {
    if n < 16 then [HexDigit(n)] else NatHex(n / 16) + [HexDigit(n % 16)]
  }

  /** `format(n, '02X')`: upper-case hex, zero-padded to two digits. */
  function Hex2(n: nat): (r: string)
    ensures |r| >= 2 && forall k :: 0 <= k < |r| ==> IsHexDigit(r[k]) && !IsLowerLetter(r[k])
    ensures n < 256 <==> |r| == 2
    ensures n < 256 ==> HexValue(r[0]) * 16 + HexValue(r[1]) == n
  {
    if n < 256 then [HexDigit(n / 16), HexDigit(n % 16)] else NatHex(n)
  }

  /** `Hex2` is `format(n, 'X')` left-padded with `0` to width two. */
  lemma Hex2IsPadded(n: nat)
    ensures Hex2(n) == if |NatHex(n)| < 2 then "0" + NatHex(n) else NatHex(n)
  {
    if 16 <= n < 256 {
      assert NatHex(n) == NatHex(n / 16) + [HexDigit(n % 16)];
    }
  }

  /** No character of `s` is in `cs`. */
  predicate Avoids(s: string, cs: set<char>)
  {
    forall k :: 0 <= k < |s| ==> s[k] !in cs
  }

  /** Cutting, stripping and splitting only ever keep characters of the input. */
  lemma CutAtAvoids(s: string, stop: set<char>, cs: set<char>)
    requires Avoids(s, cs)
    ensures Avoids(CutAt(s, stop), cs + stop)
  {
    var r := CutAt(s, stop);
    assert forall k :: 0 <= k < |r| ==> r[k] == s[k];
  }

  lemma StripCharsAvoids(s: string, strip: set<char>, cs: set<char>)
    requires Avoids(s, cs)
    ensures Avoids(StripChars(s, strip), cs)
  {
    TrimStartAvoids(s, strip, cs);
    TrimEndAvoids(TrimStart(s, strip), strip, cs);
  }

  lemma {:induction false} TrimStartAvoids(s: string, strip: set<char>, cs: set<char>)
    requires Avoids(s, cs)
    ensures Avoids(TrimStart(s, strip), cs)
  {
    if s != [] && s[0] in strip {
      var rest := s[1..];
      forall k | 0 <= k < |rest| ensures rest[k] !in cs {
        assert rest[k] == s[k + 1];
      }
      TrimStartAvoids(rest, strip, cs);
    }
  }

  lemma {:induction false} TrimEndAvoids(s: string, strip: set<char>, cs: set<char>)
    requires Avoids(s, cs)
    ensures Avoids(TrimEnd(s, strip), cs)
  {
    if s != [] && s[|s| - 1] in strip {
      var init := s[..|s| - 1];
      forall k | 0 <= k < |init| ensures init[k] !in cs {
        assert init[k] == s[k];
      }
      TrimEndAvoids(init, strip, cs);
    }
  }

  /** The parts of `s.split(c)` hold no `c`, nor anything `s` avoids. */
  lemma {:induction false} SplitAvoids(s: string, c: char, cs: set<char>)
    requires Avoids(s, cs)
    ensures forall i :: 0 <= i < |Split(s, [c])| ==> Avoids(Split(s, [c])[i], cs + {c})
    decreases |s|
  {
    var i := Find(s, [c]);
    FindChar(s, c);
    if i >= 0 {
      var rest := s[i + 1..];
      assert forall k :: 0 <= k < |rest| ==> rest[k] == s[i + 1 + k];
      SplitAvoids(rest, c, cs);
      var ps := Split(s, [c]);
      assert ps == [s[..i]] + Split(rest, [c]);
      forall j | 0 <= j < |ps| ensures Avoids(ps[j], cs + {c}) {
        if j > 0 {
          assert ps[j] == Split(rest, [c])[j - 1];
        }
      }
    }
  }

  /** A string holding no character of the separator splits into itself. */
  lemma SplitAbsent(s: string, sep: string)
    requires |sep| > 0 && Avoids(s, {sep[0]})
    ensures Split(s, sep) == [s]
  {
    forall k: nat | k + |sep| <= |s| ensures !MatchAt(s, sep, k) {
      assert s[k..k + |sep|][0] == s[k];
    }
  }

  /** `replace` keeps out whatever neither the input nor the replacement holds. */
  lemma {:induction false} ReplaceAvoids(s: string, pat: string, rep: string, cs: set<char>)
    requires |pat| > 0 && Avoids(s, cs) && Avoids(rep, cs)
    ensures Avoids(Replace(s, pat, rep), cs)
    decreases |s|
  {
    if |s| >= |pat| {
      if s[..|pat|] == pat {
        var rest := s[|pat|..];
        assert forall k :: 0 <= k < |rest| ==> rest[k] == s[|pat| + k];
        ReplaceAvoids(rest, pat, rep, cs);
      } else {
        var rest := s[1..];
        assert forall k :: 0 <= k < |rest| ==> rest[k] == s[1 + k];
        ReplaceAvoids(rest, pat, rep, cs);
      }
    }
  }

  /** `replace` changes nothing in a string that never holds the pattern's
      first character. */
  lemma {:induction false} ReplaceAbsent(s: string, pat: string, rep: string)
    requires |pat| > 0 && Avoids(s, {pat[0]})
    ensures Replace(s, pat, rep) == s
    decreases |s|
  {
    if |s| >= |pat| {
      assert s[..|pat|][0] == s[0];
      var rest := s[1..];
      assert forall k :: 0 <= k < |rest| ==> rest[k] == s[1 + k];
      ReplaceAbsent(rest, pat, rep);
      assert [s[0]] + rest == s;
    }
  }
}
