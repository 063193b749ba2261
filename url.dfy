/** The network location `urllib.parse.urlparse(url).netloc` reports: the
    scheme is recognised as the part before the first `:` when it starts
    with a letter and holds only letters, digits, `+`, `-` and `.`; what
    follows `//` up to the first `/`, `?` or `#` is the netloc. */
module Url {
  import opened Text

  predicate IsAsciiLetter(c: char) { 'a' <= c <= 'z' || 'A' <= c <= 'Z' }

  predicate SchemeChar(c: char)
  {
    IsAsciiLetter(c) || IsDigit(c) || c == '+' || c == '-' || c == '.'
  }

  /** The characters that end a netloc. */
  const NetlocEnd: set<char> := {'/', '?', '#'}

  /** The URL once a valid scheme and its `:` are removed. */
  function AfterScheme(url: string): (rest: string)
    ensures |rest| <= |url|
  {
    var i := Find(url, ":");
    if i > 0 && IsAsciiLetter(url[0]) && forall k :: 0 <= k < i ==> SchemeChar(url[k]) then url[i + 1..]
    else url
  }

  /** `urlparse(url).netloc` */
  function Netloc(url: string): (n: string)
    ensures Avoids(n, NetlocEnd)
  {
    var rest := AfterScheme(url);
    if |rest| >= 2 && rest[..2] == "//" then CutAt(rest[2..], NetlocEnd) else ""
  }

  /** A valid scheme and its `:` are removed. */
  lemma AfterValidScheme(scheme: string, rest: string)
    requires |scheme| > 0 && IsAsciiLetter(scheme[0]) && forall k :: 0 <= k < |scheme| ==> SchemeChar(scheme[k])
    ensures AfterScheme(scheme + ":" + rest) == rest
  {
    var url := scheme + ":" + rest;
    FindChar(url, ':');
    assert url[|scheme|] == ':';
    assert forall k :: 0 <= k < |scheme| ==> url[k] == scheme[k];
    assert Find(url, ":") == |scheme|;
    assert url[|scheme| + 1..] == rest;
  }

  /** A URL `scheme://host` followed by a path, query or fragment (or
      nothing) has `host` as its netloc. */
  lemma NetlocOfAbsolute(scheme: string, host: string, tail: string)
    requires |scheme| > 0 && IsAsciiLetter(scheme[0]) && forall k :: 0 <= k < |scheme| ==> SchemeChar(scheme[k])
    requires Avoids(host, NetlocEnd)
    requires tail == [] || tail[0] in NetlocEnd
    ensures Netloc(scheme + "://" + host + tail) == host
  {
    var url := scheme + "://" + host + tail;
    var rest := "//" + (host + tail);
    assert url == scheme + ":" + rest by {
      assert "://" == ":" + "//";
    }
    AfterValidScheme(scheme, rest);
    assert AfterScheme(url) == rest;
    assert rest[..2] == "//" && rest[2..] == host + tail;
    CutAtPrefix(host, tail, NetlocEnd);
    assert Netloc(url) == CutAt(host + tail, NetlocEnd);
  }

  /** A path with no `:` that does not start with `//` has no netloc: it is a
      relative link. */
  lemma NetlocOfRelative(path: string)
    requires Avoids(path, {':'})
    requires !(|path| >= 2 && path[..2] == "//")
    ensures Netloc(path) == ""
  {
    FindChar(path, ':');
  }
}
