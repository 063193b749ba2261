/** Linear search: the first element of a sequence a predicate accepts. */
module Search {
  import opened Wrappers

  /** The first element of `xs` that `p` accepts. */
  function FirstMatch<T>(xs: seq<T>, p: T -> bool): (r: Option<T>)
    ensures r.Some? ==> r.value in xs && p(r.value)
  {
    if xs == [] then None
    else if p(xs[0]) then Some(xs[0])
    else FirstMatch(xs[1..], p)
  }

  /** There is no match exactly when nothing is accepted; a match is the
      element at the first accepted position. */
  lemma {:induction false} FirstMatchSpec<T>(xs: seq<T>, p: T -> bool)
    ensures FirstMatch(xs, p).None? <==> forall k :: 0 <= k < |xs| ==> !p(xs[k])
    ensures FirstMatch(xs, p).Some? ==>
      exists k :: 0 <= k < |xs| && xs[k] == FirstMatch(xs, p).value && p(xs[k]) && forall j :: 0 <= j < k ==> !p(xs[j])
  {
    if xs != [] && !p(xs[0]) {
      FirstMatchSpec(xs[1..], p);
      assert forall k :: 1 <= k < |xs| ==> xs[1..][k - 1] == xs[k];
      if FirstMatch(xs, p).Some? {
        var k :| 0 <= k < |xs[1..]| && xs[1..][k] == FirstMatch(xs, p).value && p(xs[1..][k])
          && forall j :: 0 <= j < k ==> !p(xs[1..][j]);
        assert xs[k + 1] == FirstMatch(xs, p).value && forall j :: 0 <= j < k + 1 ==> !p(xs[j]);
      }
    }
  }

  /** A `for` loop that returns at the first element `p` accepts. */
  method FindFirst<T>(xs: seq<T>, p: T -> bool) returns (r: Option<T>)
    ensures r == FirstMatch(xs, p)
  {
    for i := 0 to |xs|
      invariant FirstMatch(xs, p) == FirstMatch(xs[i..], p)
    {
      assert xs[i..][0] == xs[i] && xs[i..][1..] == xs[i + 1..];
      if p(xs[i]) {
        return Some(xs[i]);
      }
    }
    return None;
  }

  /** When nothing before position `i` is accepted and `xs[i]` is, `xs[i]`
      is the first match. */
  lemma FirstFound<T>(xs: seq<T>, p: T -> bool, i: nat)
    requires i < |xs| && p(xs[i]) && forall j :: 0 <= j < i ==> !p(xs[j])
    ensures FirstMatch(xs, p) == Some(xs[i])
  {
    FirstMatchSpec(xs, p);
    var k :| 0 <= k < |xs| && xs[k] == FirstMatch(xs, p).value && p(xs[k]) && forall j :: 0 <= j < k ==> !p(xs[j]);
  }
}
