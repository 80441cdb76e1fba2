/**
 * The array searches the core relies on: `Array.prototype.findIndex` and
 * `Array.prototype.find`, which visit the elements in order and stop at the
 * first one the callback accepts.
 */
module Arrays {
  import opened Wrappers

  /** The index of the first element that satisfies `p`; None where JavaScript gives -1. */
  function FirstIndex<T>(s: seq<T>, p: T -> bool): (r: Option<nat>)
    ensures r.Some? ==> r.value < |s| && p(s[r.value])
    ensures r.Some? ==> forall j :: 0 <= j < r.value ==> !p(s[j])
    ensures r.None? <==> forall i :: 0 <= i < |s| ==> !p(s[i])
  {
    if |s| == 0 then None
    else if p(s[0]) then Some(0)
    else
      match FirstIndex(s[1..], p)
      case None => None
      case Some(i) => Some(i + 1)
  }

  /** The first element that satisfies `p`; None where JavaScript gives undefined. */
  function Find<T>(s: seq<T>, p: T -> bool): (r: Option<T>)
    ensures r.Some? ==> r.value in s && p(r.value)
    ensures r.None? <==> forall i :: 0 <= i < |s| ==> !p(s[i])
  {
    match FirstIndex(s, p)
    case None => None
    case Some(i) => Some(s[i])
  }

  /** Find returns the element at the first accepted index: no earlier element is accepted. */
  lemma FindIsFirst<T>(s: seq<T>, p: T -> bool, i: nat)
    requires i < |s| && p(s[i])
    ensures Find(s, p).Some?
    ensures (forall j :: 0 <= j < i ==> !p(s[j])) ==> Find(s, p) == Some(s[i])
  {
    var r := FirstIndex(s, p);
    assert r.Some?;
    if forall j :: 0 <= j < i ==> !p(s[j]) {
      assert !(r.value < i);
      assert !(r.value > i);
    }
  }
}
