/** Optional values, results, and the first-match search that the source's
    `Array.prototype.find` performs over nodes, blocks, elements and actions. */
module Common {

  datatype Option<+T> = None | Some(value: T)

  /** Either a value or one of the engine's errors. */
  datatype Result<+T, +E> = Ok(value: T) | Err(error: E)

  /** `i` is the first index of `s` whose element satisfies `p`. */
  ghost predicate IsFirstIndex<T>(s: seq<T>, p: T -> bool, i: int)
  {
    0 <= i < |s| && p(s[i]) && forall j :: 0 <= j < i ==> !p(s[j])
  }

  /** The index of the first element of `s` satisfying `p`, if any. */
  function FindIndex<T>(s: seq<T>, p: T -> bool): (r: Option<nat>)
    ensures r.None? <==> forall i :: 0 <= i < |s| ==> !p(s[i])
    ensures r.Some? ==> IsFirstIndex(s, p, r.value)
  {
    if s == [] then None
    else if p(s[0]) then Some(0)
    else match FindIndex(s[1..], p)
      case None => None
      case Some(k) => Some(k + 1)
  }

  /** `Array.prototype.find`: the first element satisfying `p`, if any. */
  function Find<T>(s: seq<T>, p: T -> bool): (r: Option<T>)
    ensures r.None? <==> forall i :: 0 <= i < |s| ==> !p(s[i])
    ensures r.Some? ==> exists i :: IsFirstIndex(s, p, i) && s[i] == r.value
  {
    match FindIndex(s, p)
    case None => None
    case Some(k) => Some(s[k])
  }

  /** `find` returns the element at the first satisfying index. */
  lemma FindIsFirst<T>(s: seq<T>, p: T -> bool, k: int)
    requires IsFirstIndex(s, p, k)
    ensures Find(s, p) == Some(s[k])
  {
    assert p(s[k]);
    var i := FindIndex(s, p).value;
    assert i == k;
  }

  /** JavaScript's `a || b` on strings: the empty string is falsy, as is an
      absent value, which this model writes as the empty string. */
  function OrElse(a: string, b: string): string
  {
    if a != "" then a else b
  }
}
