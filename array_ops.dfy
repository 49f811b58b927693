/**
 * The JavaScript array methods the two state cores are written with
 * (`findIndex`, `find`, `some`, `filter`), as functions over sequences,
 * each specified independently of how it is computed.
 */
module ArrayOps {
  import opened Results

  /** `s.findIndex(p)`: the first position whose element satisfies `p`, or -1. */
  function FindIndex<T>(s: seq<T>, p: T -> bool): (r: int)
    ensures -1 <= r < |s|
    ensures r == -1 <==> forall i :: 0 <= i < |s| ==> !p(s[i])
    ensures 0 <= r ==> p(s[r]) && forall j :: 0 <= j < r ==> !p(s[j])
  {
    if s == [] then -1
    else if p(s[0]) then 0
    else
      var k := FindIndex(s[1..], p);
      if k == -1 then -1 else k + 1
  }

  /** `s.find(p)`: the first element that satisfies `p`, or nothing. */
  function Find<T>(s: seq<T>, p: T -> bool): (r: Option<T>)
    ensures r.None? <==> forall i :: 0 <= i < |s| ==> !p(s[i])
    ensures r.Some? ==> exists i :: 0 <= i < |s| && s[i] == r.value && p(s[i]) && forall j :: 0 <= j < i ==> !p(s[j])
  {
    var k := FindIndex(s, p);
    if k < 0 then None else Some(s[k])
  }

  /** `s.some(p)`. */
  function Any<T>(s: seq<T>, p: T -> bool): (r: bool)
    ensures r <==> exists i :: 0 <= i < |s| && p(s[i])
  {
    if s == [] then false else p(s[0]) || Any(s[1..], p)
  }

  /** `s.filter(p)`: the elements that satisfy `p`, in their original order. */
  function Filter<T>(s: seq<T>, p: T -> bool): (r: seq<T>)
    ensures |r| <= |s|
    ensures forall i :: 0 <= i < |r| ==> r[i] in s && p(r[i])
    ensures forall i :: 0 <= i < |s| && p(s[i]) ==> s[i] in r
  {
    if s == [] then []
    else
      assert s == [s[0]] + s[1..];
      if p(s[0]) then [s[0]] + Filter(s[1..], p) else Filter(s[1..], p)
  }

  /** Filtering distributes over concatenation: the survivors keep their relative order. */
  lemma {:induction false} FilterAppend<T>(a: seq<T>, b: seq<T>, p: T -> bool)
    ensures Filter(a + b, p) == Filter(a, p) + Filter(b, p)
  {
    if a == [] {
      assert a + b == b;
    } else {
      assert (a + b)[1..] == a[1..] + b;
      FilterAppend(a[1..], b, p);
    }
  }

  /** A filter that every element passes removes nothing. */
  lemma {:induction false} FilterKeepsAll<T>(s: seq<T>, p: T -> bool)
    requires forall i :: 0 <= i < |s| ==> p(s[i])
    ensures Filter(s, p) == s
  {
    if s != [] {
      FilterKeepsAll(s[1..], p);
    }
  }

  /** Filtering twice by the same test is filtering once. */
  lemma FilterIdempotent<T>(s: seq<T>, p: T -> bool)
    ensures Filter(Filter(s, p), p) == Filter(s, p)
  {
    var r := Filter(s, p);
    FilterKeepsAll(r, p);
  }

  /** Every pair of elements, taken in order, is related by `R`. */
  ghost predicate Pairwise<T>(s: seq<T>, R: (T, T) -> bool) {
    forall i, j :: 0 <= i < j < |s| ==> R(s[i], s[j])
  }

  /** Removing elements cannot break a pairwise property. */
  lemma {:induction false} FilterPairwise<T>(s: seq<T>, p: T -> bool, R: (T, T) -> bool)
    requires Pairwise(s, R)
    ensures Pairwise(Filter(s, p), R)
  {
    if s != [] {
      var tail := s[1..];
      assert Pairwise(tail, R) by {
        forall i, j | 0 <= i < j < |tail| ensures R(tail[i], tail[j]) {
          assert tail[i] == s[i + 1] && tail[j] == s[j + 1];
        }
      }
      FilterPairwise(tail, p, R);
      var t := Filter(tail, p);
      if p(s[0]) {
        var r := [s[0]] + t;
        forall i, j | 0 <= i < j < |r| ensures R(r[i], r[j]) {
          if i == 0 {
            assert r[j] == t[j - 1];
            assert r[j] in tail;
            var k :| 0 <= k < |tail| && tail[k] == r[j];
            assert s[k + 1] == r[j];
          } else {
            assert r[i] == t[i - 1] && r[j] == t[j - 1];
          }
        }
      }
    }
  }
}
