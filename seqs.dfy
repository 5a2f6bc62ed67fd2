/** The array operations the JavaScript code uses (`find`, `findIndex`, `filter`,
    `map`, `slice`, `some`, `filter(..).length`), as functions on sequences. */
module Seqs {
  import opened Wrappers

  /** `findIndex`: the position of the first element satisfying `p`, if any. */
  function IndexWhere<T>(s: seq<T>, p: T -> bool): (r: Option<nat>)
    ensures r.Some? ==> r.value < |s| && p(s[r.value])
    ensures r.Some? ==> forall j :: 0 <= j < r.value ==> !p(s[j])
    ensures r.None? <==> forall j :: 0 <= j < |s| ==> !p(s[j])
  {
    if s == [] then None
    else if p(s[0]) then Some(0)
    else match IndexWhere(s[1..], p)
      case None => None
      case Some(k) => Some(k + 1)
  }

  /** `find`: the first element satisfying `p`, if any. */
  function Find<T>(s: seq<T>, p: T -> bool): (r: Option<T>)
    ensures r.Some? <==> exists j :: 0 <= j < |s| && p(s[j])
    ensures r.Some? ==> p(r.value)
    ensures r.Some? ==> exists j :: 0 <= j < |s| && s[j] == r.value && forall k :: 0 <= k < j ==> !p(s[k])
  {
    match IndexWhere(s, p)
    case None => None
    case Some(i) => Some(s[i])
  }

  /** `filter`: the elements satisfying `p`, in their original order. */
  function Filter<T>(s: seq<T>, p: T -> bool): (r: seq<T>)
    ensures |r| <= |s|
    ensures forall j :: 0 <= j < |r| ==> r[j] in s && p(r[j])
    ensures forall j :: 0 <= j < |s| && p(s[j]) ==> s[j] in r
    ensures (forall j :: 0 <= j < |s| ==> !p(s[j])) ==> r == []
  {
    if s == [] then []
    else
      assert s == [s[0]] + s[1..];
      if p(s[0]) then [s[0]] + Filter(s[1..], p)
      else Filter(s[1..], p)
  }

  /** `filter(p).length`. */
  function Count<T>(s: seq<T>, p: T -> bool): (n: nat)
    ensures n <= |s|
    ensures n == 0 <==> forall j :: 0 <= j < |s| ==> !p(s[j])
  {
    |Filter(s, p)|
  }

  /** Filtering a concatenation filters each part. */
  lemma {:induction false} FilterConcat<T>(s: seq<T>, t: seq<T>, p: T -> bool)
    ensures Filter(s + t, p) == Filter(s, p) + Filter(t, p)
  {
    if s == [] {
      assert s + t == t;
    } else {
      assert (s + t)[1..] == s[1..] + t;
      FilterConcat(s[1..], t, p);
    }
  }

  /** `filter` keeps every copy of an element that satisfies `p` and no copy of
      one that does not. */
  lemma {:induction false} FilterMultiset<T>(s: seq<T>, p: T -> bool)
    ensures forall x :: multiset(Filter(s, p))[x] == if p(x) then multiset(s)[x] else 0
  {
    if s != [] {
      FilterMultiset(s[1..], p);
      assert s == [s[0]] + s[1..];
      assert multiset(s) == multiset{s[0]} + multiset(s[1..]);
      if p(s[0]) {
        assert multiset(Filter(s, p)) == multiset{s[0]} + multiset(Filter(s[1..], p));
      }
    }
  }

  /** Two elements that `p` does not both keep can trade places under a filter. */
  lemma FilterSwapSingletons<T>(a: T, b: T, t: seq<T>, p: T -> bool)
    requires !(p(a) && p(b))
    ensures Filter([a], p) + (Filter([b], p) + t) == Filter([b], p) + (Filter([a], p) + t)
  {
    assert Filter([a], p) == if p(a) then [a] else [];
    assert Filter([b], p) == if p(b) then [b] else [];
  }

  /** Counting over one more element adds one exactly when it satisfies `p`; with
      `Count([], p) == 0` this determines every count. */
  lemma CountAppend<T>(s: seq<T>, x: T, p: T -> bool)
    ensures Count(s + [x], p) == Count(s, p) + (if p(x) then 1 else 0)
  {
    FilterConcat(s, [x], p);
    assert Filter([x], p) == if p(x) then [x] else [];
  }

  /** `filter` keeps the relative order: the result is a subsequence of the input. */
  lemma {:induction false} FilterIsSubsequence<T>(s: seq<T>, p: T -> bool)
    ensures IsSubsequence(Filter(s, p), s)
  {
    if s != [] {
      FilterIsSubsequence(s[1..], p);
      if p(s[0]) {
        assert Filter(s, p) == [s[0]] + Filter(s[1..], p);
      }
    }
  }

  /** Filtering twice with the same predicate changes nothing the second time. */
  lemma {:induction false} FilterIdempotent<T>(s: seq<T>, p: T -> bool)
    ensures Filter(Filter(s, p), p) == Filter(s, p)
  {
    if s != [] {
      FilterIdempotent(s[1..], p);
      if p(s[0]) {
        assert Filter(s, p)[1..] == Filter(s[1..], p);
      }
    }
  }

  /** A sequence none of whose elements fail `p` is left as it is. */
  lemma {:induction false} FilterAll<T>(s: seq<T>, p: T -> bool)
    requires forall j :: 0 <= j < |s| ==> p(s[j])
    ensures Filter(s, p) == s
  {
    if s != [] {
      FilterAll(s[1..], p);
    }
  }

  /** `t` is obtained from `s` by deleting elements. */
  ghost predicate IsSubsequence<T>(t: seq<T>, s: seq<T>)
    decreases |s|
  {
    if t == [] then true
    else if s == [] then false
    else if t[0] == s[0] then IsSubsequence(t[1..], s[1..])
    else IsSubsequence(t, s[1..])
  }

  /** `map` with a function that may throw (`None`): every element mapped, or `None`
      as soon as one of them throws. */
  function MapAll<T, U>(s: seq<T>, f: T -> Option<U>): (r: Option<seq<U>>)
    ensures r.Some? <==> forall j :: 0 <= j < |s| ==> f(s[j]).Some?
    ensures r.Some? ==> |r.value| == |s| && forall j :: 0 <= j < |s| ==> r.value[j] == f(s[j]).value
  {
    if s == [] then Some([])
    else match f(s[0])
      case None => None
      case Some(y) =>
        match MapAll(s[1..], f)
        case None => None
        case Some(ys) => Some([y] + ys)
  }

  /** `Array.prototype.slice(start, end)` with JavaScript's treatment of negative and
      oversized positions: a negative position counts from the end, and both are
      clamped to `[0, |s|]`. */
  function Slice<T>(s: seq<T>, start: int, end: int): (r: seq<T>)
    ensures 0 <= start <= end <= |s| ==> r == s[start..end]
    ensures 0 <= start && |s| <= end && start <= |s| ==> r == s[start..]
    ensures 0 <= end <= start ==> r == []
    ensures |s| <= start ==> r == []
    ensures var from, to := ClampIndex(start, |s|), ClampIndex(end, |s|);
            (from < to ==> r == s[from..to]) && (to <= from ==> r == [])
  {
    var from := ClampIndex(start, |s|);
    var to := ClampIndex(end, |s|);
    if from < to then s[from..to] else []
  }

  /** The index normalisation that `slice` applies to each of its arguments. */
  function ClampIndex(k: int, len: nat): (r: nat)
    ensures r <= len
    ensures 0 <= k <= len ==> r == k
    ensures k < 0 && -k <= len ==> r == len + k
    ensures k < 0 && len < -k ==> r == 0
    ensures len < k ==> r == len
  {
    if k < 0 then (if len + k < 0 then 0 else len + k)
    else if k > len then len
    else k
  }

  /** Filtering only looks at the predicate on the elements present. */
  lemma {:induction false} FilterCongruent<T>(s: seq<T>, p: T -> bool, q: T -> bool)
    requires forall j :: 0 <= j < |s| ==> p(s[j]) == q(s[j])
    ensures Filter(s, p) == Filter(s, q)
  {
    if s != [] {
      FilterCongruent(s[1..], p, q);
    }
  }

  /** Two filters in a row keep the elements satisfying both predicates. */
  lemma {:induction false} FilterFilter<T>(s: seq<T>, p: T -> bool, q: T -> bool, pq: T -> bool)
    requires forall j :: 0 <= j < |s| ==> pq(s[j]) == (p(s[j]) && q(s[j]))
    ensures Filter(Filter(s, p), q) == Filter(s, pq)
  {
    if s != [] {
      FilterFilter(s[1..], p, q, pq);
      if p(s[0]) {
        assert Filter(s, p) == [s[0]] + Filter(s[1..], p);
        assert Filter(s, p)[1..] == Filter(s[1..], p);
      }
    }
  }

  /** Three predicates no two of which hold together count at most the length. */
  lemma {:induction false} CountDisjoint3<T>(s: seq<T>, p: T -> bool, q: T -> bool, r: T -> bool)
    requires forall j :: 0 <= j < |s| ==> !(p(s[j]) && q(s[j])) && !(p(s[j]) && r(s[j])) && !(q(s[j]) && r(s[j]))
    ensures Count(s, p) + Count(s, q) + Count(s, r) <= |s|
  {
    if s != [] {
      CountDisjoint3(s[1..], p, q, r);
      assert |Filter(s, p)| <= |Filter(s[1..], p)| + (if p(s[0]) then 1 else 0);
      assert |Filter(s, q)| <= |Filter(s[1..], q)| + (if q(s[0]) then 1 else 0);
      assert |Filter(s, r)| <= |Filter(s[1..], r)| + (if r(s[0]) then 1 else 0);
    }
  }

  /** `slice(0, n).map(f)` maps the first `n` elements, or all of them when there
      are fewer. */
  lemma MapAllFront<T, U>(s: seq<T>, n: nat, f: T -> Option<U>)
    ensures var r := MapAll(Slice(s, 0, n), f);
            (r.Some? <==> forall k :: 0 <= k < |s| && k < n ==> f(s[k]).Some?) &&
            (r.Some? ==> |r.value| == (if |s| < n then |s| else n) &&
                         forall k :: 0 <= k < |r.value| ==> r.value[k] == f(s[k]).value)
  {
    var front := Slice(s, 0, n);
    assert |front| == (if |s| < n then |s| else n);
    assert forall k :: 0 <= k < |front| ==> front[k] == s[k];
  }
}
