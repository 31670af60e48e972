/**
 * The JavaScript array built-ins the stores are written with
 * (`find`, `indexOf`, `filter`), as functions on sequences,
 * each specified by what it promises rather than by how it scans.
 */
module ArrayOps {
  import opened Wrappers

  /** No element occurs twice. */
  predicate NoDuplicates<T(==)>(s: seq<T>) {
    forall i, j :: 0 <= i < j < |s| ==> s[i] != s[j]
  }

  /** `a` is `b` with some elements dropped, the rest kept in their order. */
  predicate IsSubsequence<T(==)>(a: seq<T>, b: seq<T>)
    decreases |b|
  {
    if a == [] then true
    else if b == [] then false
    else (a[0] == b[0] && IsSubsequence(a[1..], b[1..])) || IsSubsequence(a, b[1..])
  }

  /** `i` is the first position whose element satisfies `f`. */
  predicate IsFirst<T>(s: seq<T>, i: int, f: T -> bool) {
    0 <= i < |s| && f(s[i]) && forall k :: 0 <= k < i ==> !f(s[k])
  }

  /** Two positions that are both "the first" are the same position. */
  lemma FirstIsUnique<T>(s: seq<T>, i: int, j: int, f: T -> bool)
    requires IsFirst(s, i, f) && IsFirst(s, j, f)
    ensures i == j
  {
  }

  /**
   * The position of the object `Array.prototype.find` returns, or `None` when it
   * returns `undefined`. The stores change that object in place; the model uses
   * the position to replace the record in the list.
   */
  function FindIndex<T>(s: seq<T>, f: T -> bool): (r: Option<nat>)
    ensures r.Some? ==> IsFirst(s, r.value, f)
    ensures r.None? ==> forall k :: 0 <= k < |s| ==> !f(s[k])
  {
    if s == [] then None
    else if f(s[0]) then Some(0)
    else match FindIndex(s[1..], f)
      case None => None
      case Some(i) => Some(i + 1)
  }

  /** `Array.prototype.find`: the first element satisfying `f`, if any. */
  function Find<T>(s: seq<T>, f: T -> bool): (r: Option<T>)
    ensures r.None? <==> forall k :: 0 <= k < |s| ==> !f(s[k])
    ensures r.Some? ==> exists i :: IsFirst(s, i, f) && r.value == s[i]
  {
    match FindIndex(s, f)
    case None => None
    case Some(i) => Some(s[i])
  }

  /** `Array.prototype.indexOf`, with `None` for -1: the first position holding `x`. */
  function IndexOf<T(==)>(s: seq<T>, x: T): (r: Option<nat>)
    ensures r.None? <==> x !in s
    ensures r.Some? ==> r.value < |s| && s[r.value] == x && x !in s[..r.value]
  {
    if s == [] then None
    else if s[0] == x then Some(0)
    else match IndexOf(s[1..], x)
      case None => None
      case Some(i) =>
        assert s[..i + 1] == [s[0]] + s[1..][..i];
        Some(i + 1)
  }

  /** `Array.prototype.filter`: exactly the elements satisfying `f`, in their order. */
  function Filter<T(==)>(s: seq<T>, f: T -> bool): (r: seq<T>)
    ensures IsSubsequence(r, s)
    ensures forall x :: x in r ==> x in s && f(x)
    ensures forall x :: x in s && f(x) ==> x in r
    ensures forall x :: x in s ==> multiset(r)[x] == if f(x) then multiset(s)[x] else 0
  {
    if s == [] then []
    else
      var rest := Filter(s[1..], f);
      assert s == [s[0]] + s[1..];
      if f(s[0]) then [s[0]] + rest
      else
        SubsequenceOfTail(rest, s);
        rest
  }

  /** A subsequence of the tail is a subsequence of the whole. */
  lemma SubsequenceOfTail<T>(a: seq<T>, b: seq<T>)
    requires b != [] && IsSubsequence(a, b[1..])
    ensures IsSubsequence(a, b)
  {
  }

  /** Filtering distributes over concatenation; with `FilterSingleton` this fixes `Filter` completely. */
  lemma {:induction false} FilterConcat<T>(a: seq<T>, b: seq<T>, f: T -> bool)
    ensures Filter(a + b, f) == Filter(a, f) + Filter(b, f)
  {
    if a == [] {
      assert a + b == b;
    } else {
      assert (a + b)[0] == a[0];
      assert (a + b)[1..] == a[1..] + b;
      FilterConcat(a[1..], b, f);
    }
  }

  /** A one-element list keeps its element exactly when it satisfies `f`. */
  lemma FilterSingleton<T>(x: T, f: T -> bool)
    ensures Filter([x], f) == if f(x) then [x] else []
  {
    assert [x][1..] == [];
  }

  /** Of three elements where only the first passes, the filter keeps the first. */
  lemma FilterFirstOfThree<T>(a: T, b: T, c: T, f: T -> bool)
    requires f(a) && !f(b) && !f(c)
    ensures Filter([a, b, c], f) == [a]
  {
    assert [a, b, c] == [a] + [b] + [c];
    FilterConcat([a] + [b], [c], f);
    FilterConcat([a], [b], f);
    FilterSingleton(a, f);
    FilterSingleton(b, f);
    FilterSingleton(c, f);
  }

  /** Of three elements where only the first fails, the filter keeps the other two. */
  lemma FilterDropsFirstOfThree<T>(a: T, b: T, c: T, f: T -> bool)
    requires !f(a) && f(b) && f(c)
    ensures Filter([a, b, c], f) == [b, c]
  {
    assert [a, b, c][1..] == [b, c] && [b, c][1..] == [c] && [c][1..] == [];
    assert Filter([c], f) == [c];
    assert Filter([b, c], f) == [b] + [c];
  }

  /** A test every element passes keeps the whole list, in order. */
  lemma {:induction false} FilterKeepsAll<T>(s: seq<T>, f: T -> bool)
    requires forall k :: 0 <= k < |s| ==> f(s[k])
    ensures Filter(s, f) == s
  {
    if s != [] {
      FilterKeepsAll(s[1..], f);
      assert [s[0]] + s[1..] == s;
    }
  }

  /** A test no element passes keeps nothing. */
  lemma {:induction false} FilterKeepsNone<T>(s: seq<T>, f: T -> bool)
    requires forall k :: 0 <= k < |s| ==> !f(s[k])
    ensures Filter(s, f) == []
  {
    if s != [] {
      FilterKeepsNone(s[1..], f);
    }
  }
}
