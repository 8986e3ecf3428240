/**
 * Sequence queries used by the model: `Array.prototype.filter` and
 * `Array.prototype.find`, which are also the meaning of the record store's
 * equality queries (a list query returns the matching documents in store order).
 */
module Seqs {
  import opened Wrappers

  /** The elements of `s` that satisfy `p`, in their original order. */
  function Filter<T(!new)>(s: seq<T>, p: T -> bool): (r: seq<T>)
    ensures |r| <= |s|
    ensures forall x :: multiset(r)[x] == if p(x) then multiset(s)[x] else 0
  {
    if s == [] then []
    else
      assert s == [s[0]] + s[1..];
      if p(s[0]) then [s[0]] + Filter(s[1..], p) else Filter(s[1..], p)
  }

  /** Every element kept by a filter satisfies its predicate and occurs in the input. */
  lemma FilterSound<T(!new)>(s: seq<T>, p: T -> bool, x: T)
    requires x in Filter(s, p)
    ensures p(x) && x in s
  {
    assert multiset(Filter(s, p))[x] > 0;
  }

  /** Every element of the input that satisfies the predicate is kept. */
  lemma FilterComplete<T(!new)>(s: seq<T>, p: T -> bool, x: T)
    requires x in s && p(x)
    ensures x in Filter(s, p)
  {
    assert multiset(s)[x] > 0;
  }

  /** Filtering distributes over concatenation, so the relative order of the input is kept. */
  lemma {:induction false} FilterAppend<T(!new)>(a: seq<T>, b: seq<T>, p: T -> bool)
    ensures Filter(a + b, p) == Filter(a, p) + Filter(b, p)
  {
    if a == [] {
      assert a + b == b;
    } else {
      assert (a + b)[1..] == a[1..] + b;
      FilterAppend(a[1..], b, p);
    }
  }

  /** A filter that every element passes keeps the whole sequence. */
  lemma {:induction false} FilterKeepsAll<T(!new)>(s: seq<T>, p: T -> bool)
    requires forall i :: 0 <= i < |s| ==> p(s[i])
    ensures Filter(s, p) == s
  {
    if s != [] {
      FilterKeepsAll(s[1..], p);
    }
  }

  /** Filtering out a failing last element after passing ones leaves the passing ones. */
  lemma FilterDropsLast<T(!new)>(a: seq<T>, x: T, p: T -> bool)
    requires forall i :: 0 <= i < |a| ==> p(a[i])
    requires !p(x)
    ensures Filter(a + [x], p) == a
  {
    assert Filter([x], p) == [] by {
      assert [x][1..] == [];
    }
    FilterKeepsAll(a, p);
    FilterAppend(a, [x], p);
    assert a + [] == a;
  }

  /** Filtering out a single failing element between passing ones leaves the others in order. */
  lemma FilterDropsOne<T(!new)>(a: seq<T>, x: T, b: seq<T>, p: T -> bool)
    requires forall i :: 0 <= i < |a| ==> p(a[i])
    requires forall i :: 0 <= i < |b| ==> p(b[i])
    requires !p(x)
    ensures Filter(a + [x] + b, p) == a + b
  {
    FilterDropsLast(a, x, p);
    FilterKeepsAll(b, p);
    FilterAppend(a + [x], b, p);
  }

  /** Two sequences whose elements agree position by position on `p` have the same first match. */
  lemma {:induction false} FindIndexSameVerdicts<T>(a: seq<T>, b: seq<T>, p: T -> bool)
    requires |a| == |b|
    requires forall i :: 0 <= i < |a| ==> p(a[i]) == p(b[i])
    ensures FindIndex(a, p) == FindIndex(b, p)
  {
    if a != [] {
      FindIndexSameVerdicts(a[1..], b[1..], p);
    }
  }

  /** The first match in `a + b` is the first match in `a`, else the first match in `b` shifted past `a`. */
  lemma FindIndexAppend<T>(a: seq<T>, b: seq<T>, p: T -> bool)
    ensures FindIndex(a + b, p) ==
      match FindIndex(a, p)
      case Some(i) => Some(i)
      case None => match FindIndex(b, p) case Some(j) => Some(|a| + j) case None => None
  {
    var ra := FindIndex(a, p);
    var rb := FindIndex(b, p);
    if ra.Some? {
      assert (a + b)[ra.value] == a[ra.value];
    } else if rb.Some? {
      assert (a + b)[|a| + rb.value] == b[rb.value];
    }
    assert forall i :: 0 <= i < |a| ==> (a + b)[i] == a[i];
    assert forall i :: |a| <= i < |a + b| ==> (a + b)[i] == b[i - |a|];
  }

  /** The index of the first element of `s` that satisfies `p`, if any. */
  function FindIndex<T>(s: seq<T>, p: T -> bool): (r: Option<nat>)
    ensures r.Some? ==> r.value < |s| && p(s[r.value])
    ensures r.Some? ==> forall j :: 0 <= j < r.value ==> !p(s[j])
    ensures r.None? ==> forall j :: 0 <= j < |s| ==> !p(s[j])
  {
    if s == [] then None
    else if p(s[0]) then Some(0)
    else
      match FindIndex(s[1..], p)
      case None => None
      case Some(i) => Some(i + 1)
  }

  /** `Array.prototype.find`: the first element of `s` that satisfies `p`, if any. */
  function Find<T>(s: seq<T>, p: T -> bool): (r: Option<T>)
    ensures r.Some? <==> FindIndex(s, p).Some?
    ensures r.Some? ==> r.value == s[FindIndex(s, p).value]
  {
    match FindIndex(s, p)
    case None => None
    case Some(i) => Some(s[i])
  }

  /**
   * The head of a filter is the first match: a list query's `documents[0]` is the
   * element `find` would return, and the filter is empty exactly when there is none.
   */
  lemma {:induction false} FilterHeadIsFirst<T(!new)>(s: seq<T>, p: T -> bool)
    ensures Filter(s, p) == [] <==> FindIndex(s, p).None?
    ensures Filter(s, p) != [] ==> Filter(s, p)[0] == s[FindIndex(s, p).value]
  {
    if s != [] && !p(s[0]) {
      FilterHeadIsFirst(s[1..], p);
    }
  }

  /** No value occurs twice in `s`. */
  predicate Distinct<T(==)>(s: seq<T>) {
    forall i, j :: 0 <= i < j < |s| ==> s[i] != s[j]
  }

  /** Leaving out one element keeps a sequence's elements distinct. */
  lemma DistinctWithoutOne<T>(s: seq<T>, k: nat)
    requires Distinct(s) && k < |s|
    ensures Distinct(s[..k] + s[k + 1..])
  {
    var t := s[..k] + s[k + 1..];
    forall i, j | 0 <= i < j < |t| ensures t[i] != t[j] {
      var i' := if i < k then i else i + 1;
      var j' := if j < k then j else j + 1;
      assert t[i] == s[i'] && t[j] == s[j'];
    }
  }
}
