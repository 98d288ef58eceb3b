/**
 * Row-wise table operations: a table is a sequence of records, a boolean mask
 * selection keeps the rows a predicate accepts (in their order), a derived
 * column is a map over the rows, and `dropna` followed by a cast is a map that
 * may reject a row.
 */
module Seqs {
  import opened Base

  /** The rows of `s` accepted by `p`, in their original order. */
  function Filter<T>(s: seq<T>, p: T -> bool): (r: seq<T>)
    ensures |r| <= |s|
    ensures forall i :: 0 <= i < |r| ==> r[i] in s && p(r[i])
    ensures forall i :: 0 <= i < |s| && p(s[i]) ==> s[i] in r
  {
    if s == [] then []
    else
      var init, last := s[..|s| - 1], s[|s| - 1];
      assert s == init + [last];
      if p(last) then Filter(init, p) + [last] else Filter(init, p)
  }

  /** Every row of `s` transformed by `f`. */
  function Map<T, U>(s: seq<T>, f: T -> U): (r: seq<U>)
    ensures |r| == |s|
    ensures forall i :: 0 <= i < |s| ==> r[i] == f(s[i])
  {
    if s == [] then [] else Map(s[..|s| - 1], f) + [f(s[|s| - 1])]
  }

  /** The values `f` yields for the rows of `s`, in order, skipping the rows it rejects. */
  function FilterMap<T, U>(s: seq<T>, f: T -> Option<U>): (r: seq<U>)
    ensures |r| <= |s|
    ensures forall i :: 0 <= i < |s| && f(s[i]).Some? ==> f(s[i]).value in r
    ensures forall j :: 0 <= j < |r| ==> exists i :: 0 <= i < |s| && f(s[i]) == Some(r[j])
  {
    if s == [] then []
    else
      var init, last := s[..|s| - 1], s[|s| - 1];
      assert s == init + [last];
      match f(last)
      case Some(y) => FilterMap(init, f) + [y]
      case None => FilterMap(init, f)
  }

  // ---------------------------------------------------------------------------
  // Order: each operation works row by row, so it distributes over concatenation.

  lemma {:induction false} FilterConcat<T>(a: seq<T>, b: seq<T>, p: T -> bool)
    ensures Filter(a + b, p) == Filter(a, p) + Filter(b, p)
  {
    if b == [] {
      assert a + b == a;
    } else {
      var init := b[..|b| - 1];
      assert (a + b)[..|a + b| - 1] == a + init;
      FilterConcat(a, init, p);
    }
  }

  lemma {:induction false} FilterMapConcat<T, U>(a: seq<T>, b: seq<T>, f: T -> Option<U>)
    ensures FilterMap(a + b, f) == FilterMap(a, f) + FilterMap(b, f)
  {
    if b == [] {
      assert a + b == a;
    } else {
      var init := b[..|b| - 1];
      assert (a + b)[..|a + b| - 1] == a + init;
      FilterMapConcat(a, init, f);
    }
  }

  /** A row that `f` rejects leaves the result unchanged wherever it stands. */
  lemma FilterMapSkips<T, U>(a: seq<T>, x: T, b: seq<T>, f: T -> Option<U>)
    requires f(x) == None
    ensures FilterMap(a + [x] + b, f) == FilterMap(a + b, f)
  {
    FilterMapConcat(a + [x], b, f);
    FilterMapConcat(a, [x], f);
    FilterMapConcat(a, b, f);
    assert [x][..0] == [];
  }

  // ---------------------------------------------------------------------------
  // Fusion: a chain of selections is one selection by the conjunction.

  lemma {:induction false} FilterFuse<T>(s: seq<T>, p: T -> bool, q: T -> bool, pq: T -> bool)
    requires forall x :: pq(x) == (p(x) && q(x))
    ensures Filter(Filter(s, p), q) == Filter(s, pq)
  {
    if s != [] {
      var init, last := s[..|s| - 1], s[|s| - 1];
      FilterFuse(init, p, q, pq);
      FilterConcat(Filter(init, p), [last], q);
      assert [last][..0] == [];
    }
  }

  /** Selecting twice by the same predicate selects nothing more. */
  lemma FilterIdempotent<T>(s: seq<T>, p: T -> bool)
    ensures Filter(Filter(s, p), p) == Filter(s, p)
  {
    FilterFuse(s, p, p, p);
  }

  lemma {:induction false} FilterMapOfMap<T, U, V>(s: seq<T>, f: T -> U, g: U -> Option<V>, gf: T -> Option<V>)
    requires forall x :: gf(x) == g(f(x))
    ensures FilterMap(Map(s, f), g) == FilterMap(s, gf)
  {
    if s != [] {
      var init := s[..|s| - 1];
      FilterMapOfMap(init, f, g, gf);
      assert Map(s, f)[..|s| - 1] == Map(init, f);
    }
  }

  lemma {:induction false} FilterMapOfFilter<T, U>(s: seq<T>, p: T -> bool, g: T -> Option<U>, h: T -> Option<U>)
    requires forall x :: h(x) == if p(x) then g(x) else None
    ensures FilterMap(Filter(s, p), g) == FilterMap(s, h)
  {
    if s != [] {
      var init, last := s[..|s| - 1], s[|s| - 1];
      FilterMapOfFilter(init, p, g, h);
      if p(last) {
        assert (Filter(init, p) + [last])[..|Filter(init, p)|] == Filter(init, p);
      }
    }
  }

  lemma {:induction false} MapOfFilter<T, U>(s: seq<T>, p: T -> bool, f: T -> U, q: U -> bool)
    requires forall x :: p(x) == q(f(x))
    ensures Filter(Map(s, f), q) == Map(Filter(s, p), f)
  {
    if s != [] {
      var init, last := s[..|s| - 1], s[|s| - 1];
      MapOfFilter(init, p, f, q);
      assert Map(s, f)[..|s| - 1] == Map(init, f);
      if p(last) {
        assert (Filter(init, p) + [last])[..|Filter(init, p)|] == Filter(init, p);
      }
    }
  }

  /** Counting: a weaker predicate (on the rows present) never selects fewer rows. */
  lemma {:induction false} FilterCountMono<T>(s: seq<T>, p: T -> bool, q: T -> bool)
    requires forall i :: 0 <= i < |s| ==> p(s[i]) ==> q(s[i])
    ensures |Filter(s, p)| <= |Filter(s, q)|
  {
    if s != [] {
      FilterCountMono(s[..|s| - 1], p, q);
    }
  }

  // ---------------------------------------------------------------------------
  // The same operations as loops over the rows (the way a data frame is rebuilt).

  method FilterRows<T>(s: seq<T>, p: T -> bool) returns (r: seq<T>)
    ensures r == Filter(s, p)
  {
    r := [];
    var i := 0;
    while i < |s|
      invariant 0 <= i <= |s|
      invariant r == Filter(s[..i], p)
    {
      assert s[..i + 1][..i] == s[..i];
      if p(s[i]) {
        r := r + [s[i]];
      }
      i := i + 1;
    }
    assert s[..|s|] == s;
  }

  method MapRows<T, U>(s: seq<T>, f: T -> U) returns (r: seq<U>)
    ensures r == Map(s, f)
  {
    r := [];
    var i := 0;
    while i < |s|
      invariant 0 <= i <= |s|
      invariant r == Map(s[..i], f)
    {
      assert s[..i + 1][..i] == s[..i];
      r := r + [f(s[i])];
      i := i + 1;
    }
    assert s[..|s|] == s;
  }

  method FilterMapRows<T, U>(s: seq<T>, f: T -> Option<U>) returns (r: seq<U>)
    ensures r == FilterMap(s, f)
  {
    r := [];
    var i := 0;
    while i < |s|
      invariant 0 <= i <= |s|
      invariant r == FilterMap(s[..i], f)
    {
      assert s[..i + 1][..i] == s[..i];
      match f(s[i]) {
        case Some(y) => r := r + [y];
        case None =>
      }
      i := i + 1;
    }
    assert s[..|s|] == s;
  }
}
