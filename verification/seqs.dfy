/** Ordered-list helpers: removal behind the proxy's policy mutators, filtering behind the cache's streams. */
module Seqs {

  /** Removes every occurrence of `x` from `xs`, keeping the other elements in order. */
  function Without<T(==)>(xs: seq<T>, x: T): (r: seq<T>)
    ensures x !in r
    ensures |r| <= |xs|
    ensures x !in xs ==> r == xs
  {
    if |xs| == 0 then []
    else if xs[0] == x then Without(xs[1..], x)
    else
      assert xs == [xs[0]] + xs[1..];
      [xs[0]] + Without(xs[1..], x)
  }

  /** Every other element survives the removal, and nothing new appears. */
  lemma {:induction false} WithoutKeepsOthers<T>(xs: seq<T>, x: T)
    ensures forall y :: y != x ==> (y in Without(xs, x) <==> y in xs)
  {
    if |xs| > 0 {
      WithoutKeepsOthers(xs[1..], x);
      assert xs == [xs[0]] + xs[1..];
    }
  }

  /** Removal distributes over concatenation: the survivors keep their relative order. */
  lemma {:induction false} WithoutAppend<T>(a: seq<T>, b: seq<T>, x: T)
    ensures Without(a + b, x) == Without(a, x) + Without(b, x)
  {
    if |a| == 0 {
      assert a + b == b;
    } else {
      var rest := a[1..] + b;
      assert (a + b)[0] == a[0];
      assert (a + b)[1..] == rest;
      WithoutAppend(a[1..], b, x);
      if a[0] == x {
        assert Without(a + b, x) == Without(rest, x);
      } else {
        calc {
          Without(a + b, x);
          [a[0]] + Without(rest, x);
          [a[0]] + (Without(a[1..], x) + Without(b, x));
          ([a[0]] + Without(a[1..], x)) + Without(b, x);
        }
      }
    }
  }

  /** Removing the one occurrence of `x` leaves exactly the elements around it, in order. */
  lemma {:induction false} WithoutSingleOccurrence<T>(a: seq<T>, x: T, b: seq<T>)
    requires x !in a && x !in b
    ensures Without(a + [x] + b, x) == a + b
    decreases |a|
  {
    var s := a + [x] + b;
    if |a| == 0 {
      assert s == [x] + b;
      assert s[0] == x && s[1..] == b;
      assert Without(b, x) == b;
    } else {
      assert s[0] == a[0] && s[0] != x;
      assert s[1..] == a[1..] + [x] + b;
      WithoutSingleOccurrence(a[1..], x, b);
      assert a + b == [a[0]] + (a[1..] + b);
    }
  }

  /** Appending an element that was absent and then removing it restores the list. */
  lemma AppendThenWithout<T>(xs: seq<T>, x: T)
    requires x !in xs
    ensures Without(xs + [x], x) == xs
  {
    WithoutSingleOccurrence(xs, x, []);
    assert xs + [x] + [] == xs + [x];
    assert xs + [] == xs;
  }

  /** The elements of `xs` that pass `keep`, in their original order. */
  function Filter<T>(xs: seq<T>, keep: T -> bool): (r: seq<T>)
    ensures |r| <= |xs|
  {
    if |xs| == 0 then []
    else (if keep(xs[0]) then [xs[0]] else []) + Filter(xs[1..], keep)
  }

  /** Filtering distributes over concatenation. */
  lemma {:induction false} FilterAppend<T>(a: seq<T>, b: seq<T>, keep: T -> bool)
    ensures Filter(a + b, keep) == Filter(a, keep) + Filter(b, keep)
  {
    if |a| == 0 {
      assert a + b == b;
    } else {
      var head := if keep(a[0]) then [a[0]] else [];
      assert (a + b)[0] == a[0];
      assert (a + b)[1..] == a[1..] + b;
      FilterAppend(a[1..], b, keep);
      calc {
        Filter(a + b, keep);
        head + Filter(a[1..] + b, keep);
        head + (Filter(a[1..], keep) + Filter(b, keep));
        (head + Filter(a[1..], keep)) + Filter(b, keep);
        Filter(a, keep) + Filter(b, keep);
      }
    }
  }

  /** A one-element list is kept whole or dropped. */
  lemma FilterSingle<T>(x: T, keep: T -> bool)
    ensures Filter([x], keep) == if keep(x) then [x] else []
  {
    assert [x][1..] == [];
  }
}
