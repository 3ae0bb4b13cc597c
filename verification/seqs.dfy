/** The two list transforms every layer of the tracker is built from:
    an element-wise map and an order-keeping filter. */
module Seqs {

  /** Applies `f` to every element, keeping positions. */
  function Map<A, B>(f: A -> B, s: seq<A>): (r: seq<B>)
    ensures |r| == |s|
    ensures forall i :: 0 <= i < |s| ==> r[i] == f(s[i])
  {
    if s == [] then [] else [f(s[0])] + Map(f, s[1..])
  }

  /** Keeps the elements satisfying `keep`, in their original order. */
  function Filter<T(!new)>(keep: T -> bool, s: seq<T>): (r: seq<T>)
    ensures |r| <= |s|
    ensures forall x :: x in r <==> x in s && keep(x)
  {
    if s == [] then []
    else (if keep(s[0]) then [s[0]] else []) + Filter(keep, s[1..])
  }

  /** Mapping distributes over concatenation. */
  lemma {:induction false} MapConcat<A, B>(f: A -> B, a: seq<A>, b: seq<A>)
    ensures Map(f, a + b) == Map(f, a) + Map(f, b)
  {
    if a == [] {
      assert a + b == b;
    } else {
      assert (a + b)[1..] == a[1..] + b;
      MapConcat(f, a[1..], b);
    }
  }

  /** Mapping two sequences that are permutations of each other gives
      permutations of each other. */
  lemma {:induction false} MapPermutation<A, B>(f: A -> B, a: seq<A>, b: seq<A>)
    requires multiset(a) == multiset(b)
    ensures multiset(Map(f, a)) == multiset(Map(f, b))
    decreases |a|
  {
    if a == [] {
      assert |b| == |multiset(b)| == 0;
    } else {
      var x := a[0];
      assert x in multiset(b);
      var k :| 0 <= k < |b| && b[k] == x;
      var rest := b[..k] + b[k + 1..];
      assert b == b[..k] + [x] + b[k + 1..];
      assert a == [x] + a[1..];
      calc {
        multiset(a[1..]);
        multiset(a) - multiset{x};
        multiset(b) - multiset{x};
        { assert multiset(b) == multiset(b[..k]) + multiset{x} + multiset(b[k + 1..]); }
        multiset(rest);
      }
      MapPermutation(f, a[1..], rest);
      MapConcat(f, b[..k] + [x], b[k + 1..]);
      MapConcat(f, b[..k], [x]);
      MapConcat(f, b[..k], b[k + 1..]);
      MapConcat(f, [x], a[1..]);
    }
  }

  /** Filtering distributes over concatenation, so it keeps the relative
      order of the surviving elements. */
  lemma {:induction false} FilterConcat<T(!new)>(keep: T -> bool, a: seq<T>, b: seq<T>)
    ensures Filter(keep, a + b) == Filter(keep, a) + Filter(keep, b)
  {
    if a == [] {
      assert a + b == b;
    } else {
      assert (a + b)[1..] == a[1..] + b;
      FilterConcat(keep, a[1..], b);
    }
  }

  /** A filter that rejects nothing in `s` leaves `s` as it is. */
  lemma {:induction false} FilterKeepsAll<T(!new)>(keep: T -> bool, s: seq<T>)
    requires forall x :: x in s ==> keep(x)
    ensures Filter(keep, s) == s
  {
    if s != [] {
      assert s[0] in s;
      FilterKeepsAll(keep, s[1..]);
    }
  }

  /** A filter that accepts nothing in `s` empties it. */
  lemma {:induction false} FilterDropsAll<T(!new)>(keep: T -> bool, s: seq<T>)
    requires forall x :: x in s ==> !keep(x)
    ensures Filter(keep, s) == []
  {
    if s != [] {
      assert s[0] in s;
      FilterDropsAll(keep, s[1..]);
    }
  }

  /** Filtering twice with the same test is filtering once. */
  lemma FilterIdempotent<T(!new)>(keep: T -> bool, s: seq<T>)
    ensures Filter(keep, Filter(keep, s)) == Filter(keep, s)
  {
    FilterKeepsAll(keep, Filter(keep, s));
  }

  /** Filtering shortens the sequence exactly when some element is rejected. */
  lemma {:induction false} FilterShrinks<T(!new)>(keep: T -> bool, s: seq<T>)
    ensures |Filter(keep, s)| == |s| <==> forall x :: x in s ==> keep(x)
  {
    if s != [] {
      assert s[0] in s;
      FilterShrinks(keep, s[1..]);
      assert forall x :: x in s <==> x == s[0] || x in s[1..];
    }
  }

  /** A second filter implied by the first one ignores the first one. */
  lemma {:induction false} FilterNarrower<T(!new)>(wide: T -> bool, narrow: T -> bool, s: seq<T>)
    requires forall i :: 0 <= i < |s| && narrow(s[i]) ==> wide(s[i])
    ensures Filter(narrow, Filter(wide, s)) == Filter(narrow, s)
  {
    if s != [] {
      var x, t := s[0], s[1..];
      assert forall i :: 0 <= i < |t| ==> t[i] == s[i + 1];
      FilterNarrower(wide, narrow, t);
      var head := if narrow(x) then [x] else [];
      assert Filter(narrow, s) == head + Filter(narrow, t);
      if wide(x) {
        assert Filter(wide, s) == [x] + Filter(wide, t);
        FilterConcat(narrow, [x], Filter(wide, t));
        assert [x][1..] == [];
        assert Filter(narrow, [x]) == head + Filter(narrow, []);
      } else {
        assert !narrow(x);
        assert Filter(wide, s) == Filter(wide, t);
        assert Filter(narrow, s) == Filter(narrow, t);
      }
    }
  }

  /** Filtering commutes with a map that does not change the filter's verdict. */
  lemma {:induction false} MapFilterCommute<T(!new)>(f: T -> T, keep: T -> bool, s: seq<T>)
    requires forall x :: x in s ==> keep(f(x)) == keep(x)
    ensures Filter(keep, Map(f, s)) == Map(f, Filter(keep, s))
  {
    if s != [] {
      assert s[0] in s;
      assert forall x :: x in s[1..] ==> x in s;
      MapFilterCommute(f, keep, s[1..]);
      assert Map(f, s)[1..] == Map(f, s[1..]);
      if keep(s[0]) {
        MapConcat(f, [s[0]], Filter(keep, s[1..]));
        assert [s[0]][1..] == [];
      }
    }
  }
}
