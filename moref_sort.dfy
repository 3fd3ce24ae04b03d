/** Sorting of managed object references, as `sort.Sort` does with a
    `structure.MoRefSorter`. The sorter's `Less` is not part of this model;
    it is taken as an arbitrary strict total order `less` on references. */
module MoRefSort {
  import opened VmGroupTypes

  ghost predicate StrictTotalOrder(less: (MoRef, MoRef) -> bool) {
    && (forall x :: !less(x, x))
    && (forall x, y, z :: less(x, y) && less(y, z) ==> less(x, z))
    && (forall x, y :: x != y ==> less(x, y) || less(y, x))
  }

  /** No element is less than one before it. */
  ghost predicate Sorted(s: seq<MoRef>, less: (MoRef, MoRef) -> bool) {
    forall i, j | 0 <= i < j < |s| :: !less(s[j], s[i])
  }

  /** `s` with `x` inserted before the first element that is not less than it. */
  function Insert(x: MoRef, s: seq<MoRef>, less: (MoRef, MoRef) -> bool): (r: seq<MoRef>)
    ensures multiset(r) == multiset(s) + multiset{x}
  {
    if s == [] then [x]
    else if less(s[0], x) then
      assert s == [s[0]] + s[1..];
      [s[0]] + Insert(x, s[1..], less)
    else [x] + s
  }

  /** The sorted permutation of `s`: the value a sort leaves behind. */
  function SortedBy(s: seq<MoRef>, less: (MoRef, MoRef) -> bool): (r: seq<MoRef>)
    ensures multiset(r) == multiset(s)
  {
    if s == [] then []
    else
      assert s == [s[0]] + s[1..];
      Insert(s[0], SortedBy(s[1..], less), less)
  }

  lemma {:induction false} InsertSorted(x: MoRef, s: seq<MoRef>, less: (MoRef, MoRef) -> bool)
    requires StrictTotalOrder(less) && Sorted(s, less)
    ensures Sorted(Insert(x, s, less), less)
  {
    if s != [] {
      if less(s[0], x) {
        var rest := Insert(x, s[1..], less);
        InsertSorted(x, s[1..], less);
        forall k | 0 <= k < |rest| ensures !less(rest[k], s[0]) {
          assert rest[k] in multiset(rest);
          if rest[k] != x {
            assert rest[k] in multiset(s[1..]);
            var j :| 0 <= j < |s[1..]| && s[1..][j] == rest[k];
            assert s[j + 1] == rest[k];
          }
        }
        assert Insert(x, s, less) == [s[0]] + rest;
      } else {
        var r := [x] + s;
        forall i, j | 0 <= i < j < |r| ensures !less(r[j], r[i]) {
          if i == 0 {
            assert r[j] == s[j - 1];
            if j > 1 { assert !less(s[j - 1], s[0]); }
          }
        }
      }
    }
  }

  lemma {:induction false} SortedBySorted(s: seq<MoRef>, less: (MoRef, MoRef) -> bool)
    requires StrictTotalOrder(less)
    ensures Sorted(SortedBy(s, less), less)
  {
    if s != [] {
      SortedBySorted(s[1..], less);
      InsertSorted(s[0], SortedBy(s[1..], less), less);
    }
  }

  /** The head of a sorted sequence is not greater than any of its elements. */
  lemma SortedHeadIsLeast(s: seq<MoRef>, x: MoRef, less: (MoRef, MoRef) -> bool)
    requires StrictTotalOrder(less)
    requires Sorted(s, less) && x in multiset(s)
    ensures !less(x, s[0])
  {
    var k :| 0 <= k < |s| && s[k] == x;
    if k != 0 {
      assert !less(s[k], s[0]);
    }
  }

  /** A sorted sequence is determined by its elements: under a strict total
      order, two sorted sequences holding the same multiset are equal. */
  lemma {:induction false} SortedUnique(a: seq<MoRef>, b: seq<MoRef>, less: (MoRef, MoRef) -> bool)
    requires StrictTotalOrder(less)
    requires Sorted(a, less) && Sorted(b, less)
    requires multiset(a) == multiset(b)
    ensures a == b
  {
    assert |a| == |multiset(a)| == |multiset(b)| == |b|;
    if a != [] {
      SortedHeadIsLeast(b, a[0], less);
      SortedHeadIsLeast(a, b[0], less);
      assert a[0] == b[0];
      assert a == [a[0]] + a[1..] && b == [b[0]] + b[1..];
      assert multiset(a[1..]) == multiset(a) - multiset{a[0]};
      assert multiset(b[1..]) == multiset(b) - multiset{b[0]};
      assert Sorted(a[1..], less) && Sorted(b[1..], less);
      SortedUnique(a[1..], b[1..], less);
    }
  }

  /** Sorting two lists by the same order gives equal results exactly when
      the lists hold the same references the same number of times. */
  lemma SortedByCanonical(a: seq<MoRef>, b: seq<MoRef>, less: (MoRef, MoRef) -> bool)
    requires StrictTotalOrder(less)
    ensures SortedBy(a, less) == SortedBy(b, less) <==> multiset(a) == multiset(b)
  {
    if multiset(a) == multiset(b) {
      SortedBySorted(a, less);
      SortedBySorted(b, less);
      SortedUnique(SortedBy(a, less), SortedBy(b, less), less);
    }
  }

  /** `sort.Sort(MoRefSorter(a))`: sorts the slice's backing array in place.
      The Go library's sorting algorithm is not modelled; the array ends up
      holding the sorted permutation of what it held, which `SortedUnique`
      shows is the only sorted permutation under a strict total order. */
  method SortInPlace(a: array<MoRef>, less: (MoRef, MoRef) -> bool)
    requires StrictTotalOrder(less)
    modifies a
    ensures a[..] == SortedBy(old(a[..]), less)
    ensures Sorted(a[..], less) && multiset(a[..]) == multiset(old(a[..]))
  {
    SortedBySorted(a[..], less);
    var sorted := SortedBy(a[..], less);
    assert |sorted| == a.Length by {
      assert |multiset(sorted)| == |sorted| && |multiset(a[..])| == a.Length;
    }
    forall i | 0 <= i < a.Length {
      a[i] := sorted[i];
    }
  }
}
