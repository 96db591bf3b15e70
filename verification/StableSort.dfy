/** A stable insertion sort by a comparison, standing for the library sorts
    (slices.SortStableFunc, sort.SliceStable, sort.Slice). */
module StableSort {
  /** Inserts x in front of the first element that it does not follow. */
  function Insert<T>(cmp: (T, T) -> int, x: T, xs: seq<T>): seq<T> {
    if xs == [] || cmp(x, xs[0]) <= 0 then [x] + xs else [xs[0]] + Insert(cmp, x, xs[1..])
  }

  function Sort<T>(cmp: (T, T) -> int, xs: seq<T>): seq<T> {
    if xs == [] then [] else Insert(cmp, xs[0], Sort(cmp, xs[1..]))
  }

  lemma {:induction false} InsertKeeps<T>(cmp: (T, T) -> int, x: T, xs: seq<T>)
    ensures multiset(Insert(cmp, x, xs)) == multiset(xs) + multiset{x}
  {
    if xs != [] && cmp(x, xs[0]) > 0 {
      InsertKeeps(cmp, x, xs[1..]);
      assert xs == [xs[0]] + xs[1..];
    }
  }

  lemma {:induction false} SortKeeps<T>(cmp: (T, T) -> int, xs: seq<T>)
    ensures multiset(Sort(cmp, xs)) == multiset(xs)
  {
    if xs != [] {
      SortKeeps(cmp, xs[1..]);
      InsertKeeps(cmp, xs[0], Sort(cmp, xs[1..]));
      assert xs == [xs[0]] + xs[1..];
    }
  }

  /** The comparison orders the elements of s: one way round or the other, and
      transitively. */
  ghost predicate Orders<T>(cmp: (T, T) -> int, s: iset<T>) {
    && (forall a, b :: a in s && b in s && cmp(a, b) > 0 ==> cmp(b, a) <= 0)
    && (forall a, b, c :: a in s && b in s && c in s && cmp(a, b) <= 0 && cmp(b, c) <= 0 ==> cmp(a, c) <= 0)
  }

  ghost predicate Within<T>(xs: seq<T>, s: iset<T>) {
    forall i :: 0 <= i < |xs| ==> xs[i] in s
  }

  ghost predicate Sorted<T>(cmp: (T, T) -> int, xs: seq<T>) {
    forall i, j :: 0 <= i < j < |xs| ==> cmp(xs[i], xs[j]) <= 0
  }

  /** In front of a sorted list that it does not follow. */
  lemma {:induction false} FrontSorted<T>(cmp: (T, T) -> int, x: T, xs: seq<T>)
    requires Sorted(cmp, xs) && forall i :: 0 <= i < |xs| ==> cmp(x, xs[i]) <= 0
    ensures Sorted(cmp, [x] + xs)
  {
  }

  /** What is not behind the first is not behind any. */
  lemma {:induction false} BeforeAll<T>(cmp: (T, T) -> int, s: iset<T>, x: T, xs: seq<T>, i: nat)
    requires Orders(cmp, s) && Within(xs, s) && x in s && Sorted(cmp, xs) && i < |xs| && cmp(x, xs[0]) <= 0
    ensures cmp(x, xs[i]) <= 0
  {
    if i > 0 {
      assert cmp(xs[0], xs[i]) <= 0;
    }
  }

  lemma {:induction false} InsertedFrom<T>(cmp: (T, T) -> int, x: T, xs: seq<T>, i: nat)
    requires i < |Insert(cmp, x, xs)|
    ensures Insert(cmp, x, xs)[i] == x || Insert(cmp, x, xs)[i] in xs
  {
    if xs != [] && cmp(x, xs[0]) > 0 && i > 0 {
      InsertedFrom(cmp, x, xs[1..], i - 1);
    }
  }

  lemma {:induction false} SortedTail<T>(cmp: (T, T) -> int, s: iset<T>, xs: seq<T>)
    requires xs != [] && Sorted(cmp, xs) && Within(xs, s)
    ensures Sorted(cmp, xs[1..]) && Within(xs[1..], s) && forall y :: y in xs[1..] ==> cmp(xs[0], y) <= 0
  {
  }

  lemma {:induction false} InsertSorted<T>(cmp: (T, T) -> int, s: iset<T>, x: T, xs: seq<T>)
    requires Orders(cmp, s) && Within(xs, s) && x in s && Sorted(cmp, xs)
    ensures Sorted(cmp, Insert(cmp, x, xs))
  {
    if xs == [] || cmp(x, xs[0]) <= 0 {
      forall i | 0 <= i < |xs| ensures cmp(x, xs[i]) <= 0 {
        BeforeAll(cmp, s, x, xs, i);
      }
      FrontSorted(cmp, x, xs);
    } else {
      SortedTail(cmp, s, xs);
      InsertSorted(cmp, s, x, xs[1..]);
      var r := Insert(cmp, x, xs[1..]);
      forall i | 0 <= i < |r| ensures cmp(xs[0], r[i]) <= 0 {
        InsertedFrom(cmp, x, xs[1..], i);
      }
      FrontSorted(cmp, xs[0], r);
    }
  }

  lemma {:induction false} InsertWithin<T>(cmp: (T, T) -> int, s: iset<T>, x: T, xs: seq<T>)
    requires Within(xs, s) && x in s
    ensures Within(Insert(cmp, x, xs), s)
  {
    var r := Insert(cmp, x, xs);
    forall i | 0 <= i < |r| ensures r[i] in s {
      InsertedFrom(cmp, x, xs, i);
    }
  }

  /** Sorting sorts, whatever the elements, as long as they are ordered. */
  lemma {:induction false} SortSorts<T>(cmp: (T, T) -> int, s: iset<T>, xs: seq<T>)
    requires Orders(cmp, s) && Within(xs, s)
    ensures Sorted(cmp, Sort(cmp, xs)) && Within(Sort(cmp, xs), s)
  {
    if xs != [] {
      SortSorts(cmp, s, xs[1..]);
      InsertSorted(cmp, s, xs[0], Sort(cmp, xs[1..]));
      InsertWithin(cmp, s, xs[0], Sort(cmp, xs[1..]));
    }
  }
}
