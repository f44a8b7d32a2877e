/** What the program expects of the language's collections: sorts that keep the elements and put them in order,
    saying nothing about the order of elements that compare equal, and maps that are walked in any order; and
    the facts about permutations and sums that follow. */
module Collections {
  ghost predicate TotalPreorder<T(!new)>(le: (T, T) -> bool) {
    && (forall x, y :: le(x, y) || le(y, x))
    && (forall x, y, z :: le(x, y) && le(y, z) ==> le(x, z))
  }

  predicate SortedBy<T>(s: seq<T>, le: (T, T) -> bool) {
    forall i, j :: 0 <= i < j < |s| ==> le(s[i], s[j])
  }

  predicate SortOf<T(==)>(sorted: seq<T>, s: seq<T>, le: (T, T) -> bool) {
    SortedBy(sorted, le) && multiset(sorted) == multiset(s)
  }

  function Insert<T>(s: seq<T>, x: T, le: (T, T) -> bool): seq<T> {
    if s == [] then [x]
    else if le(x, s[0]) then [x] + s
    else [s[0]] + Insert(s[1..], x, le)
  }

  lemma {:induction false} InsertKeeps<T>(s: seq<T>, x: T, le: (T, T) -> bool)
    ensures multiset(Insert(s, x, le)) == multiset(s) + multiset{x}
  {
    if s == [] {
    } else {
      assert s == [s[0]] + s[1..];
      if !le(x, s[0]) {
        InsertKeeps(s[1..], x, le);
      }
    }
  }

  lemma {:induction false} InsertBounds<T>(s: seq<T>, x: T, y: T, le: (T, T) -> bool)
    requires le(y, x) && forall k :: 0 <= k < |s| ==> le(y, s[k])
    ensures forall k :: 0 <= k < |Insert(s, x, le)| ==> le(y, Insert(s, x, le)[k])
  {
    if s == [] {
    } else if !le(x, s[0]) {
      InsertBounds(s[1..], x, y, le);
    }
  }

  lemma {:induction false} InsertSorts<T(!new)>(s: seq<T>, x: T, le: (T, T) -> bool)
    requires TotalPreorder(le) && SortedBy(s, le)
    ensures SortedBy(Insert(s, x, le), le)
  {
    if s == [] {
    } else if le(x, s[0]) {
      forall k | 0 <= k < |s| ensures le(x, s[k]) {
        assert le(s[0], s[k]);
      }
    } else {
      InsertSorts(s[1..], x, le);
      InsertBounds(s[1..], x, s[0], le);
    }
  }

  /** One rearrangement in order; that there is one is all that is used of it. */
  function Sorted<T>(s: seq<T>, le: (T, T) -> bool): seq<T> {
    if s == [] then [] else Insert(Sorted(s[..|s| - 1], le), s[|s| - 1], le)
  }

  lemma {:induction false} SortedIsSort<T(!new)>(s: seq<T>, le: (T, T) -> bool)
    requires TotalPreorder(le)
    ensures SortOf(Sorted(s, le), s, le)
  {
    if s == [] {
    } else {
      var init, last := s[..|s| - 1], s[|s| - 1];
      SortedIsSort(init, le);
      InsertSorts(Sorted(init, le), last, le);
      InsertKeeps(Sorted(init, le), last, le);
      assert s == init + [last];
    }
  }

  method Sort<T(!new)>(s: seq<T>, le: (T, T) -> bool) returns (sorted: seq<T>)
    requires TotalPreorder(le)
    ensures SortOf(sorted, s, le)
  {
    sorted := [];
    for i := 0 to |s|
      invariant SortOf(sorted, s[..i], le)
    {
      InsertSorts(sorted, s[i], le);
      InsertKeeps(sorted, s[i], le);
      sorted := Insert(sorted, s[i], le);
      assert s[..i + 1] == s[..i] + [s[i]];
    }
    assert s[..|s|] == s;
  }

  /** The next key of a map walk: any of those left. */
  method AnyOf<T>(s: set<T>) returns (x: T)
    requires s != {}
    ensures x in s
  {
    x :| x in s;
  }

  // ---------------------------------------------------------------- facts about permutations

  lemma SamePosition<T>(a: seq<T>, b: seq<T>, x: T)
    requires multiset(a) == multiset(b)
    ensures |a| == |b| && (x in a <==> x in b)
  {
    assert |multiset(a)| == |a| && |multiset(b)| == |b|;
    assert x in a <==> x in multiset(a);
    assert x in b <==> x in multiset(b);
  }

  function RemoveAt<T>(s: seq<T>, k: nat): seq<T>
    requires k < |s|
  {
    s[..k] + s[k + 1..]
  }

  lemma RemoveAtMultiset<T>(s: seq<T>, k: nat)
    requires k < |s|
    ensures multiset(RemoveAt(s, k)) == multiset(s) - multiset{s[k]}
  {
    assert s == s[..k] + [s[k]] + s[k + 1..];
  }

  function Sum(xs: seq<real>): real {
    if xs == [] then 0.0 else xs[0] + Sum(xs[1..])
  }

  lemma {:induction false} SumAppend(a: seq<real>, b: seq<real>)
    ensures Sum(a + b) == Sum(a) + Sum(b)
  {
    if a == [] {
      assert a + b == b;
    } else {
      assert (a + b)[1..] == a[1..] + b;
      SumAppend(a[1..], b);
    }
  }

  lemma {:induction false} SumRemove(s: seq<real>, k: nat)
    requires k < |s|
    ensures Sum(s) == s[k] + Sum(RemoveAt(s, k))
  {
    assert s == s[..k] + ([s[k]] + s[k + 1..]);
    SumAppend(s[..k], [s[k]] + s[k + 1..]);
    SumAppend(s[..k], s[k + 1..]);
  }

  lemma {:induction false} SumOfPermutation(a: seq<real>, b: seq<real>)
    requires multiset(a) == multiset(b)
    ensures Sum(a) == Sum(b)
    decreases |a|
  {
    SamePosition(a, b, if a == [] then 0.0 else a[0]);
    if a == [] {
    } else {
      var k :| 0 <= k < |b| && b[k] == a[0];
      RemoveAtMultiset(b, k);
      RemoveAtMultiset(a, 0);
      SumOfPermutation(RemoveAt(a, 0), RemoveAt(b, k));
      SumRemove(a, 0);
      SumRemove(b, k);
    }
  }

  function Map<T, U>(f: T -> U, s: seq<T>): (r: seq<U>)
    ensures |r| == |s| && forall k :: 0 <= k < |s| ==> r[k] == f(s[k])
  {
    seq(|s|, k requires 0 <= k < |s| => f(s[k]))
  }

  lemma MapRemoveAt<T, U>(f: T -> U, s: seq<T>, k: nat)
    requires k < |s|
    ensures f(s[k]) in multiset(Map(f, s))
    ensures multiset(Map(f, RemoveAt(s, k))) == multiset(Map(f, s)) - multiset{f(s[k])}
  {
    assert Map(f, s)[k] == f(s[k]);
    assert Map(f, RemoveAt(s, k)) == RemoveAt(Map(f, s), k);
    RemoveAtMultiset(Map(f, s), k);
  }

  lemma AddBack<T>(a: multiset<T>, b: multiset<T>, x: T)
    requires x in a && x in b && a - multiset{x} == b - multiset{x}
    ensures a == b
  {
    forall y ensures a[y] == b[y] {
      assert (a - multiset{x})[y] == (b - multiset{x})[y];
    }
  }

  lemma {:induction false} MapPermutation<T, U>(f: T -> U, a: seq<T>, b: seq<T>)
    requires multiset(a) == multiset(b)
    ensures multiset(Map(f, a)) == multiset(Map(f, b))
    decreases |a|
  {
    if a == [] {
      assert |multiset(a)| == |a| && |multiset(b)| == |b|;
      assert Map(f, a) == Map(f, b);
    } else {
      SamePosition(a, b, a[0]);
      var k :| 0 <= k < |b| && b[k] == a[0];
      RemoveAtMultiset(a, 0);
      RemoveAtMultiset(b, k);
      MapPermutation(f, RemoveAt(a, 0), RemoveAt(b, k));
      MapRemoveAt(f, a, 0);
      MapRemoveAt(f, b, k);
      AddBack(multiset(Map(f, a)), multiset(Map(f, b)), f(a[0]));
    }
  }

  lemma NextPrefix<T>(before: seq<T>, s: seq<T>, k: nat)
    requires k < |s|
    ensures before + s[..k + 1] == before + s[..k] + [s[k]]
  {}

  predicate Distinct<T(==)>(s: seq<T>) {
    forall i, j :: 0 <= i < j < |s| ==> s[i] != s[j]
  }

  lemma TwiceInMultiset<T>(s: seq<T>, i: nat, j: nat)
    requires i < j < |s|
    ensures s[i] == s[j] ==> multiset(s)[s[i]] >= 2
  {
    assert s == s[..j] + [s[j]] + s[j + 1..];
    assert s[..j][i] == s[i];
  }

  lemma DistinctFromMultiset<T>(s: seq<T>)
    requires forall x :: x in s ==> multiset(s)[x] == 1
    ensures Distinct(s)
  {
    forall i, j | 0 <= i < j < |s| ensures s[i] != s[j] {
      TwiceInMultiset(s, i, j);
    }
  }

  lemma {:induction false} DistinctMultiset<T>(s: seq<T>, x: T)
    requires Distinct(s)
    ensures multiset(s)[x] == if x in s then 1 else 0
  {
    if x in s {
      var k :| 0 <= k < |s| && s[k] == x;
      RemoveAtMultiset(s, k);
      assert x !in RemoveAt(s, k);
      assert x !in multiset(RemoveAt(s, k));
    }
  }

  /** A rearrangement of distinct elements is distinct. */
  lemma DistinctPermutation<T>(a: seq<T>, b: seq<T>)
    requires Distinct(a) && multiset(a) == multiset(b)
    ensures Distinct(b)
  {
    forall x | x in b ensures multiset(b)[x] == 1 {
      SamePosition(a, b, x);
      DistinctMultiset(a, x);
    }
    DistinctFromMultiset(b);
  }

  function Elements<T>(s: seq<T>): set<T> { set x | x in s }

  lemma {:induction false} CardinalityOfDistinct<T>(s: seq<T>)
    requires Distinct(s)
    ensures |Elements(s)| == |s|
  {
    if s == [] {
    } else {
      var init := s[..|s| - 1];
      CardinalityOfDistinct(init);
      assert s == init + [s[|s| - 1]];
      assert Elements(s) == Elements(init) + {s[|s| - 1]};
      assert s[|s| - 1] !in Elements(init);
    }
  }

  lemma {:induction false} SubsetSize<T>(s: set<T>, t: set<T>)
    requires s <= t
    ensures |s| <= |t|
  {
    if s == {} {
    } else {
      var x :| x in s;
      SubsetSize(s - {x}, t - {x});
    }
  }
}
