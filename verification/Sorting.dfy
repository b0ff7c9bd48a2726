/** The stable sort the sources call, and when its result does not depend on the order of its input. */
module Sorting {
  type Order<!T> = (T, T) -> bool

  ghost predicate TotalPreorder<T(!new)>(le: Order<T>) {
    && (forall a, b :: le(a, b) || le(b, a))
    && (forall a, b, c :: le(a, b) && le(b, c) ==> le(a, c))
  }

  predicate Tied<T>(a: T, b: T, le: Order<T>) {
    le(a, b) && le(b, a)
  }

  /** An element goes in front of the later ones it is tied with. */
  function Insert<T>(x: T, xs: seq<T>, le: Order<T>): seq<T> {
    if xs == [] || le(x, xs[0]) then [x] + xs else [xs[0]] + Insert(x, xs[1..], le)
  }

  function SortBy<T>(xs: seq<T>, le: Order<T>): (r: seq<T>)
    ensures |r| == |xs|
  {
    if xs == [] then [] else
      InsertGrows(xs[0], SortBy(xs[1..], le), le);
      Insert(xs[0], SortBy(xs[1..], le), le)
  }

  lemma {:induction false} InsertGrows<T>(x: T, xs: seq<T>, le: Order<T>)
    ensures |Insert(x, xs, le)| == |xs| + 1
  {
    if xs != [] && !le(x, xs[0]) {
      InsertGrows(x, xs[1..], le);
    }
  }

  ghost predicate Sorted<T>(xs: seq<T>, le: Order<T>) {
    forall i, j :: 0 <= i < j < |xs| ==> le(xs[i], xs[j])
  }

  // ---- The result is a sorted, stable permutation ----

  lemma {:induction false} InsertPermutes<T>(x: T, xs: seq<T>, le: Order<T>)
    ensures multiset(Insert(x, xs, le)) == multiset([x] + xs)
  {
    if xs != [] && !le(x, xs[0]) {
      InsertPermutes(x, xs[1..], le);
      assert xs == [xs[0]] + xs[1..];
    }
  }

  lemma {:induction false} SortPermutes<T>(xs: seq<T>, le: Order<T>)
    ensures multiset(SortBy(xs, le)) == multiset(xs)
  {
    if xs != [] {
      SortPermutes(xs[1..], le);
      InsertPermutes(xs[0], SortBy(xs[1..], le), le);
      assert xs == [xs[0]] + xs[1..];
    }
  }

  lemma ConsSorted<T>(x: T, xs: seq<T>, le: Order<T>)
    requires Sorted(xs, le) && forall y :: y in xs ==> le(x, y)
    ensures Sorted([x] + xs, le)
  {
    var r := [x] + xs;
    forall i, j | 0 <= i < j < |r| ensures le(r[i], r[j]) {
      assert r[j] == xs[j - 1];
      assert i > 0 ==> r[i] == xs[i - 1];
    }
  }

  lemma {:induction false} InsertSorts<T(!new)>(x: T, xs: seq<T>, le: Order<T>)
    requires TotalPreorder(le) && Sorted(xs, le)
    ensures Sorted(Insert(x, xs, le), le)
  {
    if xs == [] || le(x, xs[0]) {
      ConsSorted(x, xs, le);
    } else {
      InsertSorts(x, xs[1..], le);
      InsertPermutes(x, xs[1..], le);
      var rest := Insert(x, xs[1..], le);
      forall y | y in rest ensures le(xs[0], y) {
        assert y in multiset([x] + xs[1..]);
      }
      ConsSorted(xs[0], rest, le);
    }
  }

  lemma {:induction false} SortSorts<T(!new)>(xs: seq<T>, le: Order<T>)
    requires TotalPreorder(le)
    ensures Sorted(SortBy(xs, le), le)
  {
    if xs != [] {
      SortSorts(xs[1..], le);
      InsertSorts(xs[0], SortBy(xs[1..], le), le);
    }
  }

  /** Sorting what is sorted changes nothing, ties included. */
  lemma {:induction false} SortOfSorted<T>(xs: seq<T>, le: Order<T>)
    requires Sorted(xs, le)
    ensures SortBy(xs, le) == xs
  {
    if xs != [] {
      SortOfSorted(xs[1..], le);
      assert xs == [xs[0]] + xs[1..];
    }
  }

  /** The members of `xs` that are tied with `k`, in order. */
  function TiedWith<T>(xs: seq<T>, k: T, le: Order<T>): seq<T> {
    if xs == [] then [] else (if Tied(xs[0], k, le) then [xs[0]] else []) + TiedWith(xs[1..], k, le)
  }

  lemma {:induction false} InsertIsStable<T(!new)>(x: T, xs: seq<T>, k: T, le: Order<T>)
    requires TotalPreorder(le)
    ensures TiedWith(Insert(x, xs, le), k, le) == TiedWith([x] + xs, k, le)
  {
    assert ([x] + xs)[1..] == xs;
    if xs != [] && !le(x, xs[0]) {
      InsertIsStable(x, xs[1..], k, le);
      assert ([xs[0]] + Insert(x, xs[1..], le))[1..] == Insert(x, xs[1..], le);
      assert ([x] + xs[1..])[1..] == xs[1..];
      assert !(Tied(x, k, le) && Tied(xs[0], k, le));
    }
  }

  lemma {:induction false} SortIsStable<T(!new)>(xs: seq<T>, k: T, le: Order<T>)
    requires TotalPreorder(le)
    ensures TiedWith(SortBy(xs, le), k, le) == TiedWith(xs, k, le)
  {
    if xs != [] {
      SortIsStable(xs[1..], k, le);
      var rest := SortBy(xs[1..], le);
      InsertIsStable(xs[0], rest, k, le);
      assert ([xs[0]] + rest)[1..] == rest;
    }
  }

  // ---- When the input order does not matter ----

  lemma SortedHead<T(!new)>(a: seq<T>, b: seq<T>, le: Order<T>) returns (j: nat)
    requires TotalPreorder(le) && Sorted(a, le) && Sorted(b, le) && multiset(a) == multiset(b) && a != []
    ensures j < |b| && b[j] == a[0] && forall i :: 0 <= i <= j ==> Tied(a[0], b[i], le)
  {
    assert a[0] in multiset(b);
    j :| 0 <= j < |b| && b[j] == a[0];
    forall i | 0 <= i <= j ensures Tied(a[0], b[i], le) {
      assert b[i] in multiset(a);
      assert le(a[0], a[0]);
    }
  }

  function Without<T>(b: seq<T>, j: nat): seq<T>
    requires j < |b|
  {
    b[..j] + b[j + 1..]
  }

  lemma WithoutMember<T>(b: seq<T>, j: nat)
    requires j < |b|
    ensures multiset(b) == multiset(Without(b, j)) + multiset{b[j]}
  {
    assert b == b[..j] + [b[j]] + b[j + 1..];
  }

  lemma WithoutStaysSorted<T>(b: seq<T>, j: nat, le: Order<T>)
    requires j < |b| && Sorted(b, le)
    ensures Sorted(Without(b, j), le)
  {
  }

  lemma WithoutOne<T>(a: seq<T>, b: seq<T>, j: nat)
    requires a != [] && j < |b| && b[j] == a[0] && multiset(a) == multiset(b)
    ensures multiset(a[1..]) == multiset(Without(b, j))
  {
    WithoutMember(b, j);
    WithoutMember(a, 0);
    assert Without(a, 0) == a[1..];
    assert multiset(Without(b, j)) == multiset(b) - multiset{b[j]};
    assert multiset(a[1..]) == multiset(a) - multiset{a[0]};
  }

  /** Two sorted lists with the same members agree, position by position, up to ties. */
  lemma {:induction false} SortedListsAreTied<T(!new)>(a: seq<T>, b: seq<T>, le: Order<T>)
    requires TotalPreorder(le) && Sorted(a, le) && Sorted(b, le) && multiset(a) == multiset(b)
    ensures |a| == |b| && forall i :: 0 <= i < |a| ==> Tied(a[i], b[i], le)
  {
    assert |a| == |multiset(a)| == |multiset(b)| == |b|;
    if a != [] {
      var j := SortedHead(a, b, le);
      var rest := Without(b, j);
      WithoutOne(a, b, j);
      WithoutStaysSorted(b, j, le);
      assert Sorted(a[1..], le);
      SortedListsAreTied(a[1..], rest, le);
      forall i | 0 < i < |a| ensures Tied(a[i], b[i], le) {
        assert a[i] == a[1..][i - 1] && Tied(a[1..][i - 1], rest[i - 1], le);
        if i <= j {
          assert rest[i - 1] == b[i - 1];
          assert Tied(a[0], b[i - 1], le) && Tied(a[0], b[i], le);
        } else {
          assert rest[i - 1] == b[i];
        }
      }
    }
  }

  lemma ReorderedSortsAreTied<T(!new)>(xs: seq<T>, ys: seq<T>, le: Order<T>)
    requires TotalPreorder(le) && multiset(xs) == multiset(ys)
    ensures |xs| == |ys| && forall i :: 0 <= i < |xs| ==> Tied(SortBy(xs, le)[i], SortBy(ys, le)[i], le)
  {
    SortSorts(xs, le);
    SortSorts(ys, le);
    SortPermutes(xs, le);
    SortPermutes(ys, le);
    SortedListsAreTied(SortBy(xs, le), SortBy(ys, le), le);
  }

  lemma {:induction false} TiedAt<T>(xs: seq<T>, i: nat, k: T, le: Order<T>)
    requires i < |xs| && Tied(xs[i], k, le)
    ensures var n := |TiedWith(xs[..i], k, le)|; n < |TiedWith(xs, k, le)| && TiedWith(xs, k, le)[n] == xs[i]
  {
    if i > 0 {
      TiedAt(xs[1..], i - 1, k, le);
      assert xs[..i][1..] == xs[1..][..i - 1];
      assert xs[1..][i - 1] == xs[i];
    } else {
      assert xs[..0] == [];
    }
  }

  function Swap<T>(xs: seq<T>, i: nat, j: nat): seq<T>
    requires i < |xs| && j < |xs|
  {
    xs[i := xs[j]][j := xs[i]]
  }

  /** Swapping two tied but different elements shows in the result. */
  lemma SwapShows<T(!new)>(xs: seq<T>, i: nat, j: nat, le: Order<T>)
    requires TotalPreorder(le) && i < j < |xs| && Tied(xs[i], xs[j], le) && xs[i] != xs[j]
    ensures multiset(Swap(xs, i, j)) == multiset(xs) && SortBy(Swap(xs, i, j), le) != SortBy(xs, le)
  {
    var ys, k := Swap(xs, i, j), xs[i];
    assert Tied(k, k, le) && Tied(xs[j], k, le);
    assert ys[i] == xs[j] && ys[..i] == xs[..i];
    TiedAt(xs, i, k, le);
    TiedAt(ys, i, k, le);
    SortIsStable(xs, k, le);
    SortIsStable(ys, k, le);
  }

  ghost predicate TiesAreEqual<T>(xs: seq<T>, le: Order<T>) {
    forall a, b :: a in xs && b in xs && Tied(a, b, le) ==> a == b
  }

  ghost predicate OrderIsForgotten<T(!new)>(xs: seq<T>, le: Order<T>) {
    forall ys :: multiset(ys) == multiset(xs) ==> SortBy(ys, le) == SortBy(xs, le)
  }

  /** Every reordering of the input sorts to the same list exactly when tied members are equal. */
  lemma OrderForgottenIff<T(!new)>(xs: seq<T>, le: Order<T>)
    requires TotalPreorder(le)
    ensures OrderIsForgotten(xs, le) <==> TiesAreEqual(xs, le)
  {
    if TiesAreEqual(xs, le) {
      forall ys | multiset(ys) == multiset(xs) ensures SortBy(ys, le) == SortBy(xs, le) {
        TiedSortsCoincide(xs, ys, le);
      }
    }
    if OrderIsForgotten(xs, le) {
      forall a, b | a in xs && b in xs && Tied(a, b, le) ensures a == b {
        var i :| 0 <= i < |xs| && xs[i] == a;
        var j :| 0 <= j < |xs| && xs[j] == b;
        if a != b {
          assert i != j;
          SwapShows(xs, if i < j then i else j, if i < j then j else i, le);
        }
      }
    }
  }

  lemma TiedSortsCoincide<T(!new)>(xs: seq<T>, ys: seq<T>, le: Order<T>)
    requires TotalPreorder(le) && multiset(ys) == multiset(xs) && TiesAreEqual(xs, le)
    ensures SortBy(ys, le) == SortBy(xs, le)
  {
    ReorderedSortsAreTied(xs, ys, le);
    SortPermutes(xs, le);
    SortPermutes(ys, le);
    var a, b := SortBy(xs, le), SortBy(ys, le);
    forall i | 0 <= i < |xs| ensures a[i] == b[i] {
      assert a[i] in multiset(xs) && b[i] in multiset(xs);
    }
  }
}
