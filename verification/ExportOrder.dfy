/**
 The order in which exports that share an identity are scanned: what a sort
 with the reconciler's comparator may return, and when that is one list only.
 */
module ExportOrder {
  import opened Wrappers
  import opened Apis
  import opened StringOrder

  /** The comparator handed to the sort: both the name and the cluster must be smaller. */
  predicate Before(a: APIExport, b: APIExport) {
    Less(a.name, b.name) && Less(a.cluster, b.cluster)
  }

  lemma BeforeIsStrict(a: APIExport, b: APIExport)
    ensures !(Before(a, b) && Before(b, a))
  {
    LessIsStrict(a.name, b.name);
  }

  lemma BeforeIsTransitive(a: APIExport, b: APIExport, c: APIExport)
    requires Before(a, b) && Before(b, c)
    ensures Before(a, c)
  {
    LessIsTransitive(a.name, b.name, c.name);
    LessIsTransitive(a.cluster, b.cluster, c.cluster);
  }

  /**
   What sort.Slice demands of its comparator besides being a strict partial
   order: being unordered is transitive. Here it may fail.
   */
  ghost predicate Weak(xs: seq<APIExport>) {
    forall a, b, x :: a in xs && b in xs && x in xs && Before(a, b) ==> Before(a, x) || Before(x, b)
  }

  /** The comparator orders every two exports. */
  ghost predicate OrdersAll(xs: seq<APIExport>) {
    forall a, b :: a in xs && b in xs ==> a == b || Before(a, b) || Before(b, a)
  }

  /** No export stands behind one it is before. */
  ghost predicate Ordered(xs: seq<APIExport>) {
    forall i, j :: 0 <= i < j < |xs| ==> !Before(xs[j], xs[i])
  }

  /**
   What sorting `index` may return: a permutation, and an ordered one if the
   comparator is what a sort demands. A sort promises nothing otherwise.
   */
  ghost predicate Listing(index: seq<APIExport>, xs: seq<APIExport>) {
    && multiset(xs) == multiset(index)
    && (Weak(index) ==> Ordered(xs))
  }

  lemma OrdersAllIsWeak(xs: seq<APIExport>)
    requires OrdersAll(xs)
    ensures Weak(xs)
  {
    forall a, b, x | a in xs && b in xs && x in xs && Before(a, b) ensures Before(a, x) || Before(x, b) {
      if Before(x, a) {
        BeforeIsTransitive(x, a, b);
      }
    }
  }

  // ----- One sort -----

  function Insert(x: APIExport, xs: seq<APIExport>): seq<APIExport> {
    if xs == [] then [x]
    else if Before(x, xs[0]) then [x] + xs
    else [xs[0]] + Insert(x, xs[1..])
  }

  /** sort.Slice with the exports' comparator, as one of the sorts it may be. */
  function Sort(index: seq<APIExport>): seq<APIExport> {
    if index == [] then [] else Insert(index[|index| - 1], Sort(index[..|index| - 1]))
  }

  lemma {:induction false} InsertAdds(x: APIExport, xs: seq<APIExport>)
    ensures multiset(Insert(x, xs)) == multiset(xs) + multiset{x}
  {
    if xs != [] && !Before(x, xs[0]) {
      InsertAdds(x, xs[1..]);
      assert xs == [xs[0]] + xs[1..];
    }
  }

  lemma InsertHas(x: APIExport, xs: seq<APIExport>, e: APIExport)
    ensures e in Insert(x, xs) <==> e == x || e in xs
  {
    InsertAdds(x, xs);
    assert e in Insert(x, xs) <==> e in multiset(Insert(x, xs));
    assert e in xs <==> e in multiset(xs);
  }

  lemma PrependOrders(x: APIExport, xs: seq<APIExport>)
    requires Ordered(xs) && forall e :: e in xs ==> !Before(e, x)
    ensures Ordered([x] + xs)
  {
    forall i, j | 0 <= i < j < |[x] + xs| ensures !Before(([x] + xs)[j], ([x] + xs)[i]) {
      assert xs[j - 1] in xs;
    }
  }

  lemma {:induction false} InsertOrders(x: APIExport, xs: seq<APIExport>)
    requires Ordered(xs)
    ensures Ordered(Insert(x, xs))
  {
    if xs == [] {
    } else if Before(x, xs[0]) {
      forall e | e in xs ensures !Before(e, x) {
        var j :| 0 <= j < |xs| && xs[j] == e;
        BeforeIsStrict(x, xs[0]);
        if Before(e, x) {
          BeforeIsTransitive(e, x, xs[0]);
        }
      }
      PrependOrders(x, xs);
    } else {
      InsertOrders(x, xs[1..]);
      forall e | e in Insert(x, xs[1..]) ensures !Before(e, xs[0]) {
        InsertHas(x, xs[1..], e);
        if e != x {
          var j :| 0 <= j < |xs[1..]| && xs[1..][j] == e;
          assert xs[j + 1] == e;
        }
      }
      PrependOrders(xs[0], Insert(x, xs[1..]));
    }
  }

  /** Its result is an ordered permutation, for every comparator that is transitive. */
  lemma {:induction false} SortOrders(index: seq<APIExport>)
    ensures multiset(Sort(index)) == multiset(index) && Ordered(Sort(index))
  {
    if index != [] {
      var init, last := index[..|index| - 1], index[|index| - 1];
      SortOrders(init);
      InsertAdds(last, Sort(init));
      InsertOrders(last, Sort(init));
      assert index == init + [last];
    }
  }

  lemma SortGivesListing(index: seq<APIExport>)
    ensures Listing(index, Sort(index))
  {
    SortOrders(index);
  }

  // ----- A listing that puts a given export late -----

  function Above(a: APIExport, xs: seq<APIExport>): (r: seq<APIExport>)
    ensures forall e :: e in r <==> e in xs && Before(a, e)
  {
    if xs == [] then []
    else (if Before(a, xs[0]) then [xs[0]] else []) + Above(a, xs[1..])
  }

  function NotAbove(a: APIExport, xs: seq<APIExport>): (r: seq<APIExport>)
    ensures forall e :: e in r <==> e in xs && !Before(a, e)
  {
    if xs == [] then []
    else (if Before(a, xs[0]) then [] else [xs[0]]) + NotAbove(a, xs[1..])
  }

  lemma {:induction false} AboveSplits(a: APIExport, xs: seq<APIExport>)
    ensures multiset(NotAbove(a, xs)) + multiset(Above(a, xs)) == multiset(xs)
  {
    if xs != [] {
      AboveSplits(a, xs[1..]);
      assert xs == [xs[0]] + xs[1..];
    }
  }

  lemma {:induction false} PartsAreOrdered(a: APIExport, xs: seq<APIExport>)
    requires Ordered(xs)
    ensures Ordered(NotAbove(a, xs)) && Ordered(Above(a, xs))
  {
    if xs != [] {
      PartsAreOrdered(a, xs[1..]);
      forall e | e in xs[1..] ensures !Before(e, xs[0]) {
        var j :| 0 <= j < |xs[1..]| && xs[1..][j] == e;
        assert xs[j + 1] == e;
      }
      PrependOrders(xs[0], if Before(a, xs[0]) then Above(a, xs[1..]) else NotAbove(a, xs[1..]));
    }
  }

  /** Everything that need not come after `a`, then `a`, then what must. */
  function Late(a: APIExport, rest: seq<APIExport>): seq<APIExport> {
    NotAbove(a, rest) + ([a] + Above(a, rest))
  }

  lemma JoinOrders(xs: seq<APIExport>, ys: seq<APIExport>)
    requires Ordered(xs) && Ordered(ys) && forall x, y :: x in xs && y in ys ==> !Before(y, x)
    ensures Ordered(xs + ys)
  {
    forall i, j | 0 <= i < j < |xs + ys| ensures !Before((xs + ys)[j], (xs + ys)[i]) {
      if i < |xs| <= j {
        assert xs[i] in xs && ys[j - |xs|] in ys;
      }
    }
  }

  /** What is not above `a` is not above anything above `a` either. */
  lemma NotAboveIsLow(a: APIExport, x: APIExport, y: APIExport)
    requires !Before(a, x) && (y == a || Before(a, y))
    ensures !Before(y, x)
  {
    if Before(y, x) && y != a {
      BeforeIsTransitive(a, y, x);
    }
  }

  lemma LateIsOrdered(a: APIExport, rest: seq<APIExport>)
    requires Ordered(rest)
    ensures Ordered(Late(a, rest))
  {
    var low, high := NotAbove(a, rest), Above(a, rest);
    PartsAreOrdered(a, rest);
    forall e | e in high ensures !Before(e, a) {
      BeforeIsStrict(a, e);
    }
    PrependOrders(a, high);
    forall x, y | x in low && y in [a] + high ensures !Before(y, x) {
      NotAboveIsLow(a, x, y);
    }
    JoinOrders(low, [a] + high);
  }

  lemma LatePermutes(a: APIExport, rest: seq<APIExport>)
    ensures multiset(Late(a, rest)) == multiset(rest) + multiset{a}
  {
    AboveSplits(a, rest);
  }

  lemma TakeOut(index: seq<APIExport>, e: APIExport) returns (rest: seq<APIExport>)
    requires e in index
    ensures multiset(index) == multiset(rest) + multiset{e}
  {
    var i :| 0 <= i < |index| && index[i] == e;
    rest := index[..i] + index[i + 1..];
    assert index == index[..i] + [e] + index[i + 1..];
  }

  /** Any export can come later than all it is not before. */
  lemma SomeLateListing(index: seq<APIExport>, a: APIExport) returns (xs: seq<APIExport>, p: nat)
    requires a in index
    ensures Listing(index, xs)
    ensures p < |xs| && xs[p] == a && forall j :: p < j < |xs| ==> Before(a, xs[j])
  {
    var rest := TakeOut(index, a);
    SortOrders(rest);
    LateIsOrdered(a, Sort(rest));
    LatePermutes(a, Sort(rest));
    xs, p := Late(a, Sort(rest)), |NotAbove(a, Sort(rest))|;
    forall j | p < j < |xs| ensures Before(a, xs[j]) {
      assert xs[j] in Above(a, Sort(rest));
    }
  }

  // ----- When there is one listing -----

  lemma OrderedIsStrictlyOrdered(xs: seq<APIExport>, i: nat, j: nat)
    requires Ordered(xs) && OrdersAll(xs) && i < j < |xs|
    ensures xs[i] == xs[j] || Before(xs[i], xs[j])
  {
    assert xs[i] in xs && xs[j] in xs;
  }

  /** The first elements of two ordered lists of the same exports are equal. */
  lemma OrderedHeadsAgree(xs: seq<APIExport>, ys: seq<APIExport>)
    requires xs != [] && ys != [] && xs[0] in ys && ys[0] in xs
    requires Ordered(xs) && Ordered(ys) && OrdersAll(xs)
    ensures xs[0] == ys[0]
  {
    var i :| 0 <= i < |xs| && xs[i] == ys[0];
    var j :| 0 <= j < |ys| && ys[j] == xs[0];
    assert xs[0] in xs;
  }

  lemma TailsArePermuted(xs: seq<APIExport>, ys: seq<APIExport>)
    requires xs != [] && ys != [] && xs[0] == ys[0] && multiset(xs) == multiset(ys)
    ensures multiset(xs[1..]) == multiset(ys[1..])
  {
    assert xs == [xs[0]] + xs[1..] && ys == [xs[0]] + ys[1..];
    assert multiset(xs[1..]) == multiset(xs) - multiset{xs[0]} == multiset(ys[1..]);
  }

  lemma {:induction false} OrderedPermutationsAgree(xs: seq<APIExport>, ys: seq<APIExport>)
    requires multiset(xs) == multiset(ys)
    requires Ordered(xs) && Ordered(ys) && OrdersAll(xs)
    ensures xs == ys
  {
    assert |xs| == |multiset(xs)| == |multiset(ys)| == |ys|;
    if xs != [] {
      assert xs[0] in multiset(ys) && ys[0] in multiset(xs);
      OrderedHeadsAgree(xs, ys);
      TailsArePermuted(xs, ys);
      OrderedPermutationsAgree(xs[1..], ys[1..]);
      assert xs == [xs[0]] + xs[1..] && ys == [ys[0]] + ys[1..];
    }
  }

  /**
   The list a claim scans is independent of the order in which the index
   returned it exactly when the comparator orders every two exports.
   */
  lemma ListingIsDeterministicIff(index: seq<APIExport>)
    ensures (forall other, xs, ys :: multiset(other) == multiset(index) && Listing(index, xs) && Listing(other, ys)
                                     ==> xs == ys)
            <==> OrdersAll(index)
  {
    if OrdersAll(index) {
      OrdersAllIsWeak(index);
      forall other, xs, ys | multiset(other) == multiset(index) && Listing(index, xs) && Listing(other, ys)
        ensures xs == ys
      {
        MembersArePermuted(other, index);
        MembersArePermuted(xs, index);
        OrderedPermutationsAgree(xs, ys);
      }
    } else {
      var a, b :| a in index && b in index && a != b && !Before(a, b) && !Before(b, a);
      var xs, p := SomeLateListing(index, a);
      var ys, q := SomeLateListing(index, b);
      BeforeIsStrict(a, a);
      BeforeIsStrict(b, b);
      assert xs != ys;
    }
  }
}
