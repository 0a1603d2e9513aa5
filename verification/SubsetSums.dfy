/** Which (sum, count) pairs the subsets of a list reach.  Selections of sorted positions and
    Boolean masks over the input order both reach exactly these pairs, and the pairs depend
    only on the multiset of amounts. */
module SubsetSums {
  import opened Prelude
  import opened InvoiceSelection

  ghost predicate CanPick(a: seq<int>, sum: int, count: int)
    decreases |a|
  {
    if a == [] then sum == 0 && count == 0
    else
      var rest, last := a[..|a| - 1], a[|a| - 1];
      CanPick(rest, sum, count) || CanPick(rest, sum - last, count - 1)
  }

  // ----- selections

  lemma {:induction false} TotalOfPrefix(a: seq<int>, n: nat, q: Selection)
    requires n <= |a| && Within(q, n)
    ensures Total(a[..n], q) == Total(a, q)
    decreases |q|
  {
    if q != [] {
      TotalOfPrefix(a, n, q[..|q| - 1]);
    }
  }

  lemma {:induction false} SelectionPicks(a: seq<int>, q: Selection)
    requires Within(q, |a|) && Increasing(q)
    ensures CanPick(a, Total(a, q), |q|)
    decreases |a|
  {
    if a != [] {
      var n := |a| - 1;
      if q != [] && q[|q| - 1] == n {
        var r := q[..|q| - 1];
        TotalOfPrefix(a, n, r);
        SelectionPicks(a[..n], r);
      } else {
        assert forall i :: 0 <= i < |q| ==> q[i] <= q[|q| - 1];
        TotalOfPrefix(a, n, q);
        SelectionPicks(a[..n], q);
      }
    }
  }

  lemma {:induction false} PickIsSelection(a: seq<int>, sum: int, count: int) returns (q: Selection)
    requires CanPick(a, sum, count)
    ensures Within(q, |a|) && Increasing(q) && Total(a, q) == sum && |q| == count
    decreases |a|
  {
    if a == [] {
      q := [];
    } else {
      var n := |a| - 1;
      if CanPick(a[..n], sum, count) {
        q := PickIsSelection(a[..n], sum, count);
        TotalOfPrefix(a, n, q);
      } else {
        var r := PickIsSelection(a[..n], sum - a[n], count - 1);
        TotalOfPrefix(a, n, r);
        TotalAppend(a, r, n);
        q := r + [n];
      }
    }
  }

  // ----- Boolean masks

  function MaskTotal(a: seq<int>, x: seq<bool>): int
    requires |x| == |a|
  {
    if a == [] then 0
    else MaskTotal(a[..|a| - 1], x[..|x| - 1]) + if x[|x| - 1] then a[|a| - 1] else 0
  }

  function MaskCount(x: seq<bool>): nat {
    if x == [] then 0 else MaskCount(x[..|x| - 1]) + if x[|x| - 1] then 1 else 0
  }

  lemma {:induction false} MaskPicks(a: seq<int>, x: seq<bool>)
    requires |x| == |a|
    ensures CanPick(a, MaskTotal(a, x), MaskCount(x))
    decreases |a|
  {
    if a != [] {
      MaskPicks(a[..|a| - 1], x[..|x| - 1]);
    }
  }

  lemma {:induction false} PickIsMask(a: seq<int>, sum: int, count: int) returns (x: seq<bool>)
    requires CanPick(a, sum, count)
    ensures |x| == |a| && MaskTotal(a, x) == sum && MaskCount(x) == count
    decreases |a|
  {
    if a == [] {
      x := [];
    } else {
      var n := |a| - 1;
      var keep := !CanPick(a[..n], sum, count);
      var y := PickIsMask(a[..n], if keep then sum - a[n] else sum, if keep then count - 1 else count);
      x := y + [keep];
      assert x[..n] == y;
    }
  }

  // ----- the order of the amounts does not matter

  lemma {:induction false} MoveToEnd(a: seq<int>, x: int, b: seq<int>, sum: int, count: int)
    ensures CanPick(a + [x] + b, sum, count) <==> CanPick(a + b + [x], sum, count)
    decreases |b|
  {
    if b == [] {
      assert a + [x] + b == a + b + [x];
    } else {
      var n := |b| - 1;
      var c, y := b[..n], b[n];
      assert a + [x] + b == (a + [x] + c) + [y];
      assert a + b + [x] == ((a + c) + [y]) + [x];
      MoveToEnd(a, x, c, sum, count);
      MoveToEnd(a, x, c, sum - y, count - 1);
      PickAppend(a + [x] + c, y, sum, count);
      PickAppend(a + c + [y], x, sum, count);
      PickAppend(a + c, y, sum, count);
      PickAppend(a + c, y, sum - x, count - 1);
      PickAppend(a + c, x, sum, count);
      PickAppend(a + c, x, sum - y, count - 1);
    }
  }

  lemma PickAppend(a: seq<int>, x: int, sum: int, count: int)
    ensures CanPick(a + [x], sum, count) <==> CanPick(a, sum, count) || CanPick(a, sum - x, count - 1)
  {
    assert (a + [x])[..|a|] == a;
  }

  lemma RemoveLast(a: seq<int>)
    requires a != []
    ensures multiset(a[..|a| - 1]) == multiset(a) - multiset{a[|a| - 1]}
  {
    RemoveAt(a, |a| - 1);
    assert a[..|a| - 1] + a[|a|..] == a[..|a| - 1];
  }

  lemma SameLength(a: seq<int>, b: seq<int>)
    requires multiset(a) == multiset(b)
    ensures |a| == |b|
  {
    assert |multiset(a)| == |multiset(b)|;
  }

  /** Any element, not only the last, may be decided first. */
  lemma PickWithout(b: seq<int>, i: nat, sum: int, count: int)
    requires i < |b|
    ensures var rest := b[..i] + b[i + 1..];
            CanPick(b, sum, count) <==> CanPick(rest, sum, count) || CanPick(rest, sum - b[i], count - 1)
  {
    MoveToEnd(b[..i], b[i], b[i + 1..], sum, count);
    PickAppend(b[..i] + b[i + 1..], b[i], sum, count);
    assert b == b[..i] + [b[i]] + b[i + 1..];
  }

  lemma Occurs(b: seq<int>, x: int) returns (i: nat)
    requires multiset(b)[x] > 0
    ensures i < |b| && b[i] == x
  {
    assert x in b;
    i :| i < |b| && b[i] == x;
  }

  lemma {:induction false} PickIgnoresOrder(a: seq<int>, b: seq<int>, sum: int, count: int)
    requires multiset(a) == multiset(b)
    ensures CanPick(a, sum, count) <==> CanPick(b, sum, count)
    decreases |a|
  {
    SameLength(a, b);
    if a != [] {
      var x := a[|a| - 1];
      RemoveLast(a);
      assert x in a;
      var i := Occurs(b, x);
      RemoveAt(b, i);
      PickWithout(b, i, sum, count);
      PickIgnoresOrder(a[..|a| - 1], b[..i] + b[i + 1..], sum, count);
      PickIgnoresOrder(a[..|a| - 1], b[..i] + b[i + 1..], sum - x, count - 1);
    }
  }

  lemma LastIsGreatest(a: seq<int>, b: seq<int>)
    requires |a| == |b| > 0 && Ascending(b) && multiset(a) == multiset(b)
    ensures a[|a| - 1] <= b[|b| - 1]
  {
    assert a[|a| - 1] in multiset(b);
  }

  /** An ascending arrangement of a multiset is unique. */
  lemma {:induction false} AscendingUnique(a: seq<int>, b: seq<int>)
    requires Ascending(a) && Ascending(b) && multiset(a) == multiset(b)
    ensures a == b
    decreases |a|
  {
    SameLength(a, b);
    if a != [] {
      LastIsGreatest(a, b);
      LastIsGreatest(b, a);
      RemoveLast(a);
      RemoveLast(b);
      AscendingUnique(a[..|a| - 1], b[..|b| - 1]);
    }
  }
}
