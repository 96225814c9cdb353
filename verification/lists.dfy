/**
 * The array idioms every page repeats: `xs.filter(p)`, `xs.filter(y => y !== x)`,
 * the "remove if present, append if absent" toggle, `xs.map(y => sel(y) ? f(y) : y)`
 * and order-preserving subsequences.
 */
module Lists {

  import opened Wrappers

  /** `xs.filter(p)`. */
  function Filter<T>(p: T -> bool, xs: seq<T>): (r: seq<T>)
    ensures |r| <= |xs|
    ensures forall i :: 0 <= i < |r| ==> r[i] in xs && p(r[i])
    ensures forall i :: 0 <= i < |xs| && p(xs[i]) ==> xs[i] in r
    ensures multiset(r) <= multiset(xs)
    ensures (forall i :: 0 <= i < |xs| ==> p(xs[i])) ==> r == xs
    ensures (exists i :: 0 <= i < |xs| && !p(xs[i])) ==> |r| < |xs|
  {
    if |xs| == 0 then []
    else
      assert xs == [xs[0]] + xs[1..];
      if p(xs[0]) then [xs[0]] + Filter(p, xs[1..]) else Filter(p, xs[1..])
  }

  /** A filter keeps every passing element as often as the input holds it, and no other. */
  lemma {:induction false} FilterCounts<T>(p: T -> bool, xs: seq<T>)
    ensures forall y :: multiset(Filter(p, xs))[y] == if p(y) then multiset(xs)[y] else 0
  {
    if |xs| > 0 {
      FilterCounts(p, xs[1..]);
      assert xs == [xs[0]] + xs[1..];
    }
  }

  lemma FilterNone<T>(p: T -> bool, xs: seq<T>)
    requires forall i :: 0 <= i < |xs| ==> !p(xs[i])
    ensures Filter(p, xs) == []
  {
  }

  lemma FilterKeeps<T>(p: T -> bool, xs: seq<T>, y: T)
    requires y in xs && p(y)
    ensures y in Filter(p, xs)
  {
    var k :| 0 <= k < |xs| && xs[k] == y;
  }

  /** Two filters in a row keep exactly what satisfies both tests, in order. */
  lemma FilterTwice<T>(p: T -> bool, q: T -> bool, xs: seq<T>)
    ensures var r := Filter(q, Filter(p, xs));
      && multiset(r) <= multiset(xs)
      && IsSubsequence(r, xs)
      && (forall i :: 0 <= i < |r| ==> p(r[i]) && q(r[i]))
      && (forall y :: y in xs && p(y) && q(y) ==> y in r)
      && (forall i :: 0 <= i < |r| ==> r[i] in xs)
      && (forall y :: multiset(r)[y] == if p(y) && q(y) then multiset(xs)[y] else 0)
  {
    var r1 := Filter(p, xs);
    var r := Filter(q, r1);
    FilterCounts(p, xs);
    FilterCounts(q, r1);
    FilterIsSubsequence(p, xs);
    FilterIsSubsequence(q, r1);
    SubsequenceTransitive(r, r1, xs);
    forall y | y in xs && p(y) && q(y) ensures y in r {
      FilterKeeps(p, xs, y);
      FilterKeeps(q, r1, y);
    }
    forall i | 0 <= i < |r| ensures p(r[i]) {
      assert r[i] in r1;
    }
  }

  /** Four filters in a row, as the library's query applies them. */
  lemma FilterFour<T>(p1: T -> bool, p2: T -> bool, p3: T -> bool, p4: T -> bool, xs: seq<T>)
    ensures var r := Filter(p4, Filter(p3, Filter(p2, Filter(p1, xs))));
      && multiset(r) <= multiset(xs)
      && IsSubsequence(r, xs)
      && (forall y :: y in r ==> p1(y) && p2(y) && p3(y) && p4(y))
      && (forall y :: y in xs && p1(y) && p2(y) && p3(y) && p4(y) ==> y in r)
      && (forall y :: multiset(r)[y] == if p1(y) && p2(y) && p3(y) && p4(y) then multiset(xs)[y] else 0)
  {
    var r2 := Filter(p2, Filter(p1, xs));
    var r := Filter(p4, Filter(p3, r2));
    FilterTwice(p1, p2, xs);
    FilterTwice(p3, p4, r2);
    SubsequenceTransitive(r, r2, xs);
    forall y | y in r ensures p1(y) && p2(y) && p3(y) && p4(y) {
      var i :| 0 <= i < |r| && r[i] == y;
      assert r[i] in r2;
    }
  }

  lemma SameMultisetSameElements<T>(a: seq<T>, b: seq<T>)
    requires multiset(a) == multiset(b)
    ensures forall y :: y in a <==> y in b
  {
    forall y ensures y in a <==> y in b {
      assert y in a <==> y in multiset(a);
      assert y in b <==> y in multiset(b);
    }
  }

  /** Filtering again with the same test changes nothing. */
  lemma FilterIdempotent<T>(p: T -> bool, xs: seq<T>)
    ensures Filter(p, Filter(p, xs)) == Filter(p, xs)
  {
    var once := Filter(p, xs);
    assert forall i :: 0 <= i < |once| ==> p(once[i]);
  }

  /** Filtering distributes over concatenation. */
  lemma {:induction false} FilterAppend<T>(p: T -> bool, xs: seq<T>, ys: seq<T>)
    ensures Filter(p, xs + ys) == Filter(p, xs) + Filter(p, ys)
  {
    if |xs| > 0 {
      assert (xs + ys)[1..] == xs[1..] + ys;
      FilterAppend(p, xs[1..], ys);
    } else {
      assert xs + ys == ys;
    }
  }

  /** `a` is `b` with some elements left out, the rest kept in their order. */
  predicate IsSubsequence<T(==)>(a: seq<T>, b: seq<T>)
    decreases |b|
  {
    if |a| == 0 then true
    else if |b| == 0 then false
    else if a[0] == b[0] then IsSubsequence(a[1..], b[1..])
    else IsSubsequence(a, b[1..])
  }

  /** Filtering a list whose elements all pass, plus one appended element that fails, drops just that element. */
  lemma FilterDropsAppended<T>(p: T -> bool, xs: seq<T>, x: T)
    requires forall k :: 0 <= k < |xs| ==> p(xs[k])
    requires !p(x)
    ensures Filter(p, xs + [x]) == xs
  {
    FilterAppend(p, xs, [x]);
    assert Filter(p, [x]) == [] by {
      assert [x][1..] == [];
    }
  }

  /** Every element of a subsequence is an element of the whole. */
  lemma {:induction false} SubsequenceMembers<T>(a: seq<T>, b: seq<T>)
    requires IsSubsequence(a, b)
    ensures forall t :: t in a ==> t in b
    decreases |b|
  {
    if |a| > 0 && |b| > 0 {
      if a[0] == b[0] {
        SubsequenceMembers(a[1..], b[1..]);
        assert forall t :: t in a ==> t == a[0] || t in a[1..];
      } else {
        SubsequenceMembers(a, b[1..]);
      }
    }
  }

  /** A filter keeps the surviving elements in their original order. */
  lemma {:induction false} FilterIsSubsequence<T>(p: T -> bool, xs: seq<T>)
    ensures IsSubsequence(Filter(p, xs), xs)
  {
    if |xs| > 0 {
      FilterIsSubsequence(p, xs[1..]);
    }
  }

  /** A subsequence of the tail of `b` is a subsequence of `b`. */
  lemma {:induction false} SubsequenceOfTail<T>(a: seq<T>, b: seq<T>)
    requires |b| > 0 && IsSubsequence(a, b[1..])
    ensures IsSubsequence(a, b)
    decreases |b|, 0
  {
    if |a| > 0 && a[0] == b[0] {
      SubsequenceDropHead(a, b[1..]);
    }
  }

  /** Dropping the first element of a subsequence leaves a subsequence. */
  lemma {:induction false} SubsequenceDropHead<T>(a: seq<T>, b: seq<T>)
    requires |a| > 0 && IsSubsequence(a, b)
    ensures IsSubsequence(a[1..], b)
    decreases |b|, 1
  {
    if a[0] == b[0] {
      SubsequenceOfTail(a[1..], b);
    } else {
      SubsequenceDropHead(a, b[1..]);
      SubsequenceOfTail(a[1..], b);
    }
  }

  lemma {:induction false} SubsequenceTransitive<T>(a: seq<T>, b: seq<T>, c: seq<T>)
    requires IsSubsequence(a, b) && IsSubsequence(b, c)
    ensures IsSubsequence(a, c)
    decreases |c|
  {
    if |a| > 0 {
      if b[0] == c[0] {
        if a[0] == b[0] {
          SubsequenceTransitive(a[1..], b[1..], c[1..]);
        } else {
          SubsequenceTransitive(a, b[1..], c[1..]);
        }
      } else {
        SubsequenceTransitive(a, b, c[1..]);
        SubsequenceOfTail(a, c);
      }
    }
  }

  /** `xs.filter(y => y !== x)`: every occurrence of `x` removed. */
  function RemoveAll<T(==)>(xs: seq<T>, x: T): (r: seq<T>)
    ensures x !in r
    ensures forall i :: 0 <= i < |r| ==> r[i] in xs
    ensures forall i :: 0 <= i < |xs| && xs[i] != x ==> xs[i] in r
    ensures x !in xs ==> r == xs
    ensures |r| < |xs| <==> x in xs
    ensures IsSubsequence(r, xs)
    ensures multiset(r) == multiset(xs)[x := 0]
  {
    FilterIsSubsequence(Unequal(x), xs);
    FilterCounts(Unequal(x), xs);
    Filter(Unequal(x), xs)
  }

  function Unequal<T(==)>(x: T): T -> bool {
    y => y != x
  }

  /** `xs.includes(x) ? xs.filter(y => y !== x) : [...xs, x]`. */
  function Toggle<T(==)>(xs: seq<T>, x: T): seq<T> {
    if x in xs then RemoveAll(xs, x) else xs + [x]
  }

  /** The toggle flips membership of `x` and of nothing else. */
  lemma ToggleFlipsMembership<T>(xs: seq<T>, x: T)
    ensures x in Toggle(xs, x) <==> x !in xs
    ensures forall y :: y != x ==> (y in Toggle(xs, x) <==> y in xs)
    ensures x !in xs ==> Toggle(xs, x) == xs + [x]
  {
  }

  /** Toggling an absent value twice gives back the original list. */
  lemma {:induction false} ToggleTwiceRestores<T>(xs: seq<T>, x: T)
    requires x !in xs
    ensures Toggle(Toggle(xs, x), x) == xs
  {
    assert x in xs + [x];
    FilterAppend(Unequal(x), xs, [x]);
  }

  /** A checkbox's `onChange`: checking appends `x`, unchecking removes every occurrence. */
  function SetChecked<T(==)>(xs: seq<T>, x: T, checked: bool): (r: seq<T>)
    ensures checked ==> |r| == |xs| + 1 && r[..|xs|] == xs && r[|xs|] == x
    ensures !checked ==> x !in r
    ensures !checked ==> forall i :: 0 <= i < |xs| && xs[i] != x ==> xs[i] in r
    ensures !checked ==> IsSubsequence(r, xs)
    ensures !checked ==> multiset(r) == multiset(xs)[x := 0]
  {
    if checked then xs + [x] else RemoveAll(xs, x)
  }

  /** Checking an unchecked box and unchecking it again gives back the original list. */
  lemma CheckThenUncheck<T>(xs: seq<T>, x: T)
    requires x !in xs
    ensures SetChecked(SetChecked(xs, x, true), x, false) == xs
  {
    ToggleTwiceRestores(xs, x);
  }

  /** `xs.map(y => sel(y) ? f(y) : y)`. */
  function UpdateWhere<T>(xs: seq<T>, sel: T -> bool, f: T -> T): (r: seq<T>)
    ensures |r| == |xs|
    ensures forall i :: 0 <= i < |xs| ==> r[i] == (if sel(xs[i]) then f(xs[i]) else xs[i])
  {
    seq(|xs|, i requires 0 <= i < |xs| => if sel(xs[i]) then f(xs[i]) else xs[i])
  }

  /** `xs.find(p)`: the first element that passes `p`, if there is one. */
  function Find<T(==)>(xs: seq<T>, p: T -> bool): (r: Option<T>)
    ensures r.Some? ==> r.value in xs && p(r.value)
    ensures r.Some? ==> exists k :: 0 <= k < |xs| && xs[k] == r.value && forall j :: 0 <= j < k ==> !p(xs[j])
    ensures r.None? <==> forall k :: 0 <= k < |xs| ==> !p(xs[k])
  {
    if |xs| == 0 then None
    else if p(xs[0]) then Some(xs[0])
    else
      var r := Find(xs[1..], p);
      if r.Some? then
        var k :| 0 <= k < |xs[1..]| && xs[1..][k] == r.value && forall j :: 0 <= j < k ==> !p(xs[1..][j]);
        assert xs[k + 1] == r.value;
        r
      else r
  }

  /** An element that passes, with none passing before it, is what the search returns. */
  lemma {:induction false} FindFirst<T>(xs: seq<T>, p: T -> bool, k: nat)
    requires k < |xs| && p(xs[k])
    requires forall j :: 0 <= j < k ==> !p(xs[j])
    ensures Find(xs, p) == Some(xs[k])
  {
    if k > 0 {
      assert !p(xs[0]);
      FindFirst(xs[1..], p, k - 1);
    }
  }

  /** How many elements satisfy `p`: `xs.filter(p).length`. */
  function Count<T>(p: T -> bool, xs: seq<T>): (r: nat)
    ensures r <= |xs|
  {
    |Filter(p, xs)|
  }

  /** Counting one element at a time from the front. */
  lemma CountCons<T>(p: T -> bool, xs: seq<T>)
    requires |xs| > 0
    ensures Count(p, xs) == (if p(xs[0]) then 1 else 0) + Count(p, xs[1..])
  {
  }
}
