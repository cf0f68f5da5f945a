// Python's `sorted` on a list of floats or of texts, as the sweeps and the
// unique-value listings use it.

module Sorting {

  /** Non-decreasing order. */
  predicate Sorted(xs: seq<real>)
  {
    forall i, j :: 0 <= i < j < |xs| ==> xs[i] <= xs[j]
  }

  /** Inserts `x` before the first element not smaller than it. */
  function Insert(x: real, xs: seq<real>): (r: seq<real>)
    ensures |r| == |xs| + 1
  {
    if |xs| == 0 || x <= xs[0] then [x] + xs else [xs[0]] + Insert(x, xs[1..])
  }

  /** `sorted(xs)` */
  function Sort(xs: seq<real>): (r: seq<real>)
    ensures |r| == |xs|
  {
    if |xs| == 0 then [] else Insert(xs[0], Sort(xs[1..]))
  }

  /** Every element of `xs` is at least `b`. */
  predicate AtLeast(b: real, xs: seq<real>)
  {
    forall i :: 0 <= i < |xs| ==> b <= xs[i]
  }

  lemma SortedCons(h: real, t: seq<real>)
    ensures Sorted([h] + t) <==> AtLeast(h, t) && Sorted(t)
  {
    if AtLeast(h, t) && Sorted(t) {
      forall i, j | 0 <= i < j < |[h] + t|
        ensures ([h] + t)[i] <= ([h] + t)[j]
      {
        assert ([h] + t)[j] == t[j - 1];
        if i == 0 {
          assert ([h] + t)[i] == h && h <= t[j - 1];
        } else {
          assert ([h] + t)[i] == t[i - 1] && t[i - 1] <= t[j - 1];
        }
      }
    }
    if Sorted([h] + t) {
      forall i | 0 <= i < |t|
        ensures h <= t[i]
      {
        assert ([h] + t)[0] == h && ([h] + t)[i + 1] == t[i];
      }
      forall i, j | 0 <= i < j < |t|
        ensures t[i] <= t[j]
      {
        assert ([h] + t)[i + 1] == t[i];
        assert ([h] + t)[j + 1] == t[j];
      }
    }
  }

  /** Inserting a value no smaller than a bound keeps the bound. */
  lemma {:induction false} InsertAtLeast(b: real, x: real, xs: seq<real>)
    requires AtLeast(b, xs) && b <= x
    ensures AtLeast(b, Insert(x, xs))
  {
    if |xs| > 0 && x > xs[0] {
      InsertAtLeast(b, x, xs[1..]);
    }
  }

  lemma {:induction false} InsertSorted(x: real, xs: seq<real>)
    requires Sorted(xs)
    ensures Sorted(Insert(x, xs))
  {
    if |xs| == 0 || x <= xs[0] {
      if |xs| > 0 {
        assert xs == [xs[0]] + xs[1..];
        SortedCons(xs[0], xs[1..]);
        assert AtLeast(x, xs);
      }
      SortedCons(x, xs);
    } else {
      assert xs == [xs[0]] + xs[1..];
      SortedCons(xs[0], xs[1..]);
      InsertSorted(x, xs[1..]);
      InsertAtLeast(xs[0], x, xs[1..]);
      SortedCons(xs[0], Insert(x, xs[1..]));
    }
  }

  lemma {:induction false} InsertPerm(x: real, xs: seq<real>)
    ensures multiset(Insert(x, xs)) == multiset(xs) + multiset{x}
  {
    if |xs| > 0 && x > xs[0] {
      InsertPerm(x, xs[1..]);
      assert xs == [xs[0]] + xs[1..];
    }
  }

  /** `sorted` returns the same values, in non-decreasing order. */
  lemma {:induction false} SortSpec(xs: seq<real>)
    ensures Sorted(Sort(xs))
    ensures multiset(Sort(xs)) == multiset(xs)
  {
    if |xs| > 0 {
      SortSpec(xs[1..]);
      InsertSorted(xs[0], Sort(xs[1..]));
      InsertPerm(xs[0], Sort(xs[1..]));
      assert xs == [xs[0]] + xs[1..];
    }
  }

  /** A list that is already sorted comes back unchanged. */
  lemma {:induction false} SortSorted(xs: seq<real>)
    requires Sorted(xs)
    ensures Sort(xs) == xs
  {
    if |xs| > 0 {
      SortSorted(xs[1..]);
      assert xs == [xs[0]] + xs[1..];
    }
  }

  /** Two sorted lists with the same elements are equal. */
  lemma {:induction false} SortedUnique(x: seq<real>, y: seq<real>)
    requires Sorted(x) && Sorted(y) && multiset(x) == multiset(y)
    ensures x == y
    decreases |x|
  {
    assert |y| == |multiset(y)| == |multiset(x)| == |x|;
    if |x| > 0 {
      HeadIsLeast(x, y[0]);
      HeadIsLeast(y, x[0]);
      MultisetCons(x);
      MultisetCons(y);
      SortedTail(x);
      SortedTail(y);
      SortedUnique(x[1..], y[1..]);
      SameHeadTail(x, y);
    }
  }

  lemma MultisetCons(x: seq<real>)
    requires |x| > 0
    ensures multiset(x) == multiset{x[0]} + multiset(x[1..])
    ensures multiset(x[1..]) == multiset(x) - multiset{x[0]}
  {
    assert x == [x[0]] + x[1..];
  }

  lemma SortedTail(x: seq<real>)
    requires Sorted(x) && |x| > 0
    ensures Sorted(x[1..])
  {
  }

  lemma SameHeadTail(x: seq<real>, y: seq<real>)
    requires |x| > 0 && |y| > 0 && x[0] == y[0] && x[1..] == y[1..]
    ensures x == y
  {
    assert x == [x[0]] + x[1..] && y == [y[0]] + y[1..];
  }

  /** The head of a sorted list is its least element. */
  lemma HeadIsLeast(x: seq<real>, v: real)
    requires Sorted(x) && v in multiset(x)
    ensures x[0] <= v
  {
    assert v in x;
  }

  // ---------------------------------------------------------------- texts

  /** Python's order on `str`: code point by code point, a proper prefix
      first. */
  predicate TextLe(a: string, b: string)
    decreases |a|
  {
    |a| == 0 || (|b| > 0 && (a[0] < b[0] || (a[0] == b[0] && TextLe(a[1..], b[1..]))))
  }

  lemma {:induction false} TextLeTotal(a: string, b: string)
    ensures TextLe(a, b) || TextLe(b, a)
    decreases |a|
  {
    if |a| > 0 && |b| > 0 && a[0] == b[0] {
      TextLeTotal(a[1..], b[1..]);
    }
  }

  lemma {:induction false} TextLeTrans(a: string, b: string, c: string)
    requires TextLe(a, b) && TextLe(b, c)
    ensures TextLe(a, c)
    decreases |a|
  {
    if |a| > 0 && a[0] == b[0] && b[0] == c[0] {
      TextLeTrans(a[1..], b[1..], c[1..]);
    }
  }

  lemma {:induction false} TextLeAntisym(a: string, b: string)
    requires TextLe(a, b) && TextLe(b, a)
    ensures a == b
    decreases |a|
  {
    if |a| > 0 {
      TextLeAntisym(a[1..], b[1..]);
      assert a == [a[0]] + a[1..] && b == [b[0]] + b[1..];
    }
  }

  predicate TextsSorted(xs: seq<string>)
  {
    forall i, j :: 0 <= i < j < |xs| ==> TextLe(xs[i], xs[j])
  }

  function InsertText(x: string, xs: seq<string>): (r: seq<string>)
    ensures |r| == |xs| + 1
  {
    if |xs| == 0 || TextLe(x, xs[0]) then [x] + xs else [xs[0]] + InsertText(x, xs[1..])
  }

  /** `sorted(xs)` on a list of texts. */
  function SortTexts(xs: seq<string>): (r: seq<string>)
    ensures |r| == |xs|
  {
    if |xs| == 0 then [] else InsertText(xs[0], SortTexts(xs[1..]))
  }

  predicate TextsAtLeast(b: string, xs: seq<string>)
  {
    forall i :: 0 <= i < |xs| ==> TextLe(b, xs[i])
  }

  lemma TextsSortedCons(h: string, t: seq<string>)
    ensures TextsSorted([h] + t) <==> TextsAtLeast(h, t) && TextsSorted(t)
  {
    if TextsAtLeast(h, t) && TextsSorted(t) {
      forall i, j | 0 <= i < j < |[h] + t|
        ensures TextLe(([h] + t)[i], ([h] + t)[j])
      {
        assert ([h] + t)[j] == t[j - 1];
        if i > 0 {
          assert ([h] + t)[i] == t[i - 1];
        }
      }
    }
    if TextsSorted([h] + t) {
      forall i | 0 <= i < |t|
        ensures TextLe(h, t[i])
      {
        assert ([h] + t)[0] == h && ([h] + t)[i + 1] == t[i];
      }
      forall i, j | 0 <= i < j < |t|
        ensures TextLe(t[i], t[j])
      {
        assert ([h] + t)[i + 1] == t[i] && ([h] + t)[j + 1] == t[j];
      }
    }
  }

  lemma {:induction false} InsertTextAtLeast(b: string, x: string, xs: seq<string>)
    requires TextsAtLeast(b, xs) && TextLe(b, x)
    ensures TextsAtLeast(b, InsertText(x, xs))
  {
    if |xs| > 0 && !TextLe(x, xs[0]) {
      InsertTextAtLeast(b, x, xs[1..]);
    }
  }

  lemma {:induction false} InsertTextSorted(x: string, xs: seq<string>)
    requires TextsSorted(xs)
    ensures TextsSorted(InsertText(x, xs))
  {
    if |xs| == 0 || TextLe(x, xs[0]) {
      if |xs| > 0 {
        forall i | 0 <= i < |xs|
          ensures TextLe(x, xs[i])
        {
          if i > 0 {
            TextLeTrans(x, xs[0], xs[i]);
          }
        }
      }
      TextsSortedCons(x, xs);
    } else {
      assert xs == [xs[0]] + xs[1..];
      TextsSortedCons(xs[0], xs[1..]);
      InsertTextSorted(x, xs[1..]);
      TextLeTotal(x, xs[0]);
      InsertTextAtLeast(xs[0], x, xs[1..]);
      TextsSortedCons(xs[0], InsertText(x, xs[1..]));
    }
  }

  lemma {:induction false} InsertTextPerm(x: string, xs: seq<string>)
    ensures multiset(InsertText(x, xs)) == multiset(xs) + multiset{x}
  {
    if |xs| > 0 && !TextLe(x, xs[0]) {
      InsertTextPerm(x, xs[1..]);
      assert xs == [xs[0]] + xs[1..];
    }
  }

  /** `sorted` returns the same texts, in non-decreasing order. */
  lemma {:induction false} SortTextsSpec(xs: seq<string>)
    ensures TextsSorted(SortTexts(xs))
    ensures multiset(SortTexts(xs)) == multiset(xs)
  {
    if |xs| > 0 {
      SortTextsSpec(xs[1..]);
      InsertTextSorted(xs[0], SortTexts(xs[1..]));
      InsertTextPerm(xs[0], SortTexts(xs[1..]));
      assert xs == [xs[0]] + xs[1..];
    }
  }

  // ---------------------------------------------------------------- pairs

  /** Python's order on a pair of floats: by the first component, then by
      the second. */
  predicate PairLe(p: (real, real), q: (real, real))
  {
    p.0 < q.0 || (p.0 == q.0 && p.1 <= q.1)
  }

  predicate PairsSorted(ps: seq<(real, real)>)
  {
    forall i, j :: 0 <= i < j < |ps| ==> PairLe(ps[i], ps[j])
  }

  function InsertPair(p: (real, real), ps: seq<(real, real)>): (r: seq<(real, real)>)
    ensures |r| == |ps| + 1
  {
    if |ps| == 0 || PairLe(p, ps[0]) then [p] + ps else [ps[0]] + InsertPair(p, ps[1..])
  }

  /** `sorted(pairs)` */
  function SortPairs(ps: seq<(real, real)>): (r: seq<(real, real)>)
    ensures |r| == |ps|
  {
    if |ps| == 0 then [] else InsertPair(ps[0], SortPairs(ps[1..]))
  }

  /** Every pair of `ps` is at least `b`. */
  predicate PairsAtLeast(b: (real, real), ps: seq<(real, real)>)
  {
    forall i :: 0 <= i < |ps| ==> PairLe(b, ps[i])
  }

  lemma PairsSortedCons(h: (real, real), t: seq<(real, real)>)
    ensures PairsSorted([h] + t) <==> PairsAtLeast(h, t) && PairsSorted(t)
  {
    var s := [h] + t;
    if PairsAtLeast(h, t) && PairsSorted(t) {
      forall i, j | 0 <= i < j < |s|
        ensures PairLe(s[i], s[j])
      {
        assert s[j] == t[j - 1];
        if i > 0 {
          assert s[i] == t[i - 1];
        }
      }
    }
    if PairsSorted(s) {
      forall i | 0 <= i < |t|
        ensures PairLe(h, t[i])
      {
        assert s[0] == h && s[i + 1] == t[i];
      }
      forall i, j | 0 <= i < j < |t|
        ensures PairLe(t[i], t[j])
      {
        assert s[i + 1] == t[i] && s[j + 1] == t[j];
      }
    }
  }

  lemma {:induction false} InsertPairAtLeast(b: (real, real), p: (real, real), ps: seq<(real, real)>)
    requires PairsAtLeast(b, ps) && PairLe(b, p)
    ensures PairsAtLeast(b, InsertPair(p, ps))
  {
    if |ps| > 0 && !PairLe(p, ps[0]) {
      InsertPairAtLeast(b, p, ps[1..]);
    }
  }

  lemma {:induction false} InsertPairSorted(p: (real, real), ps: seq<(real, real)>)
    requires PairsSorted(ps)
    ensures PairsSorted(InsertPair(p, ps))
  {
    if |ps| == 0 || PairLe(p, ps[0]) {
      if |ps| > 0 {
        assert ps == [ps[0]] + ps[1..];
        PairsSortedCons(ps[0], ps[1..]);
        assert PairsAtLeast(p, ps);
      }
      PairsSortedCons(p, ps);
    } else {
      assert ps == [ps[0]] + ps[1..];
      PairsSortedCons(ps[0], ps[1..]);
      InsertPairSorted(p, ps[1..]);
      InsertPairAtLeast(ps[0], p, ps[1..]);
      PairsSortedCons(ps[0], InsertPair(p, ps[1..]));
    }
  }

  lemma {:induction false} InsertPairPerm(p: (real, real), ps: seq<(real, real)>)
    ensures multiset(InsertPair(p, ps)) == multiset(ps) + multiset{p}
  {
    if |ps| > 0 && !PairLe(p, ps[0]) {
      InsertPairPerm(p, ps[1..]);
      assert ps == [ps[0]] + ps[1..];
    }
  }

  /** `sorted` on pairs returns the same pairs, in Python's pair order. */
  lemma {:induction false} SortPairsSpec(ps: seq<(real, real)>)
    ensures PairsSorted(SortPairs(ps))
    ensures multiset(SortPairs(ps)) == multiset(ps)
  {
    if |ps| > 0 {
      SortPairsSpec(ps[1..]);
      InsertPairSorted(ps[0], SortPairs(ps[1..]));
      InsertPairPerm(ps[0], SortPairs(ps[1..]));
      assert ps == [ps[0]] + ps[1..];
    }
  }
}
