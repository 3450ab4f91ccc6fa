/** LINQ's `Where` over an in-memory or queried sequence. */
module Sequences {

  /** The elements of `s` that satisfy `p`, in their original order. */
  function Filter<T(!new)>(s: seq<T>, p: T -> bool): (r: seq<T>)
    ensures |r| <= |s|
    ensures forall x :: x in r <==> x in s && p(x)
  {
    if s == [] then []
    else
      assert s == [s[0]] + s[1..];
      if p(s[0]) then [s[0]] + Filter(s[1..], p) else Filter(s[1..], p)
  }

  /** The filter drops elements and never adds or repeats one. */
  lemma {:induction false} FilterSubMultiset<T(!new)>(s: seq<T>, p: T -> bool)
    ensures multiset(Filter(s, p)) <= multiset(s)
  {
    if s != [] {
      FilterSubMultiset(s[1..], p);
      FilterCons(s, p);
      assert s == [s[0]] + s[1..];
    }
  }

  /** Filtering distributes over concatenation. */
  lemma {:induction false} FilterAppend<T(!new)>(a: seq<T>, b: seq<T>, p: T -> bool)
    ensures Filter(a + b, p) == Filter(a, p) + Filter(b, p)
  {
    if a == [] {
      assert a + b == b;
    } else {
      assert (a + b)[0] == a[0] && (a + b)[1..] == a[1..] + b;
      FilterAppend(a[1..], b, p);
    }
  }

  /** `x` occurs in `s` at some position before an occurrence of `y`. */
  ghost predicate InOrder<T>(s: seq<T>, x: T, y: T)
  {
    exists a, b :: 0 <= a < b < |s| && s[a] == x && s[b] == y
  }

  lemma InOrderTail<T>(s: seq<T>, x: T, y: T)
    requires s != [] && InOrder(s[1..], x, y)
    ensures InOrder(s, x, y)
  {
    var a, b :| 0 <= a < b < |s[1..]| && s[1..][a] == x && s[1..][b] == y;
    assert s[a + 1] == x && s[b + 1] == y;
  }

  lemma InOrderHead<T>(s: seq<T>, y: T)
    requires s != [] && y in s[1..]
    ensures InOrder(s, s[0], y)
  {
    var b :| 0 <= b < |s[1..]| && s[1..][b] == y;
    assert s[b + 1] == y;
  }

  /**
   * The kept elements stay in their original order: of two elements of the
   * result, the earlier one comes from an earlier position of `s`.
   */
  lemma {:induction false} FilterKeepsOrder<T(!new)>(s: seq<T>, p: T -> bool, i: nat, j: nat)
    requires i < j < |Filter(s, p)|
    ensures InOrder(s, Filter(s, p)[i], Filter(s, p)[j])
    decreases |s|
  {
    var r, t := Filter(s, p), s[1..];
    FilterCons(s, p);
    if !p(s[0]) {
      FilterKeepsOrder(t, p, i, j);
      InOrderTail(s, r[i], r[j]);
    } else if i == 0 {
      assert r[j] == Filter(t, p)[j - 1] && r[j] in t;
      InOrderHead(s, r[j]);
    } else {
      assert r[i] == Filter(t, p)[i - 1] && r[j] == Filter(t, p)[j - 1];
      FilterKeepsOrder(t, p, i - 1, j - 1);
      InOrderTail(s, r[i], r[j]);
    }
  }

  /** One step of the filter: the head, when kept, then the filtered tail. */
  lemma FilterCons<T(!new)>(s: seq<T>, p: T -> bool)
    requires s != []
    ensures Filter(s, p) == (if p(s[0]) then [s[0]] else []) + Filter(s[1..], p)
  {
  }

  /** When every element satisfies `p`, filtering changes nothing. */
  lemma {:induction false} FilterAll<T(!new)>(s: seq<T>, p: T -> bool)
    requires forall i :: 0 <= i < |s| ==> p(s[i])
    ensures Filter(s, p) == s
  {
    if s != [] {
      FilterAll(s[1..], p);
    }
  }

  /** Filtering depends only on which elements the predicate accepts. */
  lemma {:induction false} FilterSamePredicate<T(!new)>(s: seq<T>, p: T -> bool, p2: T -> bool)
    requires forall x :: p(x) == p2(x)
    ensures Filter(s, p) == Filter(s, p2)
  {
    if s != [] {
      FilterSamePredicate(s[1..], p, p2);
    }
  }

  /** Filtering twice is filtering once by both predicates. */
  lemma {:induction false} FilterTwice<T(!new)>(s: seq<T>, p: T -> bool, p2: T -> bool, both: T -> bool)
    requires forall x :: both(x) == (p(x) && p2(x))
    ensures Filter(Filter(s, p), p2) == Filter(s, both)
  {
    if s != [] {
      FilterTwice(s[1..], p, p2, both);
    }
  }

  /** Exactly one position of `s` satisfies `p`. */
  ghost predicate ExactlyOne<T>(s: seq<T>, p: T -> bool)
  {
    exists i :: 0 <= i < |s| && p(s[i]) && forall j :: 0 <= j < |s| && p(s[j]) ==> j == i
  }

  lemma FilterNone<T(!new)>(s: seq<T>, p: T -> bool)
    ensures Filter(s, p) == [] <==> forall j :: 0 <= j < |s| ==> !p(s[j])
  {
    if Filter(s, p) != [] {
      assert Filter(s, p)[0] in Filter(s, p);
    }
  }

  lemma ExactlyOneAtHead<T>(s: seq<T>, p: T -> bool)
    requires s != [] && p(s[0])
    ensures ExactlyOne(s, p) <==> forall j :: 0 < j < |s| ==> !p(s[j])
  {
  }

  lemma ExactlyOneInTail<T>(s: seq<T>, p: T -> bool)
    requires s != [] && !p(s[0])
    ensures ExactlyOne(s, p) <==> ExactlyOne(s[1..], p)
  {
    var t := s[1..];
    if ExactlyOne(s, p) {
      var i :| 0 <= i < |s| && p(s[i]) && forall j :: 0 <= j < |s| && p(s[j]) ==> j == i;
      assert p(t[i - 1]);
      forall j | 0 <= j < |t| && p(t[j]) ensures j == i - 1 {
        assert s[j + 1] == t[j];
      }
    }
    if ExactlyOne(t, p) {
      var i :| 0 <= i < |t| && p(t[i]) && forall j :: 0 <= j < |t| && p(t[j]) ==> j == i;
      assert p(s[i + 1]);
      forall j | 0 <= j < |s| && p(s[j]) ensures j == i + 1 {
        assert t[j - 1] == s[j];
      }
    }
  }

  /** The filter keeps exactly one element iff exactly one position satisfies `p`. */
  lemma {:induction false} FilterSingleton<T(!new)>(s: seq<T>, p: T -> bool)
    ensures |Filter(s, p)| == 1 <==> ExactlyOne(s, p)
  {
    if s != [] {
      var t := s[1..];
      if p(s[0]) {
        FilterNone(t, p);
        ExactlyOneAtHead(s, p);
        assert forall j :: 0 < j < |s| ==> s[j] == t[j - 1];
      } else {
        FilterSingleton(t, p);
        ExactlyOneInTail(s, p);
      }
    }
  }
}
