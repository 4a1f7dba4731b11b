/** Insertion sort stands for Go's sort package; what matters is that the result is unique. */
module Sorting {
  import opened Base
  import Text

  ghost predicate TotalPreorder<T(!new)>(le: (T, T) -> bool) {
    && (forall a, b :: le(a, b) || le(b, a))
    && (forall a, b, c :: le(a, b) && le(b, c) ==> le(a, c))
  }

  ghost predicate TotalOrder<T(!new)>(le: (T, T) -> bool) {
    TotalPreorder(le) && forall a, b :: le(a, b) && le(b, a) ==> a == b
  }

  ghost predicate Ascending<T>(le: (T, T) -> bool, s: seq<T>) {
    forall i, j :: 0 <= i < j < |s| ==> le(s[i], s[j])
  }

  function Insert<T>(le: (T, T) -> bool, x: T, s: seq<T>): seq<T> {
    if s == [] || le(x, s[0]) then [x] + s else [s[0]] + Insert(le, x, s[1..])
  }

  /** A stable insertion sort. */
  function Sort<T>(le: (T, T) -> bool, s: seq<T>): seq<T> {
    if s == [] then [] else Insert(le, s[0], Sort(le, s[1..]))
  }

  lemma {:induction false} InsertContents<T>(le: (T, T) -> bool, x: T, s: seq<T>)
    ensures multiset(Insert(le, x, s)) == multiset(s) + multiset{x}
  {
    if s != [] && !le(x, s[0]) {
      InsertContents(le, x, s[1..]);
      assert s == [s[0]] + s[1..];
    }
  }

  lemma {:induction false} SortContents<T>(le: (T, T) -> bool, s: seq<T>)
    ensures multiset(Sort(le, s)) == multiset(s)
  {
    if s == [] {
    } else {
      SortContents(le, s[1..]);
      InsertContents(le, s[0], Sort(le, s[1..]));
      assert s == [s[0]] + s[1..];
    }
  }

  lemma SameElements<T>(a: seq<T>, b: seq<T>)
    requires multiset(a) == multiset(b)
    ensures |a| == |b| && forall x :: x in a <==> x in b
  {
    assert |a| == |multiset(a)| && |b| == |multiset(b)|;
    forall x
      ensures x in a <==> x in b
    {
      assert x in a <==> x in multiset(a);
      assert x in b <==> x in multiset(b);
    }
  }

  lemma {:induction false} InsertAscends<T(!new)>(le: (T, T) -> bool, x: T, s: seq<T>)
    requires TotalPreorder(le) && Ascending(le, s)
    ensures Ascending(le, Insert(le, x, s))
  {
    if s != [] && !le(x, s[0]) {
      InsertAscends(le, x, s[1..]);
      InsertContents(le, x, s[1..]);
      SameElements(Insert(le, x, s[1..]), s[1..] + [x]);
      var r := Insert(le, x, s);
      forall i, j | 0 <= i < j < |r|
        ensures le(r[i], r[j])
      {
        if i == 0 {
          assert r[j] in Insert(le, x, s[1..]);
          assert r[j] in s[1..] + [x];
        }
      }
    } else if s != [] {
      var r := [x] + s;
      forall i, j | 0 <= i < j < |r|
        ensures le(r[i], r[j])
      {
        if i == 0 {
          assert le(x, s[0]) && (j - 1 > 0 ==> le(s[0], s[j - 1]));
        }
      }
    }
  }

  lemma {:induction false} SortAscends<T(!new)>(le: (T, T) -> bool, s: seq<T>)
    requires TotalPreorder(le)
    ensures Ascending(le, Sort(le, s))
  {
    if s == [] {
    } else {
      SortAscends(le, s[1..]);
      InsertAscends(le, s[0], Sort(le, s[1..]));
    }
  }

  lemma LeastFirst<T(!new)>(le: (T, T) -> bool, s: seq<T>, x: T)
    requires TotalOrder(le) && Ascending(le, s) && x in s
    ensures le(s[0], x)
  {
    var i :| 0 <= i < |s| && s[i] == x;
    assert le(x, x) || le(x, x);
  }

  lemma WithoutFirst<T>(s: seq<T>)
    requires s != []
    ensures multiset(s[1..]) == multiset(s) - multiset{s[0]}
  {
    assert s == [s[0]] + s[1..];
  }

  /** Two ascending listings of the same things are the same. */
  lemma {:induction false} SortedUnique<T(!new)>(le: (T, T) -> bool, a: seq<T>, b: seq<T>)
    requires TotalOrder(le) && Ascending(le, a) && Ascending(le, b) && multiset(a) == multiset(b)
    ensures a == b
  {
    SameElements(a, b);
    if a == [] {
    } else {
      LeastFirst(le, a, b[0]);
      LeastFirst(le, b, a[0]);
      WithoutFirst(a);
      WithoutFirst(b);
      SortedUnique(le, a[1..], b[1..]);
      assert a == [a[0]] + a[1..] && b == [b[0]] + b[1..];
    }
  }

  lemma {:induction false} ListingExists<T(!new)>(le: (T, T) -> bool, s: set<T>)
    requires TotalOrder(le)
    ensures exists r :: Ascending(le, r) && multiset(r) == multiset(s)
    decreases |s|
  {
    if s == {} {
      assert multiset([]) == multiset(s) && Ascending(le, []);
    } else {
      var x :| x in s;
      ListingExists(le, s - {x});
      var r :| Ascending(le, r) && multiset(r) == multiset(s - {x});
      InsertContents(le, x, r);
      InsertAscends(le, x, r);
      assert multiset(s) == multiset(s - {x}) + multiset{x};
      assert Ascending(le, Insert(le, x, r)) && multiset(Insert(le, x, r)) == multiset(s);
    }
  }

  /** The elements of a set in ascending order. */
  ghost function Listing<T(!new)>(le: (T, T) -> bool, s: set<T>): (r: seq<T>)
    requires TotalOrder(le)
    ensures Ascending(le, r) && multiset(r) == multiset(s)
  {
    ListingExists(le, s);
    var r :| Ascending(le, r) && multiset(r) == multiset(s);
    r
  }

  lemma ListingOf<T(!new)>(le: (T, T) -> bool, s: set<T>)
    requires TotalOrder(le)
    ensures |Listing(le, s)| == |s| && NoRepeats(Listing(le, s)) && forall x :: x in Listing(le, s) <==> x in s
  {
    RangeOnce(Listing(le, s), s);
  }

  lemma Twice<T>(s: seq<T>, i: nat, j: nat)
    requires i < j < |s| && s[i] == s[j]
    ensures multiset(s)[s[i]] >= 2
  {
    assert s == s[..i] + [s[i]] + s[i + 1..j] + [s[j]] + s[j + 1..];
  }

  lemma {:induction false} AtMostOnce<T>(s: seq<T>, x: T)
    requires NoRepeats(s)
    ensures multiset(s)[x] <= 1
  {
    if s == [] {
    } else {
      AtMostOnce(s[1..], x);
      assert s == [s[0]] + s[1..];
      assert s[0] !in s[1..];
    }
  }

  /** A rearrangement of a sequence without repeats has none. */
  lemma SameRepeats<T>(a: seq<T>, b: seq<T>)
    requires NoRepeats(a) && multiset(a) == multiset(b)
    ensures NoRepeats(b)
  {
    forall i, j | 0 <= i < j < |b|
      ensures b[i] != b[j]
    {
      AtMostOnce(a, b[i]);
      if b[i] == b[j] {
        Twice(b, i, j);
      }
    }
  }

  /** Sorting what came out of a set in any order gives its listing. */
  lemma SortIsListing<T(!new)>(le: (T, T) -> bool, order: seq<T>, s: set<T>)
    requires TotalOrder(le) && multiset(order) == multiset(s)
    ensures Sort(le, order) == Listing(le, s)
  {
    SortContents(le, order);
    SortAscends(le, order);
    SortedUnique(le, Sort(le, order), Listing(le, s));
  }

  /** A listing is the only ascending sequence of a set's elements. */
  lemma OnlyListing<T(!new)>(le: (T, T) -> bool, r: seq<T>, s: set<T>)
    requires TotalOrder(le) && Ascending(le, r) && NoRepeats(r) && (forall x :: x in r <==> x in s)
    ensures r == Listing(le, s)
  {
    forall x
      ensures multiset(r)[x] == multiset(s)[x]
    {
      AtMostOnce(r, x);
      assert x in r <==> x in multiset(r);
    }
    assert multiset(r) == multiset(s);
    SortedUnique(le, r, Listing(le, s));
  }

  /** Ranging over a set gives each element once. */
  lemma RangeOnce<T>(out: seq<T>, s: set<T>)
    requires multiset(out) == multiset(s)
    ensures NoRepeats(out) && |out| == |s| && forall x :: x in out <==> x in s
  {
    assert |out| == |multiset(out)| == |multiset(s)|;
    forall x
      ensures x in out <==> x in s
    {
      assert x in out <==> x in multiset(out);
    }
    forall i, j | 0 <= i < j < |out|
      ensures out[i] != out[j]
    {
      assert multiset(s)[out[i]] <= 1;
      if out[i] == out[j] {
        Twice(out, i, j);
      }
    }
  }

  /** The elements of a set, in whatever order ranging over it gives them. */
  method Range<T>(s: set<T>) returns (out: seq<T>)
    ensures multiset(out) == multiset(s)
  {
    out := [];
    var rest := s;
    while rest != {}
      invariant rest <= s && multiset(out) == multiset(s - rest)
    {
      var x :| x in rest;
      assert s - (rest - {x}) == (s - rest) + {x};
      out := out + [x];
      rest := rest - {x};
    }
    assert s - {} == s;
  }

  predicate IntLe(a: int, b: int) {
    a <= b
  }

  lemma IntOrder()
    ensures TotalOrder(IntLe)
  {
  }

  lemma StringOrder()
    ensures TotalOrder(Text.StringLe)
  {
    forall a, b
      ensures Text.StringLe(a, b) || Text.StringLe(b, a)
      ensures Text.StringLe(a, b) && Text.StringLe(b, a) ==> a == b
    {
      Text.StringLeTotal(a, b);
    }
    forall a, b, c | Text.StringLe(a, b) && Text.StringLe(b, c)
      ensures Text.StringLe(a, c)
    {
      Text.StringLeTransitive(a, b, c);
    }
  }
}
