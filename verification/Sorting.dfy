/** Sorted lists of pairs of strings, compared as Python compares tuples of strings. */
module Sorting {
  import opened Seqs

  type Pair = (string, string)

  /** Code point order, a prefix first. */
  predicate StringUpTo(a: string, b: string) {
    a == [] || (b != [] && (a[0] < b[0] || (a[0] == b[0] && StringUpTo(a[1..], b[1..]))))
  }

  /** By the first, and between equal firsts by the second. */
  predicate UpTo(a: Pair, b: Pair) {
    if a.0 == b.0 then StringUpTo(a.1, b.1) else StringUpTo(a.0, b.0)
  }

  function Insert(x: Pair, s: seq<Pair>): (r: seq<Pair>)
    ensures multiset(r) == multiset(s) + multiset{x}
  {
    if s == [] then [x]
    else if UpTo(x, s[0]) then [x] + s
    else
      assert s == [s[0]] + s[1..];
      [s[0]] + Insert(x, s[1..])
  }

  /** `sorted(s)`. */
  function Sorted(s: seq<Pair>): (r: seq<Pair>)
    ensures multiset(r) == multiset(s)
  {
    if s == [] then []
    else
      assert s == [s[0]] + s[1..];
      Insert(s[0], Sorted(s[1..]))
  }

  predicate InOrder(s: seq<Pair>) {
    forall i, j :: 0 <= i < j < |s| ==> UpTo(s[i], s[j])
  }

  lemma {:induction false} StringTotal(a: string, b: string)
    ensures StringUpTo(a, b) || StringUpTo(b, a)
    ensures StringUpTo(a, b) && StringUpTo(b, a) ==> a == b
  {
    if a != [] && b != [] && a[0] == b[0] {
      StringTotal(a[1..], b[1..]);
      assert a == [a[0]] + a[1..] && b == [b[0]] + b[1..];
    }
  }

  lemma {:induction false} StringTransitive(a: string, b: string, c: string)
    requires StringUpTo(a, b) && StringUpTo(b, c)
    ensures StringUpTo(a, c)
  {
    if a != [] && a[0] == b[0] == c[0] {
      StringTransitive(a[1..], b[1..], c[1..]);
    }
  }

  lemma Total(a: Pair, b: Pair)
    ensures UpTo(a, b) || UpTo(b, a)
    ensures UpTo(a, b) && UpTo(b, a) ==> a == b
  {
    StringTotal(a.0, b.0);
    StringTotal(a.1, b.1);
  }

  lemma Transitive(a: Pair, b: Pair, c: Pair)
    requires UpTo(a, b) && UpTo(b, c)
    ensures UpTo(a, c)
  {
    if a.0 == b.0 == c.0 {
      StringTransitive(a.1, b.1, c.1);
    } else if a.0 == c.0 {
      StringTotal(a.0, b.0);
    } else if a.0 != b.0 && b.0 != c.0 {
      StringTransitive(a.0, b.0, c.0);
    }
  }

  /** The first place where the texts differ, and there `a` has the smaller character. */
  ghost predicate SmallerAt(a: string, b: string, i: nat) {
    i < |a| && i < |b| && a[..i] == b[..i] && a[i] < b[i]
  }

  lemma SmallerLater(a: string, b: string, i: nat)
    requires a != [] && b != [] && a[0] == b[0]
    ensures SmallerAt(a[1..], b[1..], i) <==> SmallerAt(a, b, i + 1)
  {
    if i < |a[1..]| && i < |b[1..]| {
      assert a[..i + 1] == [a[0]] + a[1..][..i] && b[..i + 1] == [b[0]] + b[1..][..i];
      assert a[1..][..i] == a[..i + 1][1..] && b[1..][..i] == b[..i + 1][1..];
    }
  }

  lemma SmallerAtOnce(a: string, b: string)
    requires a != [] && b != []
    ensures SmallerAt(a, b, 0) <==> a[0] < b[0]
    ensures forall i: nat :: i > 0 && SmallerAt(a, b, i) ==> a[0] == b[0]
  {
    forall i: nat | i > 0 && SmallerAt(a, b, i) ensures a[0] == b[0] {
      assert a[..i][0] == a[0] && b[..i][0] == b[0];
    }
  }

  /** Texts are compared at the first character in which they differ; a text comes before its continuations. */
  lemma {:induction false} StringUpToMeans(a: string, b: string)
    ensures StringUpTo(a, b) <==> a <= b || exists i: nat :: SmallerAt(a, b, i)
  {
    if a != [] && b != [] {
      SmallerAtOnce(a, b);
      if a[0] == b[0] {
        StringUpToMeans(a[1..], b[1..]);
        forall i: nat ensures SmallerAt(a[1..], b[1..], i) <==> SmallerAt(a, b, i + 1) {
          SmallerLater(a, b, i);
        }
        PrefixTail(a, b);
        LaterThanFirst(a, b);
      }
    }
  }

  lemma PrefixTail(a: string, b: string)
    requires a != [] && b != [] && a[0] == b[0]
    ensures a <= b <==> a[1..] <= b[1..]
  {
    assert a == [a[0]] + a[1..] && b == [b[0]] + b[1..];
  }

  lemma LaterThanFirst(a: string, b: string)
    requires a != [] && b != [] && a[0] == b[0]
    requires forall i: nat :: SmallerAt(a[1..], b[1..], i) <==> SmallerAt(a, b, i + 1)
    ensures (exists i: nat :: SmallerAt(a, b, i)) <==> exists i: nat :: SmallerAt(a[1..], b[1..], i)
  {
    if exists i: nat :: SmallerAt(a, b, i) {
      var i: nat :| SmallerAt(a, b, i);
      assert i > 0 && SmallerAt(a[1..], b[1..], i - 1);
    }
    if exists i: nat :: SmallerAt(a[1..], b[1..], i) {
      var i: nat :| SmallerAt(a[1..], b[1..], i);
      assert SmallerAt(a, b, i + 1);
    }
  }

  /** Pairs are compared by the first, and by the second only when the firsts are equal. */
  lemma PairsByFirst(a: Pair, b: Pair)
    ensures a.0 == b.0 ==> (UpTo(a, b) <==> StringUpTo(a.1, b.1))
    ensures a.0 != b.0 ==> (UpTo(a, b) <==> StringUpTo(a.0, b.0))
  {
  }

  lemma HeadFirst(s: seq<Pair>)
    requires s != [] && InOrder(s[1..]) && forall x :: x in s[1..] ==> UpTo(s[0], x)
    ensures InOrder(s)
  {
    var rest := s[1..];
    forall i, j | 0 <= i < j < |s| ensures UpTo(s[i], s[j]) {
      assert rest[j - 1] == s[j] && rest[j - 1] in rest;
      if i > 0 {
        assert rest[i - 1] == s[i];
      }
    }
  }

  lemma TailInOrder(s: seq<Pair>)
    requires s != [] && InOrder(s)
    ensures InOrder(s[1..]) && forall x :: x in s[1..] ==> UpTo(s[0], x)
  {
    var rest := s[1..];
    assert forall i :: 0 <= i < |rest| ==> rest[i] == s[i + 1];
  }

  lemma {:induction false} InsertInOrder(x: Pair, s: seq<Pair>)
    requires InOrder(s)
    ensures InOrder(Insert(x, s))
  {
    if s != [] {
      TailInOrder(s);
      var r := Insert(x, s);
      if UpTo(x, s[0]) {
        assert r[1..] == s;
        forall y | y in s ensures UpTo(x, y) {
          if y in s[1..] {
            Transitive(x, s[0], y);
          }
        }
      } else {
        InsertInOrder(x, s[1..]);
        Total(x, s[0]);
        assert r[1..] == Insert(x, s[1..]);
        forall y | y in r[1..] ensures UpTo(s[0], y) {
          assert y in multiset(r[1..]);
        }
      }
      HeadFirst(r);
    }
  }

  lemma {:induction false} SortedInOrder(s: seq<Pair>)
    ensures InOrder(Sorted(s))
  {
    if s != [] {
      SortedInOrder(s[1..]);
      InsertInOrder(s[0], Sorted(s[1..]));
    }
  }

  lemma FirstIsLeast(s: seq<Pair>, x: Pair)
    requires InOrder(s) && x in s
    ensures UpTo(s[0], x)
  {
    Total(x, x);
  }

  /** A list in order is determined by what it holds. */
  lemma {:induction false} OneOrder(a: seq<Pair>, b: seq<Pair>)
    requires InOrder(a) && InOrder(b) && multiset(a) == multiset(b)
    ensures a == b
  {
    if a == [] || b == [] {
      assert |multiset(a)| == |a| && |multiset(b)| == |b|;
    } else {
      SameHead(a, b);
      SameTails(a, b);
      OneOrder(a[1..], b[1..]);
      assert a == [a[0]] + a[1..] && b == [b[0]] + b[1..];
    }
  }

  lemma SameTails(a: seq<Pair>, b: seq<Pair>)
    requires InOrder(a) && InOrder(b) && multiset(a) == multiset(b) && a != [] && b != [] && a[0] == b[0]
    ensures InOrder(a[1..]) && InOrder(b[1..]) && multiset(a[1..]) == multiset(b[1..])
  {
    TailInOrder(a);
    TailInOrder(b);
    TailMultiset(a);
    TailMultiset(b);
  }

  lemma SameHead(a: seq<Pair>, b: seq<Pair>)
    requires InOrder(a) && InOrder(b) && multiset(a) == multiset(b) && a != [] && b != []
    ensures a[0] == b[0]
  {
    assert a[0] in multiset(b) && b[0] in multiset(a);
    FirstIsLeast(a, b[0]);
    FirstIsLeast(b, a[0]);
    Total(a[0], b[0]);
  }

  lemma TailMultiset(a: seq<Pair>)
    requires a != []
    ensures multiset(a[1..]) == multiset(a) - multiset{a[0]}
  {
    assert a == [a[0]] + a[1..];
  }

  /******* Sorting a set *******/

  /** The members of a set in order, each once. */
  ghost predicate ListsInOrder(list: seq<Pair>, members: set<Pair>) {
    InOrder(list) && NoDuplicates(list) && forall x :: x in list <==> x in members
  }

  lemma InsertedOnce(x: Pair, list: seq<Pair>, members: set<Pair>)
    requires ListsInOrder(list, members) && x !in members
    ensures ListsInOrder(Insert(x, list), members + {x})
  {
    InsertInOrder(x, list);
    var more := Insert(x, list);
    forall y ensures y in more <==> y in members + {x} {
      assert y in more <==> y in multiset(more);
      assert y in list <==> y in multiset(list);
    }
    NoDuplicatesIff(list);
    NoDuplicatesIff(more);
  }

  lemma NoDuplicatesIff(s: seq<Pair>)
    ensures NoDuplicates(s) <==> forall x :: x in multiset(s) ==> multiset(s)[x] == 1
    decreases |s|
  {
    if s != [] {
      var rest := s[1..];
      NoDuplicatesIff(rest);
      assert s == [s[0]] + rest;
      assert multiset(s) == multiset{s[0]} + multiset(rest);
      NoDuplicatesHead(s);
      if s[0] in rest {
        assert multiset(s)[s[0]] > 1;
      } else {
        assert forall x :: x in multiset(rest) ==> multiset(s)[x] == multiset(rest)[x];
      }
    }
  }

  /** There is only one such list. */
  lemma OneListing(a: seq<Pair>, b: seq<Pair>, members: set<Pair>)
    requires ListsInOrder(a, members) && ListsInOrder(b, members)
    ensures a == b
  {
    NoDuplicatesIff(a);
    NoDuplicatesIff(b);
    forall x ensures multiset(a)[x] == multiset(b)[x] {
      assert x in multiset(a) <==> x in a;
      assert x in multiset(b) <==> x in b;
    }
    assert multiset(a) == multiset(b);
    OneOrder(a, b);
  }

  /** `sorted(members)`. */
  method SortedMembers(members: set<Pair>) returns (list: seq<Pair>)
    ensures ListsInOrder(list, members)
  {
    list := [];
    var todo := members;
    while todo != {}
      invariant todo <= members && ListsInOrder(list, members - todo)
    {
      var x :| x in todo;
      InsertedOnce(x, list, members - todo);
      assert members - todo + {x} == members - (todo - {x});
      list, todo := Insert(x, list), todo - {x};
    }
    assert members - {} == members;
  }

  lemma {:induction false} ListingExists(members: set<Pair>) returns (list: seq<Pair>)
    ensures ListsInOrder(list, members)
    decreases |members|
  {
    if members == {} {
      list := [];
    } else {
      var x :| x in members;
      var rest := ListingExists(members - {x});
      InsertedOnce(x, rest, members - {x});
      assert members - {x} + {x} == members;
      list := Insert(x, rest);
    }
  }

  lemma AListing(members: set<Pair>)
    ensures exists list :: ListsInOrder(list, members)
  {
    var list := ListingExists(members);
  }

  /** The sorted list of a set. */
  ghost function InOrderOf(members: set<Pair>): (list: seq<Pair>)
    ensures ListsInOrder(list, members)
    ensures list == [] <==> members == {}
  {
    AListing(members);
    var list :| ListsInOrder(list, members);
    assert list != [] ==> list[0] in members;
    list
  }
}
