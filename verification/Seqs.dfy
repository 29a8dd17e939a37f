/** Lists as the services use them: filtering, first-seen de-duplication, element-wise change. */
module Seqs {

  function Filter<T(!new)>(s: seq<T>, keep: T -> bool): (r: seq<T>)
    ensures forall x :: x in r <==> x in s && keep(x)
    ensures |r| <= |s|
  {
    if s == [] then [] else (if keep(s[0]) then [s[0]] else []) + Filter(s[1..], keep)
  }

  lemma {:induction false} FilterAppends<T(!new)>(s: seq<T>, t: seq<T>, keep: T -> bool)
    ensures Filter(s + t, keep) == Filter(s, keep) + Filter(t, keep)
  {
    if s == [] {
      assert s + t == t;
    } else {
      assert (s + t)[1..] == s[1..] + t;
      FilterAppends(s[1..], t, keep);
    }
  }

  /** Filtering twice is filtering by both. */
  lemma {:induction false} FilterFilter<T(!new)>(s: seq<T>, f: T -> bool, g: T -> bool, both: T -> bool)
    requires forall x :: x in s ==> (both(x) <==> f(x) && g(x))
    ensures Filter(Filter(s, f), g) == Filter(s, both)
  {
    if s != [] {
      FilterFilter(s[1..], f, g, both);
      var rest := Filter(s[1..], f);
      assert Filter(s, f) == (if f(s[0]) then [s[0]] else []) + rest;
      if f(s[0]) {
        assert ([s[0]] + rest)[1..] == rest;
      } else {
        assert [] + rest == rest;
      }
    }
  }

  lemma {:induction false} FilterSame<T(!new)>(s: seq<T>, f: T -> bool, g: T -> bool)
    requires forall x :: x in s ==> (f(x) <==> g(x))
    ensures Filter(s, f) == Filter(s, g)
  {
    if s != [] {
      FilterSame(s[1..], f, g);
    }
  }

  lemma {:induction false} FilterAll<T(!new)>(s: seq<T>, keep: T -> bool)
    requires forall x :: x in s ==> keep(x)
    ensures Filter(s, keep) == s
  {
    if s != [] {
      FilterAll(s[1..], keep);
    }
  }

  lemma {:induction false} FilterNone<T(!new)>(s: seq<T>, keep: T -> bool)
    requires forall x :: x in s ==> !keep(x)
    ensures Filter(s, keep) == []
  {
    if s != [] {
      FilterNone(s[1..], keep);
    }
  }

  /** Once an element passes `g`, all later ones do. */
  ghost predicate Settles<T(!new)>(s: seq<T>, g: T -> bool) {
    forall i, j :: 0 <= i < j < |s| && g(s[i]) ==> g(s[j])
  }

  lemma SettlesTail<T(!new)>(s: seq<T>, g: T -> bool)
    requires s != []
    ensures Settles(s, g) <==> Settles(s[1..], g) && (g(s[0]) ==> forall x :: x in s[1..] ==> g(x))
  {
    var rest := s[1..];
    assert forall i :: 0 <= i < |rest| ==> rest[i] == s[i + 1];
    if Settles(rest, g) && (g(s[0]) ==> forall x :: x in rest ==> g(x)) {
      forall i, j | 0 <= i < j < |s| && g(s[i]) ensures g(s[j]) {
        assert rest[j - 1] == s[j] && rest[j - 1] in rest;
        if i > 0 {
          assert rest[i - 1] == s[i];
        }
      }
    }
    if Settles(s, g) && g(s[0]) {
      forall x | x in rest ensures g(x) {
        var i :| 0 <= i < |rest| && rest[i] == x;
        assert s[i + 1] == x;
      }
    }
  }

  /** Putting what passes `g` behind what passes `f` changes nothing exactly when it is there already. */
  lemma {:induction false} FilterSplitInOrder<T(!new)>(s: seq<T>, f: T -> bool, g: T -> bool)
    requires forall x :: x in s ==> (f(x) <==> !g(x))
    ensures Filter(s, f) + Filter(s, g) == s <==> Settles(s, g)
  {
    if s != [] {
      SettlesTail(s, g);
      if f(s[0]) {
        FilterSplitInOrder(s[1..], f, g);
        SplitHeadFirst(s, f, g);
      } else if forall x :: x in s[1..] ==> g(x) {
        FilterSplitInOrder(s[1..], f, g);
        FilterAll(s, g);
        FilterNone(s, f);
        assert [] + s == s;
      } else {
        SplitHeadMoves(s, f, g);
      }
    }
  }

  lemma SplitHeadFirst<T(!new)>(s: seq<T>, f: T -> bool, g: T -> bool)
    requires s != [] && f(s[0]) && !g(s[0])
    ensures Filter(s, f) + Filter(s, g) == s <==> Filter(s[1..], f) + Filter(s[1..], g) == s[1..]
  {
    var moved := Filter(s[1..], f) + Filter(s[1..], g);
    assert Filter(s, f) + Filter(s, g) == [s[0]] + moved;
    assert ([s[0]] + moved)[1..] == moved;
  }

  lemma SplitHeadMoves<T(!new)>(s: seq<T>, f: T -> bool, g: T -> bool)
    requires s != [] && !f(s[0]) && exists x :: x in s[1..] && f(x)
    ensures Filter(s, f) + Filter(s, g) != s
  {
    var x :| x in s[1..] && f(x);
    assert x in s && x in Filter(s, f);
    assert Filter(s, f)[0] in Filter(s, f);
    assert (Filter(s, f) + Filter(s, g))[0] == Filter(s, f)[0];
  }

  lemma {:induction false} FilterNoDuplicates<T(!new)>(s: seq<T>, keep: T -> bool)
    requires NoDuplicates(s)
    ensures NoDuplicates(Filter(s, keep))
  {
    if s != [] {
      FilterNoDuplicates(s[1..], keep);
      assert s[0] !in s[1..];
    }
  }

  predicate ExactlyOne(a: bool, b: bool, c: bool) {
    (a || b || c) && !(a && b) && !(a && c) && !(b && c)
  }

  /** Three tests of which each element passes exactly one split a list without loss or repetition. */
  lemma {:induction false} ThreeWay<T(!new)>(s: seq<T>, f: T -> bool, g: T -> bool, h: T -> bool)
    requires forall x :: x in s ==> ExactlyOne(f(x), g(x), h(x))
    ensures multiset(s) == multiset(Filter(s, f)) + multiset(Filter(s, g)) + multiset(Filter(s, h))
  {
    if s != [] {
      ThreeWay(s[1..], f, g, h);
      HeadAndTail(s);
      FilterHead(s, f);
      FilterHead(s, g);
      FilterHead(s, h);
      OneMore(s[0], multiset(Filter(s[1..], f)), multiset(Filter(s[1..], g)), multiset(Filter(s[1..], h)));
    }
  }

  lemma HeadAndTail<T>(s: seq<T>)
    requires s != []
    ensures s[0] in s && multiset(s) == multiset{s[0]} + multiset(s[1..])
  {
    assert s == [s[0]] + s[1..];
  }

  lemma OneMore<T>(x: T, a: multiset<T>, b: multiset<T>, c: multiset<T>)
    ensures multiset{x} + (a + b + c) == (multiset{x} + a) + b + c
    ensures multiset{x} + (a + b + c) == a + (multiset{x} + b) + c
    ensures multiset{x} + (a + b + c) == a + b + (multiset{x} + c)
  {
  }

  lemma FilterHead<T(!new)>(s: seq<T>, keep: T -> bool)
    requires s != []
    ensures multiset(Filter(s, keep))
         == if keep(s[0]) then multiset{s[0]} + multiset(Filter(s[1..], keep)) else multiset(Filter(s[1..], keep))
  {
  }

  function Map<T, U>(s: seq<T>, f: T -> U): (r: seq<U>)
    ensures |r| == |s| && forall i :: 0 <= i < |s| ==> r[i] == f(s[i])
  {
    seq(|s|, i requires 0 <= i < |s| => f(s[i]))
  }

  lemma MapMembers<T(!new), U>(s: seq<T>, f: T -> U, y: U)
    ensures y in Map(s, f) <==> exists x :: x in s && f(x) == y
  {
    if y in Map(s, f) {
      var i :| 0 <= i < |s| && Map(s, f)[i] == y;
      assert s[i] in s;
    }
    if exists x :: x in s && f(x) == y {
      var x :| x in s && f(x) == y;
      var i :| 0 <= i < |s| && s[i] == x;
      assert Map(s, f)[i] == y;
    }
  }

  lemma MapLast<T, U>(s: seq<T>, f: T -> U)
    requires s != []
    ensures Map(s, f) == Map(s[..|s| - 1], f) + [f(s[|s| - 1])]
  {
  }

  lemma {:induction false} FilterLast<T(!new)>(s: seq<T>, keep: T -> bool)
    requires s != []
    ensures Filter(s, keep) == Filter(s[..|s| - 1], keep) + (if keep(s[|s| - 1]) then [s[|s| - 1]] else [])
  {
    assert s == s[..|s| - 1] + [s[|s| - 1]];
    FilterAppends(s[..|s| - 1], [s[|s| - 1]], keep);
  }

  ghost predicate NoDuplicates<T>(s: seq<T>) {
    forall i, j :: 0 <= i < j < |s| ==> s[i] != s[j]
  }

  lemma NoDuplicatesHead<T>(s: seq<T>)
    requires s != []
    ensures NoDuplicates(s) <==> s[0] !in s[1..] && NoDuplicates(s[1..])
  {
    var rest := s[1..];
    assert forall i :: 0 <= i < |rest| ==> rest[i] == s[i + 1];
    if s[0] !in rest && NoDuplicates(rest) {
      forall i, j | 0 <= i < j < |s| ensures s[i] != s[j] {
        assert rest[j - 1] == s[j] && rest[j - 1] in rest;
        assert i > 0 ==> rest[i - 1] == s[i];
      }
    }
  }

  /** Each element once, where it was first seen. */
  function Distinct<T(==,!new)>(s: seq<T>): (r: seq<T>)
    ensures NoDuplicates(r)
    ensures forall x :: x in r <==> x in s
  {
    if s == [] then []
    else
      var front := Distinct(s[..|s| - 1]);
      if s[|s| - 1] in s[..|s| - 1] then front else front + [s[|s| - 1]]
  }

  /** First-seen order: of two elements, the one that appears first in `s` comes first. */
  lemma {:induction false} DistinctKeepsFirstSeenOrder<T(!new)>(s: seq<T>, i: nat, j: nat)
    requires i < j < |s| && s[i] !in s[..i] && s[j] !in s[..j]
    ensures exists a, b :: 0 <= a < b < |Distinct(s)| && Distinct(s)[a] == s[i] && Distinct(s)[b] == s[j]
  {
    var front := s[..|s| - 1];
    if j < |s| - 1 {
      assert front[..i] == s[..i] && front[..j] == s[..j];
      DistinctKeepsFirstSeenOrder(front, i, j);
      var a, b :| 0 <= a < b < |Distinct(front)| && Distinct(front)[a] == s[i] && Distinct(front)[b] == s[j];
      assert Distinct(s)[a] == s[i] && Distinct(s)[b] == s[j];
    } else {
      assert front[i] == s[i] && front[i] in Distinct(front);
      var a :| 0 <= a < |Distinct(front)| && Distinct(front)[a] == s[i];
      assert Distinct(s)[a] == s[i] && Distinct(s)[|Distinct(front)|] == s[j];
    }
  }

  lemma DistinctLast<T(!new)>(s: seq<T>)
    requires s != []
    ensures Distinct(s) == Distinct(s[..|s| - 1]) + (if s[|s| - 1] in s[..|s| - 1] then [] else [s[|s| - 1]])
  {
  }

  lemma {:induction false} DistinctOfDistinct<T(!new)>(s: seq<T>)
    requires NoDuplicates(s)
    ensures Distinct(s) == s
  {
    if s != [] {
      DistinctOfDistinct(s[..|s| - 1]);
    }
  }
}
