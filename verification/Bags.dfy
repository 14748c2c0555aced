/** Sequences compared as bags of their elements. */
module Bags {

  function Map<A, B>(f: A -> B, s: seq<A>): seq<B> {
    if s == [] then [] else Map(f, s[..|s| - 1]) + [f(s[|s| - 1])]
  }

  ghost predicate Distinct<A>(s: seq<A>) {
    forall i, j :: 0 <= i < j < |s| ==> s[i] != s[j]
  }

  lemma {:induction false} Once<A>(s: seq<A>, x: A)
    requires Distinct(s)
    ensures multiset(s)[x] == if x in s then 1 else 0
  {
    if s != [] {
      var init, last := s[..|s| - 1], s[|s| - 1];
      assert s == init + [last];
      Once(init, x);
    }
  }

  lemma {:induction false} DistinctSize<A>(s: seq<A>)
    requires Distinct(s)
    ensures |set x | x in s| == |s|
  {
    if s != [] {
      var init, last := s[..|s| - 1], s[|s| - 1];
      DistinctSize(init);
      assert (set x | x in s) == (set x | x in init) + {last};
    }
  }

  lemma CountByMembers<A>(s: seq<A>, t: set<A>)
    requires Distinct(s) && forall x :: x in s <==> x in t
    ensures |s| == |t|
  {
    DistinctSize(s);
    assert t == set x | x in s;
  }

  /** Two lists without repetition and with the same members are the same bag. */
  lemma SameMembers<A>(a: seq<A>, b: seq<A>)
    requires Distinct(a) && Distinct(b) && forall x :: x in a <==> x in b
    ensures multiset(a) == multiset(b)
  {
    forall x ensures multiset(a)[x] == multiset(b)[x] {
      Once(a, x);
      Once(b, x);
    }
  }

  /** A list without repetition is a part of another that has all its members. */
  lemma PartOf<A>(a: seq<A>, b: seq<A>)
    requires Distinct(a) && Distinct(b) && forall x :: x in a ==> x in b
    ensures multiset(a) <= multiset(b)
  {
    forall x ensures multiset(a)[x] <= multiset(b)[x] {
      Once(a, x);
      Once(b, x);
    }
  }

  lemma {:induction false} MapLength<A, B>(f: A -> B, s: seq<A>)
    ensures |Map(f, s)| == |s|
  {
    if s != [] {
      MapLength(f, s[..|s| - 1]);
    }
  }

  lemma {:induction false} MapSame<A, B>(f: A -> B, g: A -> B, s: seq<A>)
    requires forall x :: x in s ==> f(x) == g(x)
    ensures Map(f, s) == Map(g, s)
  {
    if s != [] {
      MapSame(f, g, s[..|s| - 1]);
    }
  }

  /** A function takes part of a bag to part of its image, and not all of it to all only if it was all. */
  lemma MapPart<A, B>(f: A -> B, a: seq<A>, b: seq<A>)
    requires multiset(a) <= multiset(b)
    ensures multiset(Map(f, a)) <= multiset(Map(f, b))
    ensures multiset(Map(f, a)) == multiset(Map(f, b)) <==> multiset(a) == multiset(b)
  {
    MapInto(f, a, b);
    MapLength(f, a);
    MapLength(f, b);
    assert |multiset(Map(f, a))| == |a| && |multiset(Map(f, b))| == |b|;
    if multiset(a) == multiset(b) {
      MapBag(f, a, b);
    }
    assert multiset(b) == multiset(a) + (multiset(b) - multiset(a));
  }

  /** Taking one copy of `x` out of a bag and of a part of it. */
  lemma RemoveFromPart<A>(init: seq<A>, x: A, before: seq<A>, after: seq<A>)
    requires multiset(init + [x]) <= multiset(before + [x] + after)
    ensures multiset(init) <= multiset(before + after)
  {
    forall y ensures multiset(init)[y] <= multiset(before + after)[y] {
      assert multiset(init + [x])[y] == multiset(init)[y] + multiset{x}[y];
      assert multiset(before + [x] + after)[y] == multiset(before + after)[y] + multiset{x}[y];
      assert multiset(init + [x])[y] <= multiset(before + [x] + after)[y];
    }
  }

  lemma {:induction false} MapInto<A, B>(f: A -> B, a: seq<A>, b: seq<A>)
    requires multiset(a) <= multiset(b)
    ensures multiset(Map(f, a)) <= multiset(Map(f, b))
    decreases |a|
  {
    if a != [] {
      var init, x := a[..|a| - 1], a[|a| - 1];
      assert a == init + [x];
      assert x in multiset(a);
      var i :| 0 <= i < |b| && b[i] == x;
      var before, after := b[..i], b[i + 1..];
      assert b == before + [x] + after;
      RemoveFromPart(init, x, before, after);
      MapInto(f, init, before + after);
      MapMiddle(f, before, x, after);
    }
  }

  lemma {:induction false} MapConcat<A, B>(f: A -> B, a: seq<A>, b: seq<A>)
    ensures Map(f, a + b) == Map(f, a) + Map(f, b)
  {
    if b == [] {
      assert a + b == a;
    } else {
      assert (a + b)[..|a + b| - 1] == a + b[..|b| - 1];
      MapConcat(f, a, b[..|b| - 1]);
    }
  }

  /** Taking one copy of `x` out of equal bags leaves equal bags. */
  lemma RemoveOne<A>(init: seq<A>, x: A, before: seq<A>, after: seq<A>)
    requires multiset(init + [x]) == multiset(before + [x] + after)
    ensures multiset(init) == multiset(before + after)
  {
    var all := multiset(before) + multiset(after);
    assert multiset(init + [x]) == multiset(init) + multiset{x};
    assert multiset(before + [x] + after) == all + multiset{x};
    assert multiset(init) == (multiset(init) + multiset{x}) - multiset{x};
    assert all == (all + multiset{x}) - multiset{x};
  }

  /** A function takes equal bags to equal bags. */
  lemma {:induction false} MapBag<A, B>(f: A -> B, a: seq<A>, b: seq<A>)
    requires multiset(a) == multiset(b)
    ensures multiset(Map(f, a)) == multiset(Map(f, b))
    decreases |a|
  {
    if a == [] {
      assert |multiset(b)| == 0;
      assert b == [];
    } else {
      var init, x := a[..|a| - 1], a[|a| - 1];
      assert a == init + [x];
      assert x in multiset(b);
      var i :| 0 <= i < |b| && b[i] == x;
      var before, after := b[..i], b[i + 1..];
      assert b == before + [x] + after;
      RemoveOne(init, x, before, after);
      MapBag(f, init, before + after);
      MapMiddle(f, before, x, after);
    }
  }

  lemma MapMiddle<A, B>(f: A -> B, before: seq<A>, x: A, after: seq<A>)
    ensures multiset(Map(f, before + [x] + after)) == multiset(Map(f, before + after)) + multiset{f(x)}
  {
    MapConcat(f, before, after);
    MapConcat(f, before, [x]);
    MapConcat(f, before + [x], after);
    assert [x][..0] == [];
    assert Map(f, [x]) == [f(x)];
  }

  /** A set is no larger than one it is mapped into without collision. */
  lemma {:induction false} Injected<A, B>(s: set<A>, f: A -> B, t: set<B>)
    requires forall x :: x in s ==> f(x) in t
    requires forall x, y :: x in s && y in s && f(x) == f(y) ==> x == y
    ensures |s| <= |t|
    decreases |s|
  {
    if s != {} {
      var x :| x in s;
      Injected(s - {x}, f, t - {f(x)});
    }
  }
}
