/** The language of a pattern whose elements each take one piece of the subject.

    A pattern accepts a subject when the subject can be cut into consecutive
    pieces, one per pattern element, and every piece fits its element.  Both
    levels of the glob matcher are instances of this one definition.
 */
module Division {

  /** The pieces put back together. */
  function Flatten<T>(pieces: seq<seq<T>>): seq<T> {
    if pieces == [] then [] else pieces[0] + Flatten(pieces[1..])
  }

  ghost predicate Divides<P(!new), T(!new)>(fits: (P, seq<T>) -> bool, pat: seq<P>, pieces: seq<seq<T>>, s: seq<T>) {
    && |pieces| == |pat|
    && Flatten(pieces) == s
    && forall i :: 0 <= i < |pat| ==> fits(pat[i], pieces[i])
  }

  ghost predicate Accepts<P(!new), T(!new)>(fits: (P, seq<T>) -> bool, pat: seq<P>, s: seq<T>) {
    exists pieces :: Divides(fits, pat, pieces, s)
  }

  /** `s` splits at `k` into a piece for the head of the pattern and the rest. */
  ghost predicate HeadTakes<P(!new), T(!new)>(fits: (P, seq<T>) -> bool, pat: seq<P>, s: seq<T>, k: int)
    requires pat != []
  {
    0 <= k <= |s| && fits(pat[0], s[..k]) && Accepts(fits, pat[1..], s[k..])
  }

  /** `s` splits at `k` into a part for `p` and a part for `q`. */
  ghost predicate CutsAt<P(!new), T(!new)>(fits: (P, seq<T>) -> bool, p: seq<P>, q: seq<P>, s: seq<T>, k: int) {
    0 <= k <= |s| && Accepts(fits, p, s[..k]) && Accepts(fits, q, s[k..])
  }

  lemma {:induction false} FlattenConcat<T>(a: seq<seq<T>>, b: seq<seq<T>>)
    ensures Flatten(a + b) == Flatten(a) + Flatten(b)
  {
    if a == [] {
      assert a + b == b;
    } else {
      assert (a + b)[1..] == a[1..] + b;
      FlattenConcat(a[1..], b);
    }
  }

  lemma AcceptsNil<P(!new), T(!new)>(fits: (P, seq<T>) -> bool, s: seq<T>)
    ensures Accepts(fits, [], s) <==> s == []
  {
    if s == [] {
      assert Divides(fits, [], [], s);
    }
  }

  lemma AcceptsCons<P(!new), T(!new)>(fits: (P, seq<T>) -> bool, pat: seq<P>, s: seq<T>)
    requires pat != []
    ensures Accepts(fits, pat, s) <==> exists k :: HeadTakes(fits, pat, s, k)
  {
    if Accepts(fits, pat, s) {
      var pieces :| Divides(fits, pat, pieces, s);
      var k := |pieces[0]|;
      assert s[..k] == pieces[0] && s[k..] == Flatten(pieces[1..]);
      assert Divides(fits, pat[1..], pieces[1..], s[k..]);
      assert HeadTakes(fits, pat, s, k);
    }
    if k :| HeadTakes(fits, pat, s, k) {
      var tail :| Divides(fits, pat[1..], tail, s[k..]);
      var pieces := [s[..k]] + tail;
      assert pieces[1..] == tail;
      assert Divides(fits, pat, pieces, s);
    }
  }

  /** Concatenating patterns concatenates their languages. */
  lemma AcceptsConcat<P(!new), T(!new)>(fits: (P, seq<T>) -> bool, p: seq<P>, q: seq<P>, s: seq<T>)
    ensures Accepts(fits, p + q, s) <==> exists k :: CutsAt(fits, p, q, s, k)
  {
    if Accepts(fits, p + q, s) {
      var pieces :| Divides(fits, p + q, pieces, s);
      var a, b := pieces[..|p|], pieces[|p|..];
      assert pieces == a + b;
      FlattenConcat(a, b);
      var k := |Flatten(a)|;
      assert s[..k] == Flatten(a) && s[k..] == Flatten(b);
      assert Divides(fits, p, a, s[..k]);
      assert forall i :: 0 <= i < |q| ==> q[i] == (p + q)[|p| + i];
      assert Divides(fits, q, b, s[k..]);
      assert CutsAt(fits, p, q, s, k);
    }
    if k :| CutsAt(fits, p, q, s, k) {
      var a :| Divides(fits, p, a, s[..k]);
      var b :| Divides(fits, q, b, s[k..]);
      FlattenConcat(a, b);
      assert s == s[..k] + s[k..];
      assert Divides(fits, p + q, a + b, s);
    }
  }

  /** When every element takes exactly one item, lengths agree. */
  lemma {:induction false} UnitPieces<P(!new), T(!new)>(fits: (P, seq<T>) -> bool, pat: seq<P>, pieces: seq<seq<T>>, s: seq<T>)
    requires Divides(fits, pat, pieces, s)
    requires forall i :: 0 <= i < |pieces| ==> |pieces[i]| == 1
    ensures |s| == |pat|
  {
    if pat != [] {
      assert Divides(fits, pat[1..], pieces[1..], Flatten(pieces[1..]));
      UnitPieces(fits, pat[1..], pieces[1..], Flatten(pieces[1..]));
    }
  }
}
