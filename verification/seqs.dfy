/** Generic list operations the experiment relies on: concatenating a list of
    lists (both `list.extend` in a loop and `"".join`) and Python's `list.remove`. */
module Seqs {
  import opened Wrappers

  /** The in-order concatenation of every element of `xss`. */
  function Concat<T>(xss: seq<seq<T>>): seq<T>
  {
    if |xss| == 0 then [] else Concat(xss[..|xss| - 1]) + xss[|xss| - 1]
  }

  /** An element occurs in the concatenation exactly when it occurs in one of the parts. */
  lemma {:induction false} ConcatMember<T>(xss: seq<seq<T>>, x: T)
    ensures x in Concat(xss) <==> exists j :: 0 <= j < |xss| && x in xss[j]
    decreases |xss|
  {
    if |xss| > 0 {
      var init := xss[..|xss| - 1];
      ConcatMember(init, x);
      assert forall j :: 0 <= j < |init| ==> init[j] == xss[j];
    }
  }

  /** Concatenation distributes over appending lists of lists. */
  lemma {:induction false} ConcatAppend<T>(a: seq<seq<T>>, b: seq<seq<T>>)
    ensures Concat(a + b) == Concat(a) + Concat(b)
    decreases |b|
  {
    if |b| == 0 {
      assert a + b == a;
    } else {
      var b' := b[..|b| - 1];
      assert (a + b)[..|a + b| - 1] == a + b';
      assert (a + b)[|a + b| - 1] == b[|b| - 1];
      ConcatAppend(a, b');
      assert Concat(b) == Concat(b') + b[|b| - 1];
    }
  }

  lemma ConcatSingle<T>(xs: seq<T>)
    ensures Concat([xs]) == xs
  {
    assert [xs][..0] == [];
  }

  lemma ConcatPair<T>(xs: seq<T>, ys: seq<T>)
    ensures Concat([xs, ys]) == xs + ys
  {
    assert [xs, ys] == [xs] + [ys];
    ConcatAppend([xs], [ys]);
    ConcatSingle(xs);
    ConcatSingle(ys);
  }

  /** Position of the first occurrence of `x` in `xs`. */
  function IndexOf<T(==)>(xs: seq<T>, x: T): (i: nat)
    requires x in xs
    ensures i < |xs| && xs[i] == x && x !in xs[..i]
  {
    if xs[0] == x then 0
    else
      var i := 1 + IndexOf(xs[1..], x);
      assert xs[..i] == [xs[0]] + xs[1..][..i - 1];
      i
  }

  /** Python's `list.remove(x)`: deletes the first occurrence of `x` only;
      `None` stands for the ValueError raised when `x` is absent. */
  function RemoveFirst<T(==)>(xs: seq<T>, x: T): (r: Option<seq<T>>)
    ensures r.None? <==> x !in xs
    ensures r.Some? ==> |r.value| + 1 == |xs| && multiset(r.value) + multiset{x} == multiset(xs)
  {
    if x in xs then
      var i := IndexOf(xs, x);
      assert xs == xs[..i] + [x] + xs[i + 1..];
      Some(xs[..i] + xs[i + 1..])
    else None
  }

  /** Removing the first occurrence is cutting out the `x` that follows the
      longest `x`-free prefix; everything after it, including later copies of
      `x`, is kept. */
  lemma RemoveFirstSplit<T>(pre: seq<T>, x: T, post: seq<T>)
    requires x !in pre
    ensures RemoveFirst(pre + [x] + post, x) == Some(pre + post)
  {
    var xs := pre + [x] + post;
    var i := IndexOf(xs, x);
    assert xs[|pre|] == x;
    assert i == |pre|;
    assert xs[..i] == pre;
    assert xs[i + 1..] == post;
  }
}
