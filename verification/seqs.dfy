/** Sequence combinators shared by the slug, calendar and discovery models. */
module Seqs {
  import opened Optional

  /** Keeps the elements satisfying `p`, in order (a regular-expression deletion or an encode-with-ignore). */
  function Filter<T>(p: T -> bool, s: seq<T>): seq<T>
  {
    if s == [] then []
    else if p(s[0]) then [s[0]] + Filter(p, s[1..])
    else Filter(p, s[1..])
  }

  /** Every kept element satisfies `p` and comes from `s`. */
  lemma {:induction false} FilterKeeps<T>(p: T -> bool, s: seq<T>)
    ensures |Filter(p, s)| <= |s|
    ensures forall i :: 0 <= i < |Filter(p, s)| ==> p(Filter(p, s)[i]) && Filter(p, s)[i] in s
    decreases |s|
  {
    if s != [] {
      FilterKeeps(p, s[1..]);
      var rest := Filter(p, s[1..]);
      assert forall i :: 0 <= i < |rest| ==> rest[i] in s[1..];
    }
  }

  /** Nothing is lost when every element passes. */
  lemma {:induction false} FilterUnchanged<T>(p: T -> bool, s: seq<T>)
    requires forall i :: 0 <= i < |s| ==> p(s[i])
    ensures Filter(p, s) == s
    decreases |s|
  {
    if s != [] {
      assert forall i :: 0 <= i < |s[1..]| ==> p(s[1..][i]) by {
        forall i | 0 <= i < |s[1..]| ensures p(s[1..][i]) {
          assert s[1..][i] == s[i + 1];
        }
      }
      FilterUnchanged(p, s[1..]);
      assert p(s[0]);
      assert [s[0]] + s[1..] == s;
    }
  }

  /**
   * Runs `f` over `xs` in order and concatenates what it yields; one `None`
   * (an exception escaping an iteration) makes the whole walk `None`.
   */
  function FlatMapOpt<A, B>(xs: seq<A>, f: A -> Option<seq<B>>): (r: Option<seq<B>>)
    ensures r.Some? <==> forall i :: 0 <= i < |xs| ==> f(xs[i]).Some?
  {
    if xs == [] then Some([])
    else
      match f(xs[0])
      case None => None
      case Some(ys) =>
        match FlatMapOpt(xs[1..], f)
        case None =>
          assert exists i :: 0 <= i < |xs| && f(xs[i]).None? by {
            var j :| 0 <= j < |xs[1..]| && f(xs[1..][j]).None?;
            assert f(xs[j + 1]).None?;
          }
          None
        case Some(zs) =>
          assert forall i :: 0 <= i < |xs| ==> f(xs[i]).Some? by {
            forall i | 0 <= i < |xs| ensures f(xs[i]).Some? {
              if i > 0 { assert xs[i] == xs[1..][i - 1]; }
            }
          }
          Some(ys + zs)
  }

  /** Applies `f` to every item, in order. */
  function Map<A, B>(xs: seq<A>, f: A -> B): (r: seq<B>)
    ensures |r| == |xs| && forall i :: 0 <= i < |xs| ==> r[i] == f(xs[i])
  {
    seq(|xs|, i requires 0 <= i < |xs| => f(xs[i]))
  }

  lemma MapCons<A, B>(x: A, xs: seq<A>, f: A -> B)
    ensures Map([x] + xs, f) == [f(x)] + Map(xs, f)
  {
    var l, r := Map([x] + xs, f), [f(x)] + Map(xs, f);
    forall i | 0 <= i < |l| ensures l[i] == r[i] {
      if i > 0 {
        assert ([x] + xs)[i] == xs[i - 1];
      }
    }
  }

  /** A non-empty sequence is its prefix followed by its last element. */
  lemma SnocSplit<T>(s: seq<T>)
    requires s != []
    ensures s[..|s| - 1] + [s[|s| - 1]] == s
  {
  }

  /** Runs `leaf` over `ys` in order and concatenates the results. */
  function ConcatMap<B, C>(ys: seq<B>, leaf: B -> seq<C>): seq<C>
  {
    if ys == [] then [] else leaf(ys[0]) + ConcatMap(ys[1..], leaf)
  }

  lemma {:induction false} ConcatMapAppend<B, C>(a: seq<B>, b: seq<B>, leaf: B -> seq<C>)
    ensures ConcatMap(a + b, leaf) == ConcatMap(a, leaf) + ConcatMap(b, leaf)
    decreases |a|
  {
    if a == [] {
      assert a + b == b;
    } else {
      assert (a + b)[1..] == a[1..] + b;
      ConcatMapAppend(a[1..], b, leaf);
    }
  }

  /** Every element of a `ConcatMap` result comes from the leaf of some item. */
  lemma {:induction false} ConcatMapMember<B, C>(ys: seq<B>, leaf: B -> seq<C>, x: C)
    requires x in ConcatMap(ys, leaf)
    ensures exists k :: 0 <= k < |ys| && x in leaf(ys[k])
    decreases |ys|
  {
    if x !in leaf(ys[0]) {
      ConcatMapMember(ys[1..], leaf, x);
      var k :| 0 <= k < |ys[1..]| && x in leaf(ys[1..][k]);
      assert ys[1..][k] == ys[k + 1];
    }
  }

  /** An item whose leaf is empty can be dropped. */
  lemma ConcatMapSkip<B, C>(ys: seq<B>, leaf: B -> seq<C>, k: nat)
    requires k < |ys| && leaf(ys[k]) == []
    ensures ConcatMap(ys, leaf) == ConcatMap(ys[..k] + ys[k + 1..], leaf)
  {
    var pre, mid, post := ys[..k], [ys[k]], ys[k + 1..];
    assert ys == pre + (mid + post);
    ConcatMapAppend(pre, mid + post, leaf);
    ConcatMapAppend(mid, post, leaf);
    assert ConcatMap(mid, leaf) == leaf(ys[k]) + ConcatMap([], leaf);
    ConcatMapAppend(pre, post, leaf);
  }

  /** Post-processes the outcome of a walk with `leaf` on every item. */
  function Lift<B, C>(o: Option<seq<B>>, leaf: B -> seq<C>): Option<seq<C>>
  {
    match o
    case None => None
    case Some(ys) => Some(ConcatMap(ys, leaf))
  }

  /** Two walks whose steps agree position by position end the same way. */
  lemma {:induction false} FlatMapOptPointwise<A, B, C>(xs: seq<A>, f: A -> Option<seq<C>>, ys: seq<B>, g: B -> Option<seq<C>>)
    requires |xs| == |ys|
    requires forall i :: 0 <= i < |xs| ==> f(xs[i]) == g(ys[i])
    ensures FlatMapOpt(xs, f) == FlatMapOpt(ys, g)
    decreases |xs|
  {
    if xs != [] {
      assert f(xs[0]) == g(ys[0]);
      forall i | 0 <= i < |xs[1..]|
        ensures f(xs[1..][i]) == g(ys[1..][i])
      {
        assert xs[1..][i] == xs[i + 1] && ys[1..][i] == ys[i + 1];
      }
      FlatMapOptPointwise(xs[1..], f, ys[1..], g);
    }
  }

  /**
   * A walk whose every step already applies `leaf` gives what the plain walk
   * gives followed by `leaf` on each item: interleaving the two phases or
   * running them one after the other makes no difference.
   */
  lemma {:induction false} FlatMapFuse<A, B, C>(xs: seq<A>, f: A -> Option<seq<B>>, g: A -> Option<seq<C>>, leaf: B -> seq<C>)
    requires forall i :: 0 <= i < |xs| ==> g(xs[i]) == Lift(f(xs[i]), leaf)
    ensures FlatMapOpt(xs, g) == Lift(FlatMapOpt(xs, f), leaf)
    decreases |xs|
  {
    if xs != [] {
      assert g(xs[0]) == Lift(f(xs[0]), leaf);
      forall i | 0 <= i < |xs[1..]|
        ensures g(xs[1..][i]) == Lift(f(xs[1..][i]), leaf)
      {
        assert xs[1..][i] == xs[i + 1];
      }
      FlatMapFuse(xs[1..], f, g, leaf);
      match f(xs[0])
      case None =>
      case Some(ys) =>
        match FlatMapOpt(xs[1..], f)
        case None =>
        case Some(zs) =>
          ConcatMapAppend(ys, zs, leaf);
    }
  }

  /** Position of the first occurrence of `c` in `s`. */
  function IndexOf<T(==)>(s: seq<T>, c: T): (k: nat)
    requires c in s
    ensures k < |s| && s[k] == c && c !in s[..k]
  {
    if s[0] == c then 0
    else
      var k := 1 + IndexOf(s[1..], c);
      assert s[..k] == [s[0]] + s[1..][..k - 1];
      k
  }

  /**
   * Splitting at the first occurrence of a separator is unambiguous: if
   * neither prefix contains `c`, `a + [c] + b` determines `a` and `b`.
   */
  lemma SplitAtSeparator<T>(a: seq<T>, b: seq<T>, a': seq<T>, b': seq<T>, c: T)
    requires c !in a && c !in a'
    requires a + [c] + b == a' + [c] + b'
    ensures a == a' && b == b'
  {
    var s := a + [c] + b;
    assert s[|a|] == c && s[|a'|] == c;
    var k := IndexOf(s, c);
    assert s[..|a|] == a && s[..|a'|] == a';
    assert a == s[..k] == a';
    assert b == s[k + 1..] == b';
  }
}
