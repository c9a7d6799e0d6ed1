/** Lists read from their ends: collecting, folding, searching. */
module Lists {
  function Last<T>(s: seq<T>): T
    requires |s| > 0
  {
    s[|s| - 1]
  }

  /** What a loop that appends `f(x)` for each `x` collects. */
  function Collect<X, T>(xs: seq<X>, f: X -> seq<T>): seq<T> {
    if xs == [] then [] else Collect(xs[..|xs| - 1], f) + f(Last(xs))
  }

  lemma {:induction false} CollectNothing<X, T>(xs: seq<X>, f: X -> seq<T>)
    requires forall i :: 0 <= i < |xs| ==> f(xs[i]) == []
    ensures Collect(xs, f) == []
  {
    if xs != [] {
      CollectNothing(xs[..|xs| - 1], f);
    }
  }

  lemma {:induction false} CollectItself<X>(xs: seq<X>, f: X -> seq<X>)
    requires forall i :: 0 <= i < |xs| ==> f(xs[i]) == [xs[i]]
    ensures Collect(xs, f) == xs
  {
    if xs != [] {
      var init := xs[..|xs| - 1];
      CollectItself(init, f);
      assert f(xs[|xs| - 1]) == [Last(xs)];
      assert Collect(xs, f) == init + [Last(xs)];
    }
  }

  lemma CollectOne<X, T>(x: X, f: X -> seq<T>)
    ensures Collect([x], f) == f(x)
  {
    assert [x][..0] == [] && Last([x]) == x;
  }

  lemma {:induction false} CollectConcat<X, T>(a: seq<X>, b: seq<X>, f: X -> seq<T>)
    ensures Collect(a + b, f) == Collect(a, f) + Collect(b, f)
  {
    if b == [] {
      assert a + b == a;
    } else {
      var c := a + b;
      assert c[..|c| - 1] == a + b[..|b| - 1];
      CollectConcat(a, b[..|b| - 1], f);
    }
  }

  /** Taking one element out takes out exactly what it contributed. */
  lemma {:induction false} TakeOut<X, T>(xs: seq<X>, k: nat, f: X -> seq<T>)
    requires k < |xs|
    ensures multiset(Collect(xs, f)) == multiset(Collect(xs[..k] + xs[k + 1..], f)) + multiset(f(xs[k]))
  {
    var init := xs[..|xs| - 1];
    var without := xs[..k] + xs[k + 1..];
    if k == |xs| - 1 {
      assert without == init;
    } else {
      TakeOut(init, k, f);
      assert without[..|without| - 1] == init[..k] + init[k + 1..];
    }
  }

  /** The order of the elements only affects the order of what is collected. */
  lemma {:induction false} OrderIsIrrelevant<X, T>(xs: seq<X>, shuffled: seq<X>, f: X -> seq<T>)
    requires multiset(xs) == multiset(shuffled)
    ensures multiset(Collect(xs, f)) == multiset(Collect(shuffled, f))
    decreases |xs|
  {
    if xs == [] {
      assert |shuffled| == |multiset(shuffled)| == 0;
    } else {
      var last := Last(xs);
      assert last in multiset(shuffled);
      var k :| 0 <= k < |shuffled| && shuffled[k] == last;
      var init, rest := xs[..|xs| - 1], shuffled[..k] + shuffled[k + 1..];
      assert xs == init + [last];
      assert shuffled == shuffled[..k] + [last] + shuffled[k + 1..];
      assert multiset(xs) == multiset(init) + multiset{last};
      assert multiset(shuffled) == multiset(rest) + multiset{last};
      assert multiset(init) == multiset(xs) - multiset{last} == multiset(rest);
      OrderIsIrrelevant(init, rest, f);
      TakeOut(shuffled, k, f);
    }
  }

  /** What a loop that updates one state for each `x` leaves. */
  function Fold<S, X>(init: S, xs: seq<X>, step: (S, X) -> S): S {
    if xs == [] then init else step(Fold(init, xs[..|xs| - 1], step), Last(xs))
  }

  /** What one step keeps, the whole loop keeps. */
  lemma {:induction false} FoldKeeps<S, X>(init: S, xs: seq<X>, step: (S, X) -> S, inv: S -> bool)
    requires inv(init)
    requires forall s, i :: 0 <= i < |xs| && inv(s) ==> inv(step(s, xs[i]))
    ensures inv(Fold(init, xs, step))
  {
    if xs != [] {
      var n := |xs| - 1;
      FoldKeeps(init, xs[..n], step, inv);
      assert inv(step(Fold(init, xs[..n], step), xs[n]));
    }
  }

  lemma FoldOne<S, X>(init: S, x: X, step: (S, X) -> S)
    ensures Fold(init, [x], step) == step(init, x)
  {
    assert [x][..0] == [];
  }

  lemma {:induction false} FoldConcat<S, X>(init: S, a: seq<X>, b: seq<X>, step: (S, X) -> S)
    ensures Fold(init, a + b, step) == Fold(Fold(init, a, step), b, step)
  {
    if b == [] {
      assert a + b == a;
    } else {
      var c := a + b;
      assert c[..|c| - 1] == a + b[..|b| - 1];
      FoldConcat(init, a, b[..|b| - 1], step);
    }
  }

  lemma {:induction false} FoldTogether<S, X, Y>(init: S, xs: seq<X>, f: (S, X) -> S, ys: seq<Y>, g: (S, Y) -> S)
    requires |xs| == |ys|
    requires forall s, i :: 0 <= i < |xs| ==> f(s, xs[i]) == g(s, ys[i])
    ensures Fold(init, xs, f) == Fold(init, ys, g)
  {
    if xs != [] {
      FoldTogether(init, xs[..|xs| - 1], f, ys[..|ys| - 1], g);
    }
  }

  /** `any(p(x) for x in xs)` */
  predicate Any<X>(xs: seq<X>, p: X -> bool) {
    exists i :: 0 <= i < |xs| && p(xs[i])
  }

  lemma AnySoFar<X>(xs: seq<X>, i: nat, p: X -> bool)
    requires i < |xs|
    ensures Any(xs[..i + 1], p) <==> Any(xs[..i], p) || p(xs[i])
    ensures p(xs[i]) ==> Any(xs, p)
  {
    var before, after := xs[..i], xs[..i + 1];
    assert forall j :: 0 <= j < i ==> after[j] == before[j];
    assert after[i] == xs[i];
  }

  lemma AnyIgnoresOrder<X>(xs: seq<X>, shuffled: seq<X>, p: X -> bool)
    requires multiset(xs) == multiset(shuffled)
    ensures Any(xs, p) <==> Any(shuffled, p)
  {
    AnyCarriesOver(xs, shuffled, p);
    AnyCarriesOver(shuffled, xs, p);
  }

  lemma AnyCarriesOver<X>(xs: seq<X>, shuffled: seq<X>, p: X -> bool)
    requires multiset(xs) == multiset(shuffled)
    ensures Any(xs, p) ==> Any(shuffled, p)
  {
    if Any(xs, p) {
      var i :| 0 <= i < |xs| && p(xs[i]);
      assert xs[i] in multiset(xs) && xs[i] in shuffled;
    }
  }
}
