/** Left folds over a sequence: the shape of every digest, MAC and shift-register loop. */
module Folds {

  function Fold<S, T>(f: (S, T) -> S, s: S, xs: seq<T>): S
    decreases |xs|
  {
    if xs == [] then s else Fold(f, f(s, xs[0]), xs[1..])
  }

  /** Feeding a + b is feeding a, then b. */
  lemma {:induction false} FoldAppend<S, T>(f: (S, T) -> S, s: S, a: seq<T>, b: seq<T>)
    ensures Fold(f, s, a + b) == Fold(f, Fold(f, s, a), b)
    decreases |a|
  {
    if a == [] {
      assert a + b == b;
    } else {
      assert (a + b)[1..] == a[1..] + b;
      FoldAppend(f, f(s, a[0]), a[1..], b);
    }
  }

  lemma FoldOne<S, T>(f: (S, T) -> S, s: S, x: T)
    ensures Fold(f, s, [x]) == f(s, x)
  {
    assert [x][1..] == [];
    assert Fold(f, f(s, x), []) == f(s, x);
  }

  lemma FoldTwo<S, T>(f: (S, T) -> S, s: S, x: T, y: T)
    ensures Fold(f, s, [x, y]) == f(f(s, x), y)
  {
    assert [x, y][1..] == [y];
    FoldOne(f, f(s, x), y);
  }

  /** The step a loop takes from prefix i to prefix i + 1. */
  lemma FoldSnoc<S, T>(f: (S, T) -> S, s: S, xs: seq<T>, i: nat)
    requires i < |xs|
    ensures Fold(f, s, xs[..i + 1]) == f(Fold(f, s, xs[..i]), xs[i])
  {
    var one := [xs[i]];
    assert xs[..i + 1] == xs[..i] + one;
    FoldAppend(f, s, xs[..i], one);
    FoldOne(f, Fold(f, s, xs[..i]), xs[i]);
  }

  /** When every step is injective in the state, so is the whole run. */
  lemma {:induction false} FoldInjective<S(!new), T(!new)>(f: (S, T) -> S, s: S, t: S, xs: seq<T>)
    requires forall a, b, x :: f(a, x) == f(b, x) ==> a == b
    requires Fold(f, s, xs) == Fold(f, t, xs)
    ensures s == t
    decreases |xs|
  {
    if xs != [] {
      FoldInjective(f, f(s, xs[0]), f(t, xs[0]), xs[1..]);
    }
  }

  /** A run cut into pieces. */
  function FoldChunks<S, T>(f: (S, T) -> S, s: S, chunks: seq<seq<T>>): S
    decreases |chunks|
  {
    if chunks == [] then s else FoldChunks(f, Fold(f, s, chunks[0]), chunks[1..])
  }

  function Flatten<T>(chunks: seq<seq<T>>): seq<T> {
    if chunks == [] then [] else chunks[0] + Flatten(chunks[1..])
  }

  /** The way the input is cut into pieces does not matter. */
  lemma {:induction false} ChunkingIrrelevant<S, T>(f: (S, T) -> S, s: S, chunks: seq<seq<T>>)
    ensures FoldChunks(f, s, chunks) == Fold(f, s, Flatten(chunks))
    decreases |chunks|
  {
    if chunks != [] {
      ChunkingIrrelevant(f, Fold(f, s, chunks[0]), chunks[1..]);
      FoldAppend(f, s, chunks[0], Flatten(chunks[1..]));
    }
  }

  lemma {:induction false} FlattenSnoc<T>(chunks: seq<seq<T>>, i: nat)
    requires i < |chunks|
    ensures Flatten(chunks[..i + 1]) == Flatten(chunks[..i]) + chunks[i]
    decreases i
  {
    assert chunks[..i + 1][0] == chunks[0] && chunks[..i + 1][1..] == chunks[1..][..i];
    if i > 0 {
      assert chunks[..i][0] == chunks[0] && chunks[..i][1..] == chunks[1..][..i - 1];
      FlattenSnoc(chunks[1..], i - 1);
    }
  }

  lemma FoldChunksSnoc<S, T>(f: (S, T) -> S, s: S, chunks: seq<seq<T>>, i: nat)
    requires i < |chunks|
    ensures FoldChunks(f, s, chunks[..i + 1]) == Fold(f, FoldChunks(f, s, chunks[..i]), chunks[i])
  {
    ChunkingIrrelevant(f, s, chunks[..i + 1]);
    ChunkingIrrelevant(f, s, chunks[..i]);
    FlattenSnoc(chunks, i);
    FoldAppend(f, s, Flatten(chunks[..i]), chunks[i]);
  }

  // ----- iteration ------------------------------------------------------------------

  function Iterate<S>(f: S -> S, s: S, n: nat): S
    decreases n
  {
    if n == 0 then s else Iterate(f, f(s), n - 1)
  }

  lemma {:induction false} IterateInjective<S(!new)>(f: S -> S, s: S, t: S, n: nat)
    requires forall a, b :: f(a) == f(b) ==> a == b
    requires Iterate(f, s, n) == Iterate(f, t, n)
    ensures s == t
    decreases n
  {
    if n > 0 {
      IterateInjective(f, f(s), f(t), n - 1);
    }
  }

  lemma {:induction false} IterateAdd<S>(f: S -> S, s: S, m: nat, n: nat)
    ensures Iterate(f, s, m + n) == Iterate(f, Iterate(f, s, m), n)
    decreases m
  {
    if m > 0 {
      IterateAdd(f, f(s), m - 1, n);
    }
  }

  /** A map that commutes with an operation still does so after n applications. */
  lemma {:induction false} IterateHomomorphic<S(!new)>(f: S -> S, op: (S, S) -> S, s: S, t: S, n: nat)
    requires forall a, b :: f(op(a, b)) == op(f(a), f(b))
    ensures Iterate(f, op(s, t), n) == op(Iterate(f, s, n), Iterate(f, t, n))
    decreases n
  {
    if n > 0 {
      IterateHomomorphic(f, op, f(s), f(t), n - 1);
    }
  }

  lemma IterateFour<S>(f: S -> S, s: S)
    ensures Iterate(f, s, 4) == f(f(f(f(s))))
  {
    assert Iterate(f, f(f(s)), 2) == f(f(f(f(s))));
  }

  lemma IterateEight<S>(f: S -> S, s: S)
    ensures Iterate(f, s, 8) == f(f(f(f(f(f(f(f(s))))))))
  {
    var t := f(f(f(f(s))));
    assert Iterate(f, s, 8) == Iterate(f, t, 4);
    assert Iterate(f, t, 4) == f(f(f(f(t))));
  }
}
