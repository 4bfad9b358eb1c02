/** Loops over a sequence as left folds. */
module Folds {

  function FoldLeft<S, L>(step: (S, L) -> S, items: seq<L>, s: S): S {
    if items == [] then s else step(FoldLeft(step, items[..|items| - 1], s), items[|items| - 1])
  }

  lemma FoldSnoc<S, L>(step: (S, L) -> S, items: seq<L>, item: L, s: S)
    ensures FoldLeft(step, items + [item], s) == step(FoldLeft(step, items, s), item)
  {
    assert (items + [item])[..|items|] == items;
  }

  lemma {:induction false} FoldConcat<S, L>(step: (S, L) -> S, a: seq<L>, b: seq<L>, s: S)
    ensures FoldLeft(step, a + b, s) == FoldLeft(step, b, FoldLeft(step, a, s))
  {
    if b == [] {
      assert a + b == a;
    } else {
      FoldConcat(step, a, b[..|b| - 1], s);
      assert (a + b)[..|a + b| - 1] == a + b[..|b| - 1];
    }
  }

  lemma FoldFour<S, L>(step: (S, L) -> S, items: seq<L>, a: L, b: L, c: L, d: L, s: S)
    ensures FoldLeft(step, items + [a, b, c, d], s) == step(step(step(step(FoldLeft(step, items, s), a), b), c), d)
  {
    FoldSnoc(step, items, a, s);
    FoldSnoc(step, items + [a], b, s);
    FoldSnoc(step, items + [a] + [b], c, s);
    FoldSnoc(step, items + [a] + [b] + [c], d, s);
    assert items + [a, b, c, d] == items + [a] + [b] + [c] + [d];
  }
}
