/** An optional value, and what a history of actions makes of a state. */
module Common {

  datatype Option<+T> = None | Some(value: T)

  /** The state after a sequence of actions, the last one applied last. */
  function Fold<S, A>(step: (S, A) -> S, s: S, actions: seq<A>): S {
    if actions == [] then s else step(Fold(step, s, actions[..|actions| - 1]), actions[|actions| - 1])
  }

  lemma FoldOne<S, A>(step: (S, A) -> S, s: S, a: A)
    ensures Fold(step, s, [a]) == step(s, a)
  {
    assert [a][..0] == [];
  }

  lemma FoldTwo<S, A>(step: (S, A) -> S, s: S, a: A, b: A)
    ensures Fold(step, s, [a, b]) == step(step(s, a), b)
  {
    assert [a, b][..1] == [a];
    FoldOne(step, s, a);
  }

  lemma FoldThree<S, A>(step: (S, A) -> S, s: S, a: A, b: A, c: A)
    ensures Fold(step, s, [a, b, c]) == step(step(step(s, a), b), c)
  {
    assert [a, b, c][..2] == [a, b];
    FoldTwo(step, s, a, b);
  }

  lemma {:induction false} FoldAppend<S, A>(step: (S, A) -> S, s: S, before: seq<A>, after: seq<A>)
    ensures Fold(step, s, before + after) == Fold(step, Fold(step, s, before), after)
  {
    if after == [] {
      assert before + after == before;
    } else {
      var n := |after| - 1;
      FoldAppend(step, s, before, after[..n]);
      assert (before + after)[..|before| + n] == before + after[..n];
    }
  }
}
