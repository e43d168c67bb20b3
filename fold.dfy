/** A step applied to a list of grid cells one after the other, and the
    chains of intermediate states such a run passes through. */
module Folds {

  /** The state reached from st by stepping through the cells in order. */
  function Fold<S>(step: (S, (int, int)) -> S, st: S, cells: seq<(int, int)>): S
    decreases |cells|
  {
    if cells == [] then st else step(Fold(step, st, cells[..|cells| - 1]), cells[|cells| - 1])
  }

  /** The lists of cells one after the other. */
  function Concat<T>(blocks: seq<seq<T>>): seq<T>
    decreases |blocks|
  {
    if blocks == [] then [] else Concat(blocks[..|blocks| - 1]) + blocks[|blocks| - 1]
  }

  /** states runs through cells: each state is the step of the previous one
      over the next cell. */
  ghost predicate Chain<S>(step: (S, (int, int)) -> S, states: seq<S>, cells: seq<(int, int)>)
  {
    && |states| == |cells| + 1
    && forall k {:trigger cells[k]} :: 0 <= k < |cells| ==> states[k + 1] == step(states[k], cells[k])
  }

  /** Stepping through a list of four cells. */
  lemma FoldFour<S>(step: (S, (int, int)) -> S, st: S, c1: (int, int), c2: (int, int), c3: (int, int), c4: (int, int))
    ensures Fold(step, st, [c1, c2, c3, c4]) == step(step(step(step(st, c1), c2), c3), c4)
  {
    assert [c1][..0] == [];
    assert Fold(step, st, [c1]) == step(st, c1);
    assert [c1, c2][..1] == [c1];
    assert Fold(step, st, [c1, c2]) == step(step(st, c1), c2);
    assert [c1, c2, c3][..2] == [c1, c2];
    assert Fold(step, st, [c1, c2, c3]) == step(step(step(st, c1), c2), c3);
    assert [c1, c2, c3, c4][..3] == [c1, c2, c3];
  }

  /** Stepping through two lists of cells one after the other is stepping
      through their concatenation. */
  lemma {:induction false} FoldAppend<S>(step: (S, (int, int)) -> S, st: S, u: seq<(int, int)>, v: seq<(int, int)>)
    ensures Fold(step, st, u + v) == Fold(step, Fold(step, st, u), v)
    decreases |v|
  {
    if v == [] {
      assert u + v == u;
    } else {
      var v' := v[..|v| - 1];
      FoldAppend(step, st, u, v');
      assert (u + v)[..|u + v| - 1] == u + v';
    }
  }

  /** The states a run passes through, from st to the state after the last
      cell. */
  lemma {:induction false} FoldStates<S>(step: (S, (int, int)) -> S, st: S, cells: seq<(int, int)>)
    returns (states: seq<S>)
    ensures Chain(step, states, cells)
    ensures states[0] == st && states[|cells|] == Fold(step, st, cells)
    decreases |cells|
  {
    if cells == [] {
      states := [st];
    } else {
      var n := |cells| - 1;
      var prev := FoldStates(step, st, cells[..n]);
      states := prev + [Fold(step, st, cells)];
      forall k | 0 <= k < |cells|
        ensures states[k + 1] == step(states[k], cells[k])
      {
        if k < n {
          assert cells[..n][k] == cells[k];
        }
      }
    }
  }

  /** The states a run over a list of blocks of cells passes through: ds
      holds the state at the start of each block and after the last, and
      chains[i] the states within block i. */
  lemma {:induction false} FoldBlocks<S>(step: (S, (int, int)) -> S, st: S, blocks: seq<seq<(int, int)>>)
    returns (ds: seq<S>, chains: seq<seq<S>>)
    ensures |ds| == |blocks| + 1 && |chains| == |blocks|
    ensures ds[0] == st && ds[|blocks|] == Fold(step, st, Concat(blocks))
    ensures forall i :: 0 <= i < |blocks| ==>
      && Chain(step, chains[i], blocks[i])
      && chains[i][0] == ds[i]
      && chains[i][|blocks[i]|] == ds[i + 1]
      && ds[i + 1] == Fold(step, ds[i], blocks[i])
    decreases |blocks|
  {
    if blocks == [] {
      ds, chains := [st], [];
    } else {
      var n := |blocks| - 1;
      var ds', chains' := FoldBlocks(step, st, blocks[..n]);
      var c := FoldStates(step, ds'[n], blocks[n]);
      FoldAppend(step, st, Concat(blocks[..n]), blocks[n]);
      ds, chains := ds' + [c[|blocks[n]|]], chains' + [c];
      forall i | 0 <= i < |blocks|
        ensures Chain(step, chains[i], blocks[i])
        ensures chains[i][0] == ds[i] && chains[i][|blocks[i]|] == ds[i + 1]
        ensures ds[i + 1] == Fold(step, ds[i], blocks[i])
      {
        if i < n {
          assert blocks[..n][i] == blocks[i];
        }
      }
    }
  }
}
