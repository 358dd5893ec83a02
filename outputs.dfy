/**
 * The output directory of main.go as a path-keyed tree. The build starts from
 * an empty directory and attaches one subtree per cell with WithDirectory.
 * The tree maps each written path to the directory handle last attached
 * there: a later write to a path takes the place of the earlier one (the
 * contents of the two directories are not merged). Overlay gives the tree
 * after a sequence of such writes.
 */
module Outputs {

  /** One WithDirectory call: attach `dir` at `path`. */
  datatype Write<D> = Write(path: string, dir: D)

  /** The tree left by applying `writes` in order to an empty directory. */
  function Overlay<D>(writes: seq<Write<D>>): map<string, D>
  {
    if writes == [] then map[]
    else Overlay(writes[..|writes| - 1])[writes[|writes| - 1].path := writes[|writes| - 1].dir]
  }

  /** The tree holds exactly the paths that were written. */
  lemma {:induction false} OverlayKeys<D>(writes: seq<Write<D>>)
    ensures Overlay(writes).Keys == set w | w in writes :: w.path
  {
    if writes != [] {
      var init := writes[..|writes| - 1];
      OverlayKeys(init);
      assert writes == init + [writes[|writes| - 1]];
    }
  }

  /** A write that no later write overrides is what the tree holds at its path. */
  lemma {:induction false} OverlayLastWins<D>(writes: seq<Write<D>>, j: nat)
    requires j < |writes|
    requires forall i :: j < i < |writes| ==> writes[i].path != writes[j].path
    ensures writes[j].path in Overlay(writes) && Overlay(writes)[writes[j].path] == writes[j].dir
  {
    var last := |writes| - 1;
    if j < last {
      OverlayLastWins(writes[..last], j);
    }
  }

  /** Whatever the tree holds at a path was written there by some write. */
  lemma {:induction false} OverlayFrom<D>(writes: seq<Write<D>>, path: string)
    requires path in Overlay(writes)
    ensures Write(path, Overlay(writes)[path]) in writes
  {
    var last := |writes| - 1;
    if writes[last].path != path {
      OverlayFrom(writes[..last], path);
      assert writes[..last] <= writes;
    }
  }

  /** Writing ys after xs gives xs's tree overridden by ys's. */
  lemma {:induction false} OverlayAppend<D>(xs: seq<Write<D>>, ys: seq<Write<D>>)
    ensures Overlay(xs + ys) == Overlay(xs) + Overlay(ys)
  {
    if ys != [] {
      var init := ys[..|ys| - 1];
      OverlayAppend(xs, init);
      assert (xs + ys)[..|xs + ys| - 1] == xs + init;
    } else {
      assert xs + ys == xs;
    }
  }
}
