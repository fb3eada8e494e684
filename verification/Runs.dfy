/** Runs of ids standing one behind the other in a list of ids. */
module Runs {
  ghost predicate StandsAt(ids: seq<nat>, run: seq<nat>, from: nat, to: nat) {
    from <= to <= |ids| && ids[from..to] == run
  }

  /** The runs stand one behind the other, cut at `cuts`, and nothing else stands in `ids`. */
  ghost predicate LaidOut(ids: seq<nat>, runs: seq<seq<nat>>, cuts: seq<nat>) {
    && |cuts| == |runs| + 1 && cuts[0] == 0 && cuts[|runs|] == |ids|
    && forall i {:trigger runs[i]} :: 0 <= i < |runs| ==> StandsAt(ids, runs[i], cuts[i], cuts[i + 1])
  }

  lemma RunAppended(ids: seq<nat>, runs: seq<seq<nat>>, cuts: seq<nat>, run: seq<nat>)
    requires LaidOut(ids, runs, cuts)
    ensures LaidOut(ids + run, runs + [run], cuts + [|ids| + |run|])
  {
    var all, rows, ends := ids + run, runs + [run], cuts + [|ids| + |run|];
    forall i {:trigger ends[i]} | 0 <= i < |rows| ensures StandsAt(all, rows[i], ends[i], ends[i + 1]) {
      if i < |runs| {
        assert StandsAt(ids, runs[i], cuts[i], cuts[i + 1]);
        assert all[cuts[i]..cuts[i + 1]] == ids[cuts[i]..cuts[i + 1]];
      }
    }
  }
}
