/** What the idle reaper's passes say about a worker. */
module Idleness {
  import opened Options
  import opened Budgets

  /** One reaper pass: when it was made, and the workers it found idle. */
  datatype Pass = Pass(at: real, idle: set<WorkerId>)

  /** The time of the first pass of a worker's current unbroken idle streak. */
  function StreakStart(passes: seq<Pass>, w: WorkerId): Option<real> {
    if passes == [] then None
    else
      var last := passes[|passes| - 1];
      if w !in last.idle then None
      else
        var before := StreakStart(passes[..|passes| - 1], w);
        if before.Some? then before else Some(last.at)
  }

  /** Pass `first` begins the streak of passes up to the latest one that all found the worker idle. */
  predicate Streak(passes: seq<Pass>, w: WorkerId, first: nat) {
    && first < |passes|
    && (forall k :: first <= k < |passes| ==> w in passes[k].idle)
    && (first > 0 ==> w !in passes[first - 1].idle)
  }

  /** There is a streak exactly when the latest pass found the worker idle, and its start is where the one streak begins. */
  lemma {:induction false} StreakStartBegins(passes: seq<Pass>, w: WorkerId) returns (first: nat)
    ensures StreakStart(passes, w).Some? <==> passes != [] && w in passes[|passes| - 1].idle
    ensures StreakStart(passes, w).Some? ==> Streak(passes, w, first) && StreakStart(passes, w).value == passes[first].at
    ensures forall other: nat :: Streak(passes, w, other) ==> other == first
  {
    first := 0;
    if passes != [] && w in passes[|passes| - 1].idle {
      var before := passes[..|passes| - 1];
      first := StreakStartBegins(before, w);
      if StreakStart(before, w).None? {
        first := |passes| - 1;
      }
    }
  }

  lemma {:induction false} StreakStartStep(passes: seq<Pass>, p: Pass, w: WorkerId)
    ensures StreakStart(passes + [p], w)
         == if w !in p.idle then None else if StreakStart(passes, w).Some? then StreakStart(passes, w) else Some(p.at)
  {
    assert (passes + [p])[..|passes|] == passes;
  }
}
