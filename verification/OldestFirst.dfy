/** The ORDER BY ... LIMIT of the two claim queries: the oldest eligible rows, in order, up to a limit. */
module OldestFirst {
  predicate Distinct(s: seq<nat>) { forall i, j :: 0 <= i < j < |s| ==> s[i] != s[j] }

  predicate Oldest(eligible: map<nat, int>, limit: nat, chosen: seq<nat>) {
    && |chosen| <= limit && Distinct(chosen)
    && (forall id :: id in chosen ==> id in eligible)
    && (forall i, j :: 0 <= i < j < |chosen| && chosen[i] in eligible && chosen[j] in eligible ==> eligible[chosen[i]] <= eligible[chosen[j]])
    && forall id :: id in eligible && id !in chosen ==>
         |chosen| == limit && forall i :: 0 <= i < |chosen| ==> chosen[i] in eligible && eligible[chosen[i]] <= eligible[id]
  }

  /** `eligible` maps each eligible row to the time it is ordered by. */
  method Pick(eligible: map<nat, int>, limit: nat) returns (chosen: seq<nat>)
    ensures Oldest(eligible, limit, chosen)
  {
    var rest := eligible.Keys;
    chosen := [];
    while rest != {} && |chosen| < limit
      invariant |chosen| <= limit && Distinct(chosen)
      invariant forall id :: id in chosen ==> id in eligible
      invariant forall id :: id in rest <==> id in eligible && id !in chosen
      invariant forall i, j :: 0 <= i < j < |chosen| ==> eligible[chosen[i]] <= eligible[chosen[j]]
      invariant forall i, id :: 0 <= i < |chosen| && id in rest ==> eligible[chosen[i]] <= eligible[id]
      decreases |rest|
    {
      var next := Earliest(eligible, rest);
      rest := rest - {next};
      chosen := chosen + [next];
    }
  }

  method Earliest(at: map<nat, int>, candidates: set<nat>) returns (best: nat)
    requires candidates != {} && candidates <= at.Keys
    ensures best in candidates && forall id :: id in candidates ==> at[best] <= at[id]
  {
    best :| best in candidates;
    var rest := candidates - {best};
    while rest != {}
      invariant rest <= candidates && best in candidates
      invariant forall id :: id in candidates - rest ==> at[best] <= at[id]
      decreases |rest|
    {
      var id :| id in rest;
      rest := rest - {id};
      if at[id] < at[best] { best := id; }
    }
  }
}
