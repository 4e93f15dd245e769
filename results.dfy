/**
 * The live results page: the vote total and the leading party, each a
 * `reduce` over the party list, and whether the leader card is shown.
 */
module Results {
  import opened Wrappers
  import opened Parties

  /**
   * Index of the leader that `reduce((max, p) => p.votes > max.votes ? p : max, { votes: 0 })`
   * returns; `None` when the `{ votes: 0 }` sentinel survives the fold. The
   * comparison is strict, so ties go to the earliest party, and a party needs
   * more than 0 votes to displace the sentinel.
   */
  function LeaderIndex(ps: seq<Party>): (r: Option<nat>)
    ensures r.Some? ==> r.value < |ps| && ps[r.value].votes > 0
    ensures r.Some? ==> forall j :: 0 <= j < |ps| ==> ps[j].votes <= ps[r.value].votes
    ensures r.Some? ==> forall j :: 0 <= j < r.value ==> ps[j].votes < ps[r.value].votes
    ensures r.None? <==> forall j :: 0 <= j < |ps| ==> ps[j].votes <= 0
  {
    if ps == [] then None
    else
      var acc := LeaderIndex(ps[..|ps| - 1]);
      var accVotes := if acc.None? then 0 else ps[acc.value].votes;
      if ps[|ps| - 1].votes > accVotes then Some(|ps| - 1) else acc
  }

  /** `leader.votes`: the leader's count, or the sentinel's 0; that is, the larger of 0 and every count. */
  function LeaderVotes(ps: seq<Party>): (r: int)
    ensures r >= 0
    ensures forall j :: 0 <= j < |ps| ==> ps[j].votes <= r
    ensures r == 0 || exists j :: 0 <= j < |ps| && ps[j].votes == r
  {
    match LeaderIndex(ps)
    case None => 0
    case Some(i) => ps[i].votes
  }

  /** `leader.votes > 0 && <leader card>`. */
  predicate LeaderCardShown(ps: seq<Party>)
  {
    LeaderVotes(ps) > 0
  }

  /** The leader card appears exactly when some party has a positive count. */
  lemma LeaderCardShownIff(ps: seq<Party>)
    ensures LeaderCardShown(ps) <==> exists j :: 0 <= j < |ps| && ps[j].votes > 0
  {
    if LeaderIndex(ps).None? {
      assert forall j :: 0 <= j < |ps| ==> ps[j].votes <= 0;
    }
  }

  /** For non-negative counts the leader's count lies between 0 and the total. */
  lemma LeaderAtMostTotal(ps: seq<Party>)
    requires NonNegativeVotes(ps)
    ensures 0 <= LeaderVotes(ps) <= TotalVotes(ps)
  {
    TotalVotesBounds(ps);
  }

  /** Two parties tied on 3 votes: the first one leads. */
  lemma TieGoesToEarliest(a: Party, b: Party)
    requires a.votes == 3 && b.votes == 3
    ensures LeaderIndex([a, b]) == Some(0)
  {
    assert [a, b][..1] == [a];
    assert [a][..0] == [];
  }
}
