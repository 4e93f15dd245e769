/**
 * The party table shared by every page: a party row, the update request the
 * client pages send to the table, and the vote total that three pages compute
 * with the same `reduce`.
 */
module Parties {

  /** One row of the party table. `votes` is the counter the pages read and write. */
  datatype Party = Party(
    id: string,
    name: string,
    symbol: string,
    color: string,
    description: string,
    votes: int)

  /**
   * The one kind of write the client pages send to the table: set the vote
   * counter of the row whose id is `id` to `votes`. The vote page sends its
   * snapshot's count plus one; the admin page sends zero.
   */
  datatype Request = SetVotes(id: string, votes: int)

  /** `parties.reduce((sum, p) => sum + p.votes, 0)`: a left fold from 0. */
  function TotalVotes(ps: seq<Party>): int
  {
    if ps == [] then 0 else TotalVotes(ps[..|ps| - 1]) + ps[|ps| - 1].votes
  }

  predicate NonNegativeVotes(ps: seq<Party>)
  {
    forall i :: 0 <= i < |ps| ==> ps[i].votes >= 0
  }

  /** The total splits over concatenation, so the fold order does not matter. */
  lemma {:induction false} TotalVotesAppend(a: seq<Party>, b: seq<Party>)
    ensures TotalVotes(a + b) == TotalVotes(a) + TotalVotes(b)
    decreases |b|
  {
    if b == [] {
      assert a + b == a;
    } else {
      assert (a + b)[..|a + b| - 1] == a + b[..|b| - 1];
      TotalVotesAppend(a, b[..|b| - 1]);
    }
  }

  /** With non-negative counters the total is non-negative and bounds every party's count. */
  lemma {:induction false} TotalVotesBounds(ps: seq<Party>)
    requires NonNegativeVotes(ps)
    ensures TotalVotes(ps) >= 0
    ensures forall k :: 0 <= k < |ps| ==> ps[k].votes <= TotalVotes(ps)
  {
    if ps != [] {
      var init := ps[..|ps| - 1];
      TotalVotesBounds(init);
      assert forall k :: 0 <= k < |init| ==> init[k] == ps[k];
    }
  }

  /** The table after the server applies one update request. */
  function Apply(table: seq<Party>, r: Request): seq<Party>
  {
    seq(|table|, i requires 0 <= i < |table| =>
      if table[i].id == r.id then table[i].(votes := r.votes) else table[i])
  }

  /** The table after the server applies a list of requests in order. */
  function ApplyAll(table: seq<Party>, rs: seq<Request>): seq<Party>
    decreases |rs|
  {
    if rs == [] then table else ApplyAll(Apply(table, rs[0]), rs[1..])
  }

  /** The ids a list of requests touches. */
  function Ids(rs: seq<Request>): set<string>
  {
    set r | r in rs :: r.id
  }

  /**
   * Applying requests that all set a counter to zero zeroes exactly the rows
   * whose id some request names, and changes no other field of any row.
   */
  lemma {:induction false} ApplyAllZeroes(table: seq<Party>, rs: seq<Request>)
    requires forall j :: 0 <= j < |rs| ==> rs[j].votes == 0
    ensures |ApplyAll(table, rs)| == |table|
    ensures forall i :: 0 <= i < |table| ==>
      ApplyAll(table, rs)[i] ==
        if table[i].id in Ids(rs) then table[i].(votes := 0) else table[i]
    decreases |rs|
  {
    if rs != [] {
      var t1 := Apply(table, rs[0]);
      ApplyAllZeroes(t1, rs[1..]);
      assert Ids(rs) == {rs[0].id} + Ids(rs[1..]) by {
        assert rs == [rs[0]] + rs[1..];
      }
    }
  }
}
