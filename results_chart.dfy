/**
 * The results chart: one bar per party, the vote total in the header, and
 * one summary card per party with its share of the total. Shares are exact
 * rationals; the page's one-decimal rounding is display formatting.
 */
module ResultsChart {
  import opened Parties

  /** One element of `chartData`: `{ name, votos, color }`. */
  datatype ChartEntry = ChartEntry(name: string, votos: int, color: string)

  /** One summary card: name, count and percentage of the total. */
  datatype SummaryCard = SummaryCard(name: string, votes: int, share: real, color: string)

  /** `parties.map(party => ({ name: party.name, votos: party.votes, color: party.color }))`. */
  function ChartData(ps: seq<Party>): seq<ChartEntry>
  {
    seq(|ps|, i requires 0 <= i < |ps| => ChartEntry(ps[i].name, ps[i].votes, ps[i].color))
  }

  /** The sum of the bars' heights. */
  function ChartTotal(entries: seq<ChartEntry>): int
  {
    if entries == [] then 0
    else ChartTotal(entries[..|entries| - 1]) + entries[|entries| - 1].votos
  }

  /** The bars add up to the header's `totalVotes`. */
  lemma {:induction false} ChartTotalIsTotalVotes(ps: seq<Party>)
    ensures |ChartData(ps)| == |ps|
    ensures ChartTotal(ChartData(ps)) == TotalVotes(ps)
  {
    if ps != [] {
      var init := ps[..|ps| - 1];
      ChartTotalIsTotalVotes(init);
      assert ChartData(ps)[..|ps| - 1] == ChartData(init);
    }
  }

  /** A count's percentage of the total: `(votes / total) * 100`, or 0 when the total is not positive. */
  function Share(votes: int, total: int): (r: real)
    ensures total <= 0 ==> r == 0.0
    ensures 0 <= votes <= total ==> 0.0 <= r <= 100.0
    ensures 0 < total == votes ==> r == 100.0
  {
    if total > 0 then
      var q := votes as real / total as real;
      assert 0 <= votes <= total ==> 0.0 <= q <= 1.0 by {
        assert q * total as real == votes as real;
      }
      q * 100.0
    else 0.0
  }

  /** The summary cards with every share taken of a given total. */
  function CardsAgainst(ps: seq<Party>, total: int): seq<SummaryCard>
  {
    seq(|ps|, i requires 0 <= i < |ps| =>
      SummaryCard(ps[i].name, ps[i].votes, Share(ps[i].votes, total), ps[i].color))
  }

  /** `parties.map(...)` rendering the summary cards, each share taken of the list's total. */
  function SummaryCards(ps: seq<Party>): seq<SummaryCard>
  {
    CardsAgainst(ps, TotalVotes(ps))
  }

  function SumShares(cards: seq<SummaryCard>): real
  {
    if cards == [] then 0.0 else SumShares(cards[..|cards| - 1]) + cards[|cards| - 1].share
  }

  /**
   * Two shares of one total add up to the share of their sum. Kept apart from
   * the induction below, whose context makes this real-arithmetic step costly.
   */
  lemma SharesAdd(a: int, v: int, total: int)
    requires total > 0
    ensures (a as real / total as real) * 100.0 + (v as real / total as real) * 100.0
      == ((a + v) as real / total as real) * 100.0
  {
  }

  /** A total's share of itself is 100. */
  lemma WholeShare(total: int)
    requires total > 0
    ensures (total as real / total as real) * 100.0 == 100.0
  {
  }

  /** Shares taken against a fixed positive total add up to the list's own share of it. */
  lemma {:induction false} SumSharesAgainst(ps: seq<Party>, total: int)
    requires total > 0
    ensures SumShares(CardsAgainst(ps, total)) == (TotalVotes(ps) as real / total as real) * 100.0
  {
    if ps != [] {
      var init := ps[..|ps| - 1];
      var cards := CardsAgainst(ps, total);
      SumSharesAgainst(init, total);
      assert cards[..|cards| - 1] == CardsAgainst(init, total);
      SharesAdd(TotalVotes(init), ps[|ps| - 1].votes, total);
    }
  }

  /** Each card shows its party's name and count, and a share within [0, 100]. */
  lemma CardFacts(ps: seq<Party>, i: nat)
    requires NonNegativeVotes(ps) && i < |ps|
    ensures |SummaryCards(ps)| == |ps|
    ensures SummaryCards(ps)[i].name == ps[i].name && SummaryCards(ps)[i].votes == ps[i].votes
    ensures 0.0 <= SummaryCards(ps)[i].share <= 100.0
    ensures TotalVotes(ps) == 0 ==> SummaryCards(ps)[i].share == 0.0
  {
    TotalVotesBounds(ps);
  }

  /**
   * Exactly one card per party, in list order, showing its name and count;
   * with non-negative counts every share is within [0, 100], and when any
   * vote was cast the shares add up to 100.
   */
  lemma SummaryCardsFacts(ps: seq<Party>)
    requires NonNegativeVotes(ps)
    ensures |SummaryCards(ps)| == |ps|
    ensures forall i :: 0 <= i < |ps| ==>
      SummaryCards(ps)[i].name == ps[i].name && SummaryCards(ps)[i].votes == ps[i].votes
      && 0.0 <= SummaryCards(ps)[i].share <= 100.0
    ensures TotalVotes(ps) > 0 ==> SumShares(SummaryCards(ps)) == 100.0
    ensures TotalVotes(ps) == 0 ==> forall i :: 0 <= i < |ps| ==> SummaryCards(ps)[i].share == 0.0
  {
    forall i | 0 <= i < |ps|
      ensures SummaryCards(ps)[i].name == ps[i].name && SummaryCards(ps)[i].votes == ps[i].votes
      ensures 0.0 <= SummaryCards(ps)[i].share <= 100.0
    {
      CardFacts(ps, i);
    }
    if TotalVotes(ps) == 0 {
      forall i | 0 <= i < |ps|
        ensures SummaryCards(ps)[i].share == 0.0
      {
        CardFacts(ps, i);
      }
    }
    if TotalVotes(ps) > 0 {
      SumSharesAgainst(ps, TotalVotes(ps));
      WholeShare(TotalVotes(ps));
    }
  }
}
