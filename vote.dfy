/**
 * The voting page: a client-side re-vote cooldown and the submission of one
 * vote. The page keeps `voteLocked`, `countdown`, `selectedParty`,
 * `showSuccess` and the pending flag of its vote request; the browser keeps
 * the `lastVoteTime` mark across reloads. Time is integer milliseconds; the
 * one-second timer tick, the resolution of the vote request and the clock
 * reading are explicit inputs.
 */
module VotePage {
  import opened Wrappers
  import opened Parties

  const CooldownMs := 25000
  const CooldownSeconds := 25

  /**
   * The `lastVoteTime` slot as the page reads it: absent, the empty string,
   * text that `parseInt` turns into NaN, or a parsed millisecond count.
   */
  datatype Mark = Absent | Empty | NotANumber | Millis(ms: int)

  /** The two state fields the cooldown drives: `voteLocked` and `countdown`. */
  datatype Gate = Gate(locked: bool, countdown: int)

  /** The invariant the page keeps between the two fields. */
  predicate Consistent(g: Gate)
  {
    g.locked <==> g.countdown > 0
  }

  /** `Math.ceil(d / 1000)` for a positive number of milliseconds. */
  function CeilSeconds(d: int): (r: int)
    requires d > 0
    ensures r >= 1 && (r - 1) * 1000 < d <= r * 1000
  {
    (d + 999) / 1000
  }

  /**
   * The gate the mount effect leaves on a freshly rendered page (whose
   * initial state is unlocked with countdown 0). Only a parsed mark can lock;
   * an absent or empty mark fails the truthiness test and a NaN elapsed time
   * fails the `< 25000` comparison.
   */
  function MountGate(mark: Mark, now: int): (g: Gate)
    ensures Consistent(g)
    ensures g.locked <==> mark.Millis? && now - mark.ms < CooldownMs
    ensures g.locked ==>
      (g.countdown - 1) * 1000 < CooldownMs - (now - mark.ms) <= g.countdown * 1000
    ensures !g.locked ==> g.countdown == 0
  {
    match mark
    case Millis(t) =>
      var elapsed := now - t;
      if elapsed < CooldownMs then Gate(true, CeilSeconds(CooldownMs - elapsed))
      else Gate(false, 0)
    case _ => Gate(false, 0)
  }

  /**
   * One firing of the one-second timer. The timer is only armed while the
   * page is locked with a positive countdown; otherwise nothing happens.
   */
  function TickGate(g: Gate): (r: Gate)
    ensures Consistent(g) ==> Consistent(r)
    ensures g.locked && g.countdown > 0 ==>
      r.countdown == g.countdown - 1 && (r.locked <==> g.countdown != 1)
    ensures !(g.locked && g.countdown > 0) ==> r == g
  {
    if g.locked && g.countdown > 0 then
      Gate(if g.countdown == 1 then false else g.locked, g.countdown - 1)
    else g
  }

  /** The gate after `n` timer firings. */
  function Ticks(g: Gate, n: nat): Gate
    decreases n
  {
    if n == 0 then g else Ticks(TickGate(g), n - 1)
  }

  /**
   * A locked page stays locked for exactly `countdown` ticks, counting down
   * one per tick, and unlocks on the tick that takes the countdown from 1 to 0.
   */
  lemma {:induction false} UnlocksAfterCountdown(g: Gate, k: nat)
    requires Consistent(g) && g.locked
    requires k <= g.countdown
    ensures Ticks(g, k).countdown == g.countdown - k
    ensures Ticks(g, k).locked <==> k < g.countdown
    decreases k
  {
    if k > 0 && g.countdown > 1 {
      UnlocksAfterCountdown(TickGate(g), k - 1);
    }
  }

  /** A mark from the last 25 seconds locks with a countdown of 1 to 25 seconds. */
  lemma CountdownInRange(mark: Mark, now: int)
    requires mark.Millis? && 0 <= now - mark.ms < CooldownMs
    ensures MountGate(mark, now).locked
    ensures 1 <= MountGate(mark, now).countdown <= CooldownSeconds
  {
  }

  /** Exactly 25000 ms after the mark the page is already unlocked. */
  lemma UnlockedAtCooldown(t: int)
    ensures MountGate(Millis(t), t + CooldownMs) == Gate(false, 0)
  {
  }

  /**
   * A mark later than the clock still locks, with more than 25 seconds to
   * go: the page does not fail open on a mark from the future.
   */
  lemma FutureMarkLocks(mark: Mark, now: int)
    requires mark.Millis? && mark.ms > now
    ensures MountGate(mark, now).locked
    ensures MountGate(mark, now).countdown > CooldownSeconds
  {
  }

  /** The locked screen's progress bar, `((25 - countdown) / 25) * 100`, or 0 when unlocked. */
  function ProgressPercent(g: Gate): (p: real)
    ensures !g.locked ==> p == 0.0
    ensures g.locked && 0 <= g.countdown <= CooldownSeconds ==> 0.0 <= p <= 100.0
    ensures g.locked && g.countdown > CooldownSeconds ==> p < 0.0
  {
    if g.locked then ((CooldownSeconds - g.countdown) as real / CooldownSeconds as real) * 100.0
    else 0.0
  }

  /** Each tick that keeps the page locked moves the progress bar by 4 points. */
  lemma ProgressPerTick(g: Gate)
    requires g.locked && g.countdown > 1
    ensures ProgressPercent(TickGate(g)) == ProgressPercent(g) + 4.0
  {
  }

  /** The update the vote request sends: the snapshot's count plus one. */
  function VoteRequest(party: Party): Request
  {
    SetVotes(party.id, party.votes + 1)
  }

  /**
   * On the table, the voted row ends at the snapshot's count plus one,
   * whatever the row held when the request arrived, and every other row and
   * field is unchanged. With an up-to-date snapshot this is an increment.
   */
  lemma VoteWritesSnapshotPlusOne(table: seq<Party>, party: Party, i: nat)
    requires i < |table| && table[i].id == party.id
    ensures Apply(table, VoteRequest(party))[i] == table[i].(votes := party.votes + 1)
    ensures table[i] == party ==>
      Apply(table, VoteRequest(party))[i].votes == table[i].votes + 1
    ensures forall j :: 0 <= j < |table| && table[j].id != party.id ==>
      Apply(table, VoteRequest(party))[j] == table[j]
  {
  }

  class VotePage {
    var selectedParty: Option<Party>
    var voteLocked: bool
    var countdown: int
    var showSuccess: bool
    /** The party of the vote request in flight; `Some` exactly while the request is pending. */
    var inFlight: Option<Party>
    /** The browser's `lastVoteTime` slot. */
    var lastVoteTime: Mark
    /** Every update request the page has sent to the party table, in order. */
    var sent: seq<Request>

    function GateState(): Gate
      reads this
    {
      Gate(voteLocked, countdown)
    }

    predicate Valid()
      reads this
    {
      Consistent(GateState())
      && (inFlight.Some? ==> selectedParty == inFlight)
      && (showSuccess ==> selectedParty.Some?)
    }

    /**
     * The party cards are on screen: the page renders only the success screen
     * once `showSuccess && selectedParty` holds, so no card can be clicked then.
     */
    predicate ShowsPartyGrid()
      reads this
    {
      !(showSuccess && selectedParty.Some?)
    }

    /** The first render (the `useState` initial values) followed by the mount effect. */
    constructor (stored: Mark, now: int)
      ensures Valid()
      ensures GateState() == MountGate(stored, now)
      ensures selectedParty == None && !showSuccess && inFlight == None
      ensures lastVoteTime == stored && sent == []
    {
      selectedParty := None;
      voteLocked := false;
      countdown := 0;
      showSuccess := false;
      inFlight := None;
      lastVoteTime := stored;
      sent := [];
      // Absent and empty marks are falsy; a NaN elapsed time is never < 25000.
      if stored.Millis? {
        var timeSinceVote := now - stored.ms;
        if timeSinceVote < CooldownMs {
          voteLocked := true;
          countdown := CeilSeconds(CooldownMs - timeSinceVote);
        }
      }
    }

    /** The countdown effect's timer firing once. */
    method Tick()
      requires Valid()
      modifies this`voteLocked, this`countdown
      ensures Valid()
      ensures GateState() == TickGate(old(GateState()))
    {
      if voteLocked && countdown > 0 {
        var c := countdown;
        countdown := c - 1;
        if c == 1 {
          voteLocked := false;
        }
      }
    }

    /**
     * `handleVote`, reached by clicking a party card, so only while the grid
     * is shown: ignored while locked or while a vote request is pending;
     * otherwise selects the party and sends exactly one update request.
     */
    method HandleVote(party: Party) returns (issued: bool)
      requires Valid() && ShowsPartyGrid()
      modifies this`selectedParty, this`inFlight, this`sent
      ensures Valid()
      ensures issued <==> !voteLocked && old(inFlight).None?
      ensures issued ==>
        selectedParty == Some(party) && inFlight == Some(party)
        && sent == old(sent) + [VoteRequest(party)]
      ensures !issued ==>
        selectedParty == old(selectedParty) && inFlight == old(inFlight) && sent == old(sent)
    {
      if voteLocked || inFlight.Some? {
        return false;
      }
      selectedParty := Some(party);
      inFlight := Some(party);
      sent := sent + [VoteRequest(party)];
      return true;
    }

    /**
     * The pending vote request resolves. Only success writes the mark (with
     * the clock reading `now`) and shows the success screen; a failure only
     * clears the pending flag. Neither outcome locks the page in this session.
     */
    method Settle(succeeded: bool, now: int)
      requires Valid() && inFlight.Some?
      modifies this`inFlight, this`lastVoteTime, this`showSuccess
      ensures Valid() && inFlight == None
      ensures succeeded ==> lastVoteTime == Millis(now) && showSuccess && !ShowsPartyGrid()
      ensures !succeeded ==>
        lastVoteTime == old(lastVoteTime) && showSuccess == old(showSuccess)
    {
      inFlight := None;
      if succeeded {
        lastVoteTime := Millis(now);
        showSuccess := true;
      }
    }
  }

  /**
   * A fresh client votes once (a second click while pending sends nothing),
   * the vote lands, and a page opened ten seconds later shows 15 seconds left.
   */
  method ScenarioVoteThenReload(p: Party, now: int)
  {
    var page := new VotePage(Absent, now);
    assert !page.voteLocked;
    var issued := page.HandleVote(p);
    assert issued && page.sent == [VoteRequest(p)];
    var again := page.HandleVote(p);
    assert !again && page.sent == [VoteRequest(p)];
    page.Settle(true, now);
    assert page.lastVoteTime == Millis(now) && page.showSuccess && !page.voteLocked;
    // The page is not locked, but only the success screen is shown: no card to click.
    assert !page.ShowsPartyGrid();
    var reloaded := new VotePage(page.lastVoteTime, now + 10000);
    assert reloaded.GateState() == Gate(true, 15);
  }

  /** A failed vote leaves no mark, so a reloaded page is unlocked. */
  method ScenarioFailedVote(p: Party, now: int)
  {
    var page := new VotePage(Absent, now);
    var issued := page.HandleVote(p);
    page.Settle(false, now);
    assert page.lastVoteTime == Absent && !page.showSuccess;
    var reloaded := new VotePage(page.lastVoteTime, now + 1);
    assert reloaded.GateState() == Gate(false, 0);
  }
}
