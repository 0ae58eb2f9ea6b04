/** The bid ledger embedded in a painting: the append-only `auction.bids`
    array and the aggregates derived from it (`currentBid`,
    `participantCount`, the winner). */
module Ledger {
  import opened Common

  /** One entry of `auction.bids`. */
  datatype Bid = Bid(bidder: UserId, bidderName: string, amount: real, timestamp: int)

  /** `new Set(bids.map(bid => bid.bidder.toString()))`. */
  function Bidders(bids: seq<Bid>): set<UserId> {
    set i | 0 <= i < |bids| :: bids[i].bidder
  }

  /** Appending a bid adds its bidder to the set of distinct bidders, so
      the distinct count grows by one exactly when the bidder is new. */
  lemma BiddersAppend(bids: seq<Bid>, b: Bid)
    ensures Bidders(bids + [b]) == Bidders(bids) + {b.bidder}
    ensures |Bidders(bids + [b])| == |Bidders(bids)| + (if b.bidder in Bidders(bids) then 0 else 1)
  {
    var after := bids + [b];
    assert after[|bids|] == b;
    forall u | u in Bidders(bids) ensures u in Bidders(after) {
      var i :| 0 <= i < |bids| && bids[i].bidder == u;
      assert after[i] == bids[i];
    }
  }

  /** `Math.max(...bids.map(b => b.amount))`: an upper bound of every
      amount in the ledger that is itself one of the amounts. */
  function MaxAmount(bids: seq<Bid>): (m: real)
    requires bids != []
    ensures forall i :: 0 <= i < |bids| ==> bids[i].amount <= m
    ensures exists i :: 0 <= i < |bids| && bids[i].amount == m
  {
    if |bids| == 1 then bids[0].amount
    else
      var rest := MaxAmount(bids[1..]);
      assert forall i :: 1 <= i < |bids| ==> bids[i] == bids[1..][i - 1];
      if bids[0].amount >= rest then bids[0].amount else rest
  }

  /** The maximum after an append is the larger of the old maximum and the
      new amount. */
  lemma MaxAmountAppend(bids: seq<Bid>, b: Bid)
    requires bids != []
    ensures MaxAmount(bids + [b]) == if b.amount >= MaxAmount(bids) then b.amount else MaxAmount(bids)
  {
    var after := bids + [b];
    var m := MaxAmount(after);
    assert after[|bids|] == b;
    assert forall i :: 0 <= i < |bids| ==> after[i] == bids[i];
    var k :| 0 <= k < |bids| && bids[k].amount == MaxAmount(bids);
    assert after[k] == bids[k];
  }

  /** Each bid's amount is strictly above every earlier one. */
  ghost predicate StrictlyIncreasing(bids: seq<Bid>) {
    forall i, j :: 0 <= i < j < |bids| ==> bids[i].amount < bids[j].amount
  }

  /** In a strictly increasing ledger the last bid is the highest one. */
  lemma LastIsHighest(bids: seq<Bid>)
    requires bids != [] && StrictlyIncreasing(bids)
    ensures MaxAmount(bids) == bids[|bids| - 1].amount
  {
    var k :| 0 <= k < |bids| && bids[k].amount == MaxAmount(bids);
    if k < |bids| - 1 {
      assert bids[k].amount < bids[|bids| - 1].amount;
    }
  }

  /** The aggregates agree with the ledger: `currentBid` is 0 for an empty
      ledger and the highest amount otherwise, `participantCount` is the
      number of distinct bidders, and no amount is negative (the schema's
      `min: 0`). */
  ghost predicate Consistent(bids: seq<Bid>, currentBid: real, participantCount: nat) {
    && (forall i :: 0 <= i < |bids| ==> bids[i].amount >= 0.0)
    && (bids == [] ==> currentBid == 0.0)
    && (bids != [] ==> currentBid == MaxAmount(bids))
    && participantCount == |Bidders(bids)|
  }

  /** Appending a non-negative offer and recomputing the aggregates keeps
      them consistent; the highest amount becomes the larger of the old one
      and the new amount. */
  lemma ConsistentAppend(bids: seq<Bid>, currentBid: real, participantCount: nat, b: Bid)
    requires Consistent(bids, currentBid, participantCount) && b.amount >= 0.0
    ensures Consistent(bids + [b], MaxAmount(bids + [b]), |Bidders(bids + [b])|)
    ensures MaxAmount(bids + [b]) == if b.amount >= currentBid then b.amount else currentBid
  {
    var after := bids + [b];
    assert after[|bids|] == b;
    assert forall i :: 0 <= i < |bids| ==> after[i] == bids[i];
    if bids != [] {
      MaxAmountAppend(bids, b);
    } else {
      assert after == [b];
    }
  }

  /** The bidder of the last entry: the winner the end route records. */
  function LastBidder(bids: seq<Bid>): (w: Option<UserId>)
    ensures w.None? <==> bids == []
    ensures w.Some? ==> w.value in Bidders(bids)
  {
    if bids == [] then None else Some(bids[|bids| - 1].bidder)
  }
}
