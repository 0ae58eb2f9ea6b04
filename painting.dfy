/** The painting record (`backend/models/Painting.js`): its lifecycle
    status, its sale type, the embedded auction record with its bid ledger,
    the `timeRemaining` virtual, `isAuctionExpired` and `placeBid`. */
module Paintings {
  import opened Common
  import opened Ledger

  /** `status`: one of 'available', 'sold', 'reserved', 'in_auction'. */
  datatype Status = Available | Sold | Reserved | InAuction

  /** `saleType`: one of 'direct_sale', 'auction'. */
  datatype SaleType = DirectSale | AuctionSale

  /** The embedded `auction` record. Times are milliseconds since the epoch;
      an absent `startTime`, `endTime`, `startingPrice` or `winner` is None. */
  datatype Auction = Auction(
    isActive: bool,
    startTime: Option<int>,
    endTime: Option<int>,
    startingPrice: Option<real>,
    currentBid: real,
    bidIncrement: real,
    bids: seq<Bid>,
    winner: Option<UserId>,
    participantCount: nat)
  {
    /** `isAuctionExpired`: only an active auction with an end time can be
        expired, and only strictly after that end time. */
    predicate Expired(now: int) {
      if !isActive || endTime.None? then false else now > endTime.value
    }

    /** The `timeRemaining` virtual, in milliseconds. */
    function TimeRemaining(now: int): nat {
      if isActive && endTime.Some? then
        (if endTime.value - now > 0 then endTime.value - now else 0)
      else 0
    }

    /** The aggregates agree with the ledger (see `Ledger.Consistent`). */
    ghost predicate LedgerConsistent() {
      Consistent(bids, currentBid, participantCount)
    }

    /** A ledger built by `placeBid` alone: consistent, strictly increasing,
        and so `currentBid` is the amount of the last bid. */
    ghost predicate AuctionLedger() {
      && LedgerConsistent()
      && StrictlyIncreasing(bids)
      && (bids != [] ==> currentBid == bids[|bids| - 1].amount)
    }
  }

  /** The schema defaults of the nested `auction` path, which Mongoose
      materialises on every painting. */
  const NoAuction := Auction(false, None, None, None, 0.0, 10.0, [], None, 0)

  /** The checks `placeBid` makes, in its order, followed by the schema
      validation `save` applies to the pushed bid. A NaN or missing amount
      makes both comparisons false, so it reaches `save`, which rejects it;
      so does an empty bidder name, which the required `bidderName` refuses
      (one validation error reports both; the amount is named first here). */
  function BidCheck(a: Auction, bidderName: string, amount: Option<real>, now: int): Outcome<BidError> {
    if !a.isActive then Fail(NotActive)
    else if a.Expired(now) then Fail(Expired)
    else if amount.Some? && amount.value <= a.currentBid then Fail(NotAboveCurrent)
    else if amount.Some? && a.startingPrice.Some? && amount.value < a.startingPrice.value then
      Fail(BelowStartingPrice)
    else if amount.None? || amount.value < 0.0 then Fail(InvalidAmount)
    else if bidderName == "" then Fail(MissingBidderName)
    else Pass
  }

  /** The auction record after `placeBid` admits `b`. */
  function WithBid(a: Auction, b: Bid): Auction {
    a.(bids := a.bids + [b], currentBid := b.amount, participantCount := |Bidders(a.bids + [b])|)
  }

  /** The auction record after a direct-sale offer `b` is stored. */
  function WithOffer(a: Auction, b: Bid): Auction {
    a.(bids := a.bids + [b],
       currentBid := MaxAmount(a.bids + [b]),
       participantCount := |Bidders(a.bids + [b])|)
  }

  /** A bid is admitted exactly when the auction is active and unexpired,
      the amount is a number above `currentBid`, not below `startingPrice`
      when one is set, and not negative, and the bidder has a name.
      `bidIncrement` plays no part. */
  lemma BidAdmittedIff(a: Auction, bidderName: string, amount: Option<real>, now: int, increment: real)
    ensures BidCheck(a, bidderName, amount, now).Pass? <==>
      && a.isActive
      && !a.Expired(now)
      && amount.Some?
      && amount.value > a.currentBid
      && (a.startingPrice.Some? ==> amount.value >= a.startingPrice.value)
      && amount.value >= 0.0
      && bidderName != ""
    ensures BidCheck(a.(bidIncrement := increment), bidderName, amount, now) == BidCheck(a, bidderName, amount, now)
  {
  }

  /** The bidder's name is checked last: an empty name changes the
      outcome only of a bid that would otherwise be admitted, which it
      turns into a refusal. */
  lemma EmptyNameRefusedLast(a: Auction, name: string, amount: Option<real>, now: int)
    requires name != ""
    ensures BidCheck(a, "", amount, now) ==
      if BidCheck(a, name, amount, now).Pass? then Fail(MissingBidderName) else BidCheck(a, name, amount, now)
  {
  }

  /** Admitting a bid keeps the aggregates consistent with the ledger. */
  lemma WithBidConsistent(a: Auction, b: Bid)
    requires a.LedgerConsistent()
    requires b.amount > a.currentBid && b.amount >= 0.0
    ensures WithBid(a, b).LedgerConsistent()
    ensures WithBid(a, b).participantCount ==
      a.participantCount + (if b.bidder in Bidders(a.bids) then 0 else 1)
  {
    BiddersAppend(a.bids, b);
    if a.bids != [] { MaxAmountAppend(a.bids, b); }
    var after := a.bids + [b];
    assert after[|a.bids|] == b;
    assert forall i :: 0 <= i < |a.bids| ==> after[i] == a.bids[i];
  }

  /** Admitting a bid keeps an auction ledger strictly increasing, and its
      `currentBid` rises to the new amount, which is the last one. */
  lemma {:induction false} WithBidAuctionLedger(a: Auction, b: Bid)
    requires a.AuctionLedger()
    requires b.amount > a.currentBid && b.amount >= 0.0
    ensures WithBid(a, b).AuctionLedger()
    ensures WithBid(a, b).currentBid > a.currentBid
  {
    WithBidConsistent(a, b);
    var after := a.bids + [b];
    if a.bids != [] {
      LastIsHighest(a.bids);
      forall i, j | 0 <= i < j < |after| ensures after[i].amount < after[j].amount {
        if j == |a.bids| {
          assert after[i] == a.bids[i];
        } else {
          assert after[i] == a.bids[i] && after[j] == a.bids[j];
        }
      }
    }
  }

  /** Storing a direct-sale offer keeps the aggregates consistent, and
      `currentBid` becomes the larger of the old highest offer and the new
      amount. */
  lemma WithOfferRaisesCurrentBid(a: Auction, b: Bid)
    requires a.LedgerConsistent()
    requires b.amount >= 0.0
    ensures WithOffer(a, b).LedgerConsistent()
    ensures WithOffer(a, b).currentBid == if b.amount >= a.currentBid then b.amount else a.currentBid
  {
    ConsistentAppend(a.bids, a.currentBid, a.participantCount, b);
  }

  /** The expiry check and the remaining time agree: an expired auction has
      no time left, time left means not expired, and at the end time itself
      the auction has no time left yet is not expired (expiry is strict). */
  lemma ExpiryAndRemaining(a: Auction, now: int)
    ensures a.Expired(now) ==> a.TimeRemaining(now) == 0
    ensures a.TimeRemaining(now) > 0 ==> a.isActive && !a.Expired(now)
    ensures a.isActive && a.endTime == Some(now) ==> !a.Expired(now) && a.TimeRemaining(now) == 0
  {
  }

  /** Expiry is permanent and the remaining time never grows as time
      passes. */
  lemma ExpiryMonotone(a: Auction, t1: int, t2: int)
    requires t1 <= t2
    ensures a.Expired(t1) ==> a.Expired(t2)
    ensures a.TimeRemaining(t2) <= a.TimeRemaining(t1)
  {
  }

  /** One bid request against the auction record. */
  datatype BidAttempt = BidAttempt(bidder: UserId, bidderName: string, amount: Option<real>, now: int)

  /** The auction record after one attempt: changed only when admitted. */
  function Step(a: Auction, t: BidAttempt): Auction {
    if BidCheck(a, t.bidderName, t.amount, t.now).Pass? then WithBid(a, Bid(t.bidder, t.bidderName, t.amount.value, t.now))
    else a
  }

  /** The auction record after a run of bid attempts. */
  function RunBids(a: Auction, ts: seq<BidAttempt>): Auction
    decreases |ts|
  {
    if ts == [] then a else RunBids(Step(a, ts[0]), ts[1..])
  }

  /** Over any run of bid attempts the ledger only grows at its end,
      `currentBid` never falls, and an auction ledger stays one: amounts
      strictly increase, so the last bid is the highest and `currentBid` is
      its amount, and `participantCount` counts the distinct bidders. */
  lemma {:induction false} RunBidsKeepsAuctionLedger(a: Auction, ts: seq<BidAttempt>)
    requires a.AuctionLedger()
    ensures RunBids(a, ts).AuctionLedger()
    ensures |a.bids| <= |RunBids(a, ts).bids| && RunBids(a, ts).bids[..|a.bids|] == a.bids
    ensures RunBids(a, ts).currentBid >= a.currentBid
    decreases |ts|
  {
    if ts != [] {
      var t := ts[0];
      var next := Step(a, t);
      if BidCheck(a, t.bidderName, t.amount, t.now).Pass? {
        WithBidAuctionLedger(a, Bid(t.bidder, t.bidderName, t.amount.value, t.now));
      }
      RunBidsKeepsAuctionLedger(next, ts[1..]);
      var last := RunBids(next, ts[1..]);
      assert last == RunBids(a, ts);
      assert next.bids[..|a.bids|] == a.bids;
      assert last.bids[..|a.bids|] == last.bids[..|next.bids|][..|a.bids|];
    }
  }

  /** A painting document. The identity fields the core does not use
      (title, description, size, materials, image) are left out. */
  class Painting {
    const id: nat
    var artist: UserId
    var price: real
    var status: Status
    var saleType: SaleType
    var auction: Auction
    var tags: seq<string>
    var views: nat

    /** `new Painting({...})` as the upload route builds it: the schema
        defaults for status, sale type, the auction record and views. */
    constructor (id: nat, artist: UserId, price: real, tags: seq<string>)
      ensures this.id == id && this.artist == artist && this.price == price && this.tags == tags
      ensures status == Available && saleType == DirectSale && auction == NoAuction && views == 0
    {
      this.id := id;
      this.artist := artist;
      this.price := price;
      this.tags := tags;
      status := Available;
      saleType := DirectSale;
      auction := NoAuction;
      views := 0;
    }

    /** `isAuctionExpired()` at time `now`. */
    predicate IsAuctionExpired(now: int)
      reads this
    {
      auction.Expired(now)
    }

    /** `placeBid(bidderId, bidderName, amount)`: refuses with the first
        check that fails, leaving the stored record as it was (a failed
        `save` stores nothing); otherwise pushes one
        bid, sets `currentBid` to its amount and recounts the distinct
        bidders. Nothing but the auction record changes. */
    method PlaceBid(bidder: UserId, bidderName: string, amount: Option<real>, now: int)
      returns (r: Outcome<BidError>)
      modifies this`auction
      ensures r == BidCheck(old(auction), bidderName, amount, now)
      ensures r.Pass? ==> auction == WithBid(old(auction), Bid(bidder, bidderName, amount.value, now))
      ensures r.Fail? ==> auction == old(auction)
      ensures old(auction).AuctionLedger() ==> auction.AuctionLedger()
    {
      if !auction.isActive {
        return Fail(NotActive);
      }
      if IsAuctionExpired(now) {
        return Fail(Expired);
      }
      if amount.Some? && amount.value <= auction.currentBid {
        return Fail(NotAboveCurrent);
      }
      if amount.Some? && auction.startingPrice.Some? && amount.value < auction.startingPrice.value {
        return Fail(BelowStartingPrice);
      }
      if amount.None? || amount.value < 0.0 {
        return Fail(InvalidAmount);
      }
      if bidderName == "" {
        return Fail(MissingBidderName);
      }
      ghost var before := auction;
      var bid := Bid(bidder, bidderName, amount.value, now);
      auction := auction.(bids := auction.bids + [bid]);
      auction := auction.(currentBid := amount.value);
      auction := auction.(participantCount := |Bidders(auction.bids)|);
      if before.AuctionLedger() {
        WithBidAuctionLedger(before, bid);
      }
      r := Pass;
    }

    /** `painting.views += 1` when a painting is fetched. */
    method IncrementViews()
      modifies this`views
      ensures views == old(views) + 1
    {
      views := views + 1;
    }
  }
}
