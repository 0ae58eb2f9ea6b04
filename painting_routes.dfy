/** The painting routes (`backend/routes/paintings.js`) that touch the sale
    state: a bid or offer on a painting, accepting an offer, the tag list
    of an upload and the view counter. The painting is passed in already
    looked up; the bidder's account is `None` when it does not exist. */
module PaintingRoutes {
  import opened Common
  import opened Text
  import opened Ledger
  import opened Paintings

  /** The `amount` field of a bid request as `parseFloat` sees it: absent
      (`null` or `undefined`), not a number, or a number. */
  datatype AmountInput = Missing | Malformed | Number(value: real)

  /** The amount a present input parses to; NaN is `None`. A number
      parses to its own value. */
  function Parsed(input: AmountInput): (r: Option<real>)
    ensures r.Some? <==> input.Number?
    ensures input.Number? ==> r == Some(input.value)
  {
    if input.Number? then Some(input.value) else None
  }

  /** The user record the route loads for the caller. */
  datatype Account = Account(name: string, username: string)

  /** `bidder.name || bidder.username || fallback`. */
  function DisplayName(acct: Account, fallback: string): (r: string)
    ensures acct.name != "" ==> r == acct.name
    ensures acct.name == "" && acct.username != "" ==> r == acct.username
    ensures acct.name == "" && acct.username == "" ==> r == fallback
    ensures r == "" <==> acct.name == "" && acct.username == "" && fallback == ""
  {
    if acct.name != "" then acct.name else if acct.username != "" then acct.username else fallback
  }

  /** A direct-sale offer is taken exactly when it is a number not below
      the asking price. */
  predicate OfferAdmitted(price: real, amount: Option<real>) {
    amount.Some? && amount.value >= price
  }

  /** POST bids: an absent amount is refused before anything else, then a
      missing account. On an auction painting the auction must be active
      and the bid then goes through `placeBid`; on a direct-sale painting
      an offer not below the price is appended to the ledger and
      `currentBid` becomes the highest offer. Neither path looks at the
      painting's status. A refusal changes nothing. */
  method SubmitBid(p: Painting, caller: UserId, account: Option<Account>, input: AmountInput, now: int)
    returns (r: Outcome<ApiError>)
    modifies p`auction
    ensures input.Missing? ==> r == Fail(BadRequest(AmountRequired))
    ensures !input.Missing? && account.None? ==> r == Fail(Forbidden)
    ensures r.Fail? ==> p.auction == old(p.auction)
    ensures r != Fail(BadRequest(BidRejected(MissingBidderName)))
    ensures !input.Missing? && account.Some? && p.saleType == AuctionSale ==>
      && (!old(p.auction).isActive ==> r == Fail(BadRequest(NoActiveAuction)))
      && (old(p.auction).isActive && BidCheck(old(p.auction), DisplayName(account.value, "Unknown"), Parsed(input), now).Fail? ==>
            r == Fail(BadRequest(BidRejected(BidCheck(old(p.auction), DisplayName(account.value, "Unknown"), Parsed(input), now).error))))
      && (old(p.auction).isActive && BidCheck(old(p.auction), DisplayName(account.value, "Unknown"), Parsed(input), now).Pass? ==>
            r == Pass &&
            p.auction == WithBid(old(p.auction), Bid(caller, DisplayName(account.value, "Unknown"), input.value, now)))
    ensures !input.Missing? && account.Some? && p.saleType == DirectSale ==>
      && (!OfferAdmitted(p.price, Parsed(input)) ==> r == Fail(BadRequest(OfferTooLow)))
      && (OfferAdmitted(p.price, Parsed(input)) ==>
            r == Pass &&
            p.auction == WithOffer(old(p.auction), Bid(caller, DisplayName(account.value, "Buyer"), input.value, now)))
    ensures p.saleType == AuctionSale && old(p.auction).AuctionLedger() ==> p.auction.AuctionLedger()
    ensures p.saleType == DirectSale && p.price >= 0.0 && old(p.auction).LedgerConsistent() ==>
      p.auction.LedgerConsistent()
  {
    if input.Missing? {
      return Fail(BadRequest(AmountRequired));
    }
    if account.None? {
      return Fail(Forbidden);
    }
    var amount := Parsed(input);
    if p.saleType == AuctionSale {
      if !p.auction.isActive {
        return Fail(BadRequest(NoActiveAuction));
      }
      var outcome := p.PlaceBid(caller, DisplayName(account.value, "Unknown"), amount, now);
      if outcome.Fail? {
        return Fail(BadRequest(BidRejected(outcome.error)));
      }
      return Pass;
    }
    if amount.None? || amount.value < p.price {
      return Fail(BadRequest(OfferTooLow));
    }
    var offer := Bid(caller, DisplayName(account.value, "Buyer"), amount.value, now);
    ghost var before := p.auction;
    var bids := p.auction.bids + [offer];
    p.auction := p.auction.(bids := bids);
    p.auction := p.auction.(currentBid := MaxAmount(bids));
    p.auction := p.auction.(participantCount := |Bidders(bids)|);
    if p.price >= 0.0 && before.LedgerConsistent() {
      WithOfferRaisesCurrentBid(before, offer);
    }
    r := Pass;
  }

  /** The order record accepting an offer creates. */
  datatype Order = Order(buyer: UserId, artist: UserId, painting: nat, price: real)

  /** POST accept: the painting's artist picks the offer at position
      `bidId`; its bidder becomes the winner, the painting is sold at the
      offer's amount and an order is created. The ledger itself is left as
      it was, and the painting's current status is not checked. */
  method AcceptBid(p: Painting, caller: UserId, bidId: nat) returns (r: Result<Order, ApiError>)
    modifies p`auction, p`status, p`price
    ensures p.artist != caller ==> r == Err(Forbidden)
    ensures p.artist == caller && bidId >= |old(p.auction).bids| ==> r == Err(NotFound)
    ensures r.Err? ==> p.auction == old(p.auction) && p.status == old(p.status) && p.price == old(p.price)
    ensures p.artist == caller && bidId < |old(p.auction).bids| ==>
      && p.auction.bids == old(p.auction).bids
      && p.auction == old(p.auction).(winner := Some(old(p.auction).bids[bidId].bidder))
      && p.status == Sold
      && p.price == old(p.auction).bids[bidId].amount
      && r == Ok(Order(old(p.auction).bids[bidId].bidder, p.artist, p.id, p.price))
    ensures r.Ok? ==> p.auction.winner.value in Bidders(p.auction.bids)
  {
    if p.artist != caller {
      return Err(Forbidden);
    }
    if bidId >= |p.auction.bids| {
      return Err(NotFound);
    }
    var bid := p.auction.bids[bidId];
    p.auction := p.auction.(winner := Some(bid.bidder));
    p.status := Sold;
    p.price := bid.amount;
    r := Ok(Order(bid.bidder, p.artist, p.id, bid.amount));
  }

  /** The result of `map(tag => tag.trim())`. */
  function TrimAll(pieces: seq<string>): (r: seq<string>)
    ensures |r| == |pieces|
    ensures forall i :: 0 <= i < |r| ==> r[i] == Trim(pieces[i])
  {
    if pieces == [] then [] else [Trim(pieces[0])] + TrimAll(pieces[1..])
  }

  /** The result of `filter(tag => tag.length > 0)`: the non-empty pieces,
      in their order. */
  function NonEmpty(pieces: seq<string>): (r: seq<string>)
    ensures |r| <= |pieces|
    ensures forall t :: t in r <==> t in pieces && t != ""
  {
    if pieces == [] then []
    else if pieces[0] == "" then NonEmpty(pieces[1..])
    else [pieces[0]] + NonEmpty(pieces[1..])
  }

  /** Filtering keeps order: the kept pieces of a concatenation are those
      of each part, in turn. */
  lemma {:induction false} NonEmptyAppend(a: seq<string>, b: seq<string>)
    ensures NonEmpty(a + b) == NonEmpty(a) + NonEmpty(b)
  {
    if a != [] {
      assert (a + b)[0] == a[0] && (a + b)[1..] == a[1..] + b;
      NonEmptyAppend(a[1..], b);
    } else {
      assert a + b == b;
    }
  }

  /** Filtering keeps repeats: each non-empty piece is kept as often as it
      occurs, and the empty one never. */
  lemma {:induction false} NonEmptyCounts(pieces: seq<string>)
    ensures multiset(NonEmpty(pieces)) == multiset(pieces)["" := 0]
  {
    if pieces != [] {
      NonEmptyCounts(pieces[1..]);
      assert pieces == [pieces[0]] + pieces[1..];
      assert multiset(pieces) == multiset{pieces[0]} + multiset(pieces[1..]);
    }
  }

  /** Trimming works piece by piece. */
  lemma {:induction false} TrimAllAppend(a: seq<string>, b: seq<string>)
    ensures TrimAll(a + b) == TrimAll(a) + TrimAll(b)
  {
  }

  /** The tag list of an upload: absent or empty `tags` give none;
      otherwise the comma-separated pieces, trimmed, without the empty
      ones. */
  function ParseTags(tags: Option<string>): seq<string> {
    if tags.None? || tags.value == "" then []
    else NonEmpty(TrimAll(Split(tags.value, ',')))
  }

  /** Every parsed tag is a non-empty, trimmed piece of the input with no
      comma in it; each comma-separated piece that is not all blank
      appears, trimmed; and there are never more tags than pieces. */
  lemma ParseTagsShape(tags: string)
    ensures forall t :: t in ParseTags(Some(tags)) ==> t != "" && Trimmed(t) && ',' !in t
    ensures forall t :: t in ParseTags(Some(tags)) ==>
      exists piece :: piece in Split(tags, ',') && t == Trim(piece)
    ensures forall piece :: piece in Split(tags, ',') && Trim(piece) != "" ==>
      Trim(piece) in ParseTags(Some(tags))
    ensures |ParseTags(Some(tags))| <= |Split(tags, ',')|
  {
    if tags != "" {
      var pieces := Split(tags, ',');
      forall t | t in ParseTags(Some(tags))
        ensures t != "" && Trimmed(t) && ',' !in t
        ensures exists piece :: piece in pieces && t == Trim(piece)
      {
        TagFromPiece(pieces, t);
      }
      forall piece | piece in pieces && Trim(piece) != ""
        ensures Trim(piece) in ParseTags(Some(tags))
      {
        PieceGivesTag(pieces, piece);
      }
    }
  }

  /** The empty string gives no tags either way: every input's tags are
      its kept trimmed pieces. */
  lemma ParseTagsPieces(tags: string)
    ensures ParseTags(Some(tags)) == NonEmpty(TrimAll(Split(tags, ',')))
  {
    if tags == "" {
      assert Split(tags, ',') == [""];
      assert TrimAll([""]) == [""];
    }
  }

  /** Tags keep the order of the input: the tags of `a + "," + b` are those
      of `a` followed by those of `b`. */
  lemma ParseTagsAppend(a: string, b: string)
    ensures ParseTags(Some(a + "," + b)) == ParseTags(Some(a)) + ParseTags(Some(b))
  {
    var pa := Split(a, ',');
    var pb := Split(b, ',');
    assert a + "," + b == a + [','] + b;
    SplitAtSeparator(a, b, ',');
    TrimAllAppend(pa, pb);
    NonEmptyAppend(TrimAll(pa), TrimAll(pb));
    ParseTagsPieces(a + "," + b);
    ParseTagsPieces(a);
    ParseTagsPieces(b);
  }

  /** Tags keep repeats: a single trimmed piece is a single tag, so "a,a"
      gives two, and each non-blank trimmed piece is kept as often as it
      occurs. */
  lemma ParseTagsCounts(t: string)
    ensures t != "" && Trimmed(t) && ',' !in t ==> ParseTags(Some(t)) == [t]
    ensures multiset(ParseTags(Some(t))) == multiset(TrimAll(Split(t, ',')))["" := 0]
  {
    ParseTagsPieces(t);
    if t != "" && Trimmed(t) && ',' !in t {
      SplitWithoutSeparator(t, ',');
      TrimTrimmed(t);
      assert TrimAll([t]) == [t];
      assert NonEmpty([t]) == [t];
    }
    NonEmptyCounts(TrimAll(Split(t, ',')));
  }

  /** A tag kept from comma-free pieces is one of them, trimmed. */
  lemma TagFromPiece(pieces: seq<string>, t: string)
    requires forall i :: 0 <= i < |pieces| ==> ',' !in pieces[i]
    requires t in NonEmpty(TrimAll(pieces))
    ensures t != "" && Trimmed(t) && ',' !in t
    ensures exists piece :: piece in pieces && t == Trim(piece)
  {
    var trimmed := TrimAll(pieces);
    assert t in trimmed;
    var i :| 0 <= i < |trimmed| && trimmed[i] == t;
    TrimKeepsOut(pieces[i], ',');
    assert pieces[i] in pieces;
  }

  /** A piece that is not all blank is kept, trimmed. */
  lemma PieceGivesTag(pieces: seq<string>, piece: string)
    requires piece in pieces && Trim(piece) != ""
    ensures Trim(piece) in NonEmpty(TrimAll(pieces))
  {
    var trimmed := TrimAll(pieces);
    var i :| 0 <= i < |pieces| && pieces[i] == piece;
    assert trimmed[i] == Trim(piece);
    assert Trim(piece) in trimmed;
  }

  /** Trimming adds no character: a character absent from `s` is absent
      from its trimmed form. */
  lemma TrimKeepsOut(s: string, c: char)
    requires c !in s
    ensures c !in Trim(s)
  {
    var t := TrimStart(s);
    assert c !in t;
    var r := TrimEnd(t);
    assert r == t[..|r|];
  }
}
