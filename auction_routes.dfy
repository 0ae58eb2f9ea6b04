/** The auction routes (`backend/routes/auction.js`): start, join, bid,
    post to the auction chat and end, as transitions of a painting and its
    auction chat. The painting and the chat are passed in already looked
    up; a chat that `findOne` does not find is `null`. Push events to
    connected clients are left out. */
module AuctionRoutes {
  import opened Common
  import opened Text
  import opened Ledger
  import opened Paintings
  import opened AuctionChats

  /** Milliseconds in one hour: `60 * 60 * 1000`. */
  const HourMillis := 3600000

  /** `bidIncrement || 10`. */
  const DefaultIncrement := 10.0

  /** `x || fallback` for an optional number: an absent or zero value falls
      back. */
  function OrElse(x: Option<real>, fallback: real): (r: real)
    ensures x.Some? && x.value != 0.0 ==> r == x.value
    ensures x.None? || x.value == 0.0 ==> r == fallback
    ensures r == 0.0 ==> fallback == 0.0
  {
    if x.Some? && x.value != 0.0 then x.value else fallback
  }

  /** The auction record a successful start writes: active from `now` for
      `duration` hours, with an empty ledger. */
  function Started(price: real, startingPrice: Option<real>, bidIncrement: Option<real>,
                   now: int, duration: int): Auction
  {
    Auction(true, Some(now), Some(now + duration * HourMillis),
            Some(OrElse(startingPrice, price)), 0.0, OrElse(bidIncrement, DefaultIncrement),
            [], None, 0)
  }

  /** A started auction is an empty, consistent auction ledger that ends
      `duration` hours after `now`. The duration is not checked: a zero
      duration is open only at `now` itself, a negative one is expired at
      once. */
  lemma StartedAuction(price: real, startingPrice: Option<real>, bidIncrement: Option<real>,
                       now: int, duration: int)
    ensures Started(price, startingPrice, bidIncrement, now, duration).AuctionLedger()
    ensures Started(price, startingPrice, bidIncrement, now, duration).endTime.value
            - Started(price, startingPrice, bidIncrement, now, duration).startTime.value == duration * HourMillis
    ensures duration >= 0 ==>
      && !Started(price, startingPrice, bidIncrement, now, duration).Expired(now)
      && Started(price, startingPrice, bidIncrement, now, duration).TimeRemaining(now) == duration * HourMillis
    ensures duration < 0 ==> Started(price, startingPrice, bidIncrement, now, duration).Expired(now)
  {
  }

  /** The schema's checks on the record a start writes, applied by
      `save`: `bidIncrement` at least 1 and `startingPrice` at least 0. A
      zero in the request falls back before the check, a fraction or a
      negative value does not. */
  predicate StartSaves(price: real, startingPrice: Option<real>, bidIncrement: Option<real>) {
    OrElse(bidIncrement, DefaultIncrement) >= 1.0 && OrElse(startingPrice, price) >= 0.0
  }

  /** A start is saved exactly when the record it writes meets the schema's
      minimums: an increment of 0.5 or -5, or a starting price of -100, is
      refused, while zeros fall back to the defaults and are saved. */
  lemma StartSavesIff(price: real, startingPrice: Option<real>, bidIncrement: Option<real>,
                      now: int, duration: int)
    ensures StartSaves(price, startingPrice, bidIncrement) <==>
      && Started(price, startingPrice, bidIncrement, now, duration).bidIncrement >= 1.0
      && Started(price, startingPrice, bidIncrement, now, duration).startingPrice.value >= 0.0
    ensures !StartSaves(100.0, None, Some(0.5)) && !StartSaves(100.0, None, Some(-5.0))
    ensures !StartSaves(100.0, Some(-100.0), None)
    ensures StartSaves(100.0, Some(0.0), Some(0.0))
  {
  }

  /** The guards of the start route, in order. */
  function StartCheck(p_artist: UserId, p_status: Status, caller: UserId, role: Role): Outcome<ApiError> {
    if role != Artist then Fail(Forbidden)
    else if p_artist != caller then Fail(Forbidden)
    else if p_status != Available then Fail(BadRequest(NotAvailable))
    else Pass
  }

  /** POST start: an artist who owns an available painting puts it in
      auction and opens its chat room with the artist as sole participant
      and one 'auction_started' message. A refusal changes nothing, and so
      does a record the schema refuses at `save` (the request fails). When
      the painting already has a chat (the room's painting id is unique)
      the chat cannot be saved: the painting is in auction but the request
      fails. */
  method StartAuction(p: Painting, caller: UserId, role: Role, username: string, duration: int,
                      startingPrice: Option<real>, bidIncrement: Option<real>, now: int,
                      chatExists: bool)
    returns (r: Result<AuctionChat, ApiError>)
    modifies p`saleType, p`status, p`auction
    ensures StartCheck(old(p.artist), old(p.status), caller, role).Fail? ==>
      && r == Err(StartCheck(old(p.artist), old(p.status), caller, role).error)
      && p.saleType == old(p.saleType) && p.status == old(p.status) && p.auction == old(p.auction)
    ensures StartCheck(old(p.artist), old(p.status), caller, role).Pass? && !StartSaves(p.price, startingPrice, bidIncrement) ==>
      && r == Err(ServerError)
      && p.saleType == old(p.saleType) && p.status == old(p.status) && p.auction == old(p.auction)
    ensures StartCheck(old(p.artist), old(p.status), caller, role).Pass? && StartSaves(p.price, startingPrice, bidIncrement) ==>
      && p.saleType == AuctionSale && p.status == InAuction
      && p.auction == Started(p.price, startingPrice, bidIncrement, now, duration)
      && p.auction.bidIncrement >= 1.0 && p.auction.startingPrice.value >= 0.0
    ensures StartCheck(old(p.artist), old(p.status), caller, role).Pass? && StartSaves(p.price, startingPrice, bidIncrement) && chatExists ==>
      r == Err(ServerError)
    ensures StartCheck(old(p.artist), old(p.status), caller, role).Pass? && StartSaves(p.price, startingPrice, bidIncrement) && !chatExists ==>
      && r.Ok? && fresh(r.value)
      && r.value.paintingId == p.id && r.value.artistId == caller && r.value.isActive
      && r.value.participants == [Participant(caller, if username == "" then "Artist" else username, now, true)]
      && r.value.messages == [ChatMessage(caller, "System", StartedNotice(p.auction.startingPrice, p.auction.endTime.value),
                                          AuctionStarted, None, now)]
  {
    var check := StartCheck(p.artist, p.status, caller, role);
    if check.Fail? {
      return Err(check.error);
    }
    var increment := OrElse(bidIncrement, DefaultIncrement);
    var opening := OrElse(startingPrice, p.price);
    if increment < 1.0 || opening < 0.0 {
      return Err(ServerError);
    }
    var endTime := now + duration * HourMillis;
    p.saleType := AuctionSale;
    p.status := InAuction;
    p.auction := Auction(true, Some(now), Some(endTime), Some(opening), 0.0, increment, [], None, 0);
    if chatExists {
      return Err(ServerError);
    }
    var name := if username == "" then "Artist" else username;
    var notice := ChatMessage(caller, "System", StartedNotice(p.auction.startingPrice, endTime), AuctionStarted, None, now);
    var chat := new AuctionChat(p.id, caller, [Participant(caller, name, now, true)], [notice], now);
    r := Ok(chat);
  }

  /** The guards of the join route, in order. */
  function JoinCheck(a: Auction, role: Role, chatFound: bool, now: int): Outcome<ApiError> {
    if role != Buyer then Fail(Forbidden)
    else if !a.isActive then Fail(BadRequest(NoActiveAuction))
    else if a.Expired(now) then Fail(BadRequest(Reason.AuctionEnded))
    else if !chatFound then Fail(NotFound)
    else Pass
  }

  /** POST join: a buyer joins an active, unexpired auction whose chat
      exists; the chat upserts the buyer and logs one 'system' message. The
      painting is not changed. Answers the time remaining. The two saves
      can fail, each answered with 500: a new participant without a
      username stores nothing, and a join notice too long for the chat is
      refused after the roster change is stored. */
  method JoinAuction(p: Painting, chat: AuctionChat?, caller: UserId, role: Role, username: string, now: int)
    returns (r: Result<nat, ApiError>)
    modifies chat
    ensures JoinCheck(p.auction, role, chat != null, now).Fail? ==>
      r == Err(JoinCheck(p.auction, role, chat != null, now).error) && (chat != null ==> unchanged(chat))
    ensures JoinCheck(p.auction, role, chat != null, now).Pass? ==> chat != null
    ensures JoinCheck(p.auction, role, chat != null, now).Pass? && caller !in UserIds(old(chat.participants)) && username == "" ==>
      r == Err(ServerError) && unchanged(chat)
    ensures JoinCheck(p.auction, role, chat != null, now).Pass? && (caller in UserIds(old(chat.participants)) || username != "") ==>
      && chat.participants == Upsert(old(chat.participants), caller, username, now)
      && chat.isActive == old(chat.isActive) && chat.lastActivity == now
      && (ContentFits(JoinedNotice(username)) ==>
            && r == Ok(p.auction.TimeRemaining(now))
            && chat.messages == old(chat.messages) + [ChatMessage(caller, "System", JoinedNotice(username), SystemNote, None, now)])
      && (!ContentFits(JoinedNotice(username)) ==> r == Err(ServerError) && chat.messages == old(chat.messages))
  {
    var check := JoinCheck(p.auction, role, chat != null, now);
    if check.Fail? {
      return Err(check.error);
    }
    var joined := chat.AddParticipant(caller, username, now);
    if !joined {
      return Err(ServerError);
    }
    var logged := chat.AddMessage(caller, "System", JoinedNotice(username), now, SystemNote);
    if !logged {
      return Err(ServerError);
    }
    r := Ok(p.auction.TimeRemaining(now));
  }

  /** What the bid route answers: `currentBid`, `bidCount` and
      `timeRemaining`. */
  datatype BidReceipt = BidReceipt(currentBid: real, bidCount: nat, timeRemaining: nat)

  /** POST bid: a buyer's bid goes through `placeBid`; an admitted bid is
      logged in the chat as one 'bid_placed' message carrying the amount.
      A refusal changes nothing; a bid under an empty username is refused
      by the painting's save, so it never reaches the chat. */
  method BidInAuction(p: Painting, chat: AuctionChat?, caller: UserId, role: Role, username: string,
                      amount: Option<real>, now: int)
    returns (r: Result<BidReceipt, ApiError>)
    modifies p`auction, chat
    ensures role != Buyer ==> r == Err(Forbidden)
    ensures role == Buyer && BidCheck(old(p.auction), username, amount, now).Fail? ==>
      r == Err(BadRequest(BidRejected(BidCheck(old(p.auction), username, amount, now).error)))
    ensures r.Err? ==> p.auction == old(p.auction) && (chat != null ==> unchanged(chat))
    ensures role == Buyer && BidCheck(old(p.auction), username, amount, now).Pass? ==>
      && p.auction == WithBid(old(p.auction), Bid(caller, username, amount.value, now))
      && r == Ok(BidReceipt(amount.value, |p.auction.bids|, p.auction.TimeRemaining(now)))
      && (chat != null ==>
            && chat.messages == old(chat.messages) + [ChatMessage(caller, username, BidNotice(amount.value), BidPlaced, amount, now)]
            && chat.participants == old(chat.participants) && chat.isActive == old(chat.isActive))
    ensures old(p.auction).AuctionLedger() ==> p.auction.AuctionLedger()
  {
    if role != Buyer {
      return Err(Forbidden);
    }
    var outcome := p.PlaceBid(caller, username, amount, now);
    if outcome.Fail? {
      return Err(BadRequest(BidRejected(outcome.error)));
    }
    if chat != null {
      var logged := chat.AddMessage(caller, username, BidNotice(amount.value), now, BidPlaced, amount);
    }
    r := Ok(BidReceipt(p.auction.currentBid, |p.auction.bids|, p.auction.TimeRemaining(now)));
  }

  /** The chat limit counts UTF-16 code units: a run of `n` letters fits
      exactly when n <= 500, a run of `n` emoji (two units each) exactly
      when n <= 250, so 300 emoji do not. */
  lemma ChatLimitInCodeUnits(n: nat)
    ensures Utf16Length(Repeat('a', n)) <= MaxContentLength <==> n <= 500
    ensures Utf16Length(Repeat('\U{1F600}', n)) <= MaxContentLength <==> n <= 250
  {
    Utf16LengthPlanes(Repeat('a', n));
    Utf16LengthPlanes(Repeat('\U{1F600}', n));
  }

  /** POST chat: only an active participant may post; the message then
      goes through `addMessage`, whose save refuses empty content, content
      over 500 UTF-16 code units and an empty sender name, answered with
      500 and nothing stored. */
  method PostToAuctionChat(chat: AuctionChat?, caller: UserId, username: string, content: string, now: int)
    returns (r: Outcome<ApiError>)
    modifies chat
    ensures chat == null ==> r == Fail(NotFound)
    ensures chat != null && !old(chat.IsActiveParticipant(caller)) ==> r == Fail(Forbidden)
    ensures chat != null && old(chat.IsActiveParticipant(caller)) ==>
      (r == Fail(ServerError) <==> content == "" || Utf16Length(content) > MaxContentLength || username == "")
    ensures r.Fail? && chat != null ==> unchanged(chat)
    ensures chat != null && old(chat.IsActiveParticipant(caller)) && content != "" && Utf16Length(content) <= MaxContentLength && username != "" ==>
      && r == Pass
      && chat.messages == old(chat.messages) + [ChatMessage(caller, username, Plain(content), Text, None, now)]
      && chat.participants == old(chat.participants)
  {
    if chat == null {
      return Fail(NotFound);
    }
    if !chat.IsActiveParticipant(caller) {
      return Fail(Forbidden);
    }
    var saved := chat.AddMessage(caller, username, Plain(content), now);
    if !saved {
      return Fail(ServerError);
    }
    r := Pass;
  }

  /** The auction record after the end route: inactive, and when there are
      bids the winner is the last bidder. */
  function Ended(a: Auction): Auction {
    a.(isActive := false, winner := if a.bids != [] then LastBidder(a.bids) else a.winner)
  }

  /** The status the end route gives the painting. */
  function EndStatus(a: Auction): Status {
    if a.bids != [] then Sold else Available
  }

  /** Ending an auction built by `placeBid` gives it to the bidder of the
      highest bid, at `currentBid`; ending it without bids sends the
      painting back to 'available'. Either way it is no longer active, so
      a second end is refused. */
  lemma EndedWinnerHoldsHighestBid(a: Auction)
    requires a.AuctionLedger()
    ensures !Ended(a).isActive
    ensures a.bids == [] <==> EndStatus(a) == Available
    ensures a.bids != [] ==>
      && Ended(a).winner == Some(a.bids[|a.bids| - 1].bidder)
      && a.bids[|a.bids| - 1].amount == MaxAmount(a.bids) == a.currentBid
  {
    if a.bids != [] {
      LastIsHighest(a.bids);
    }
  }

  /** The closing message of the end route: the winner's notice names the
      bidder of the last bid, so a winner recorded without any bid has no
      notice (the route fails reading it); no winner gives the no-bids
      notice. */
  function EndNotice(a: Auction): (c: Option<Content>)
    ensures a.winner.None? ==> c == Some(NoBidsNotice)
    ensures a.winner.Some? && a.bids != [] ==> c.Some? && c.value.EndedNotice? && c.value.finalBid == a.currentBid
    ensures c.None? <==> a.winner.Some? && a.bids == []
  {
    if a.winner.None? then Some(NoBidsNotice)
    else if a.bids == [] then None
    else Some(EndedNotice(a.bids[|a.bids| - 1].bidderName, a.currentBid))
  }

  /** Ending any auction that holds a bid names the last bidder in the
      closing message; ending an empty auction that never had a winner
      reports no bids. */
  lemma EndNoticeAfterEnd(a: Auction)
    requires a.bids != [] || a.winner.None?
    ensures EndNotice(Ended(a)).Some?
    ensures a.bids != [] ==> EndNotice(Ended(a)) == Some(EndedNotice(a.bids[|a.bids| - 1].bidderName, a.currentBid))
    ensures a.bids == [] ==> EndNotice(Ended(a)) == Some(NoBidsNotice)
  {
  }

  /** What the end route answers: the winner and the final bid. */
  datatype EndReceipt = EndReceipt(winner: Option<UserId>, finalBid: real)

  /** POST end: refused only to an artist who does not own the painting,
      and when no auction is active; a buyer may end any active auction.
      The auction is switched off, the painting is 'sold' when there are
      bids and 'available' otherwise, and the chat logs one
      'auction_ended' message and is closed. */
  method EndAuction(p: Painting, chat: AuctionChat?, caller: UserId, role: Role, now: int)
    returns (r: Result<EndReceipt, ApiError>)
    modifies p`status, p`auction, chat
    ensures role == Artist && p.artist != caller ==> r == Err(Forbidden)
    ensures !(role == Artist && p.artist != caller) && !old(p.auction.isActive) ==>
      r == Err(BadRequest(NoActiveAuction))
    ensures (role == Artist && p.artist != caller) || !old(p.auction.isActive) ==>
      p.status == old(p.status) && p.auction == old(p.auction) && (chat != null ==> unchanged(chat))
    ensures !(role == Artist && p.artist != caller) && old(p.auction.isActive) ==>
      && p.auction == Ended(old(p.auction))
      && p.status == EndStatus(old(p.auction))
    ensures r.Ok? ==> r.value == EndReceipt(p.auction.winner, p.auction.currentBid)
    ensures r.Ok? && chat != null ==>
      && !chat.isActive && chat.participants == old(chat.participants)
      && EndNotice(p.auction).Some?
      && chat.messages == old(chat.messages) +
           [ChatMessage(caller, "System", EndNotice(p.auction).value, ChatMessageType.AuctionEnded, None, now)]
    ensures !(role == Artist && p.artist != caller) && old(p.auction.isActive) ==>
      (r.Ok? <==> chat == null || EndNotice(p.auction).Some?)
    ensures r.Err? && old(p.auction.isActive) && !(role == Artist && p.artist != caller) ==>
      r == Err(ServerError) && unchanged(chat)
  {
    if role == Artist && p.artist != caller {
      return Err(Forbidden);
    }
    if !p.auction.isActive {
      return Err(BadRequest(NoActiveAuction));
    }
    var bids := p.auction.bids;
    p.auction := p.auction.(isActive := false);
    p.status := if |bids| > 0 then Sold else Available;
    if |bids| > 0 {
      p.auction := p.auction.(winner := Some(bids[|bids| - 1].bidder));
    }
    if chat != null {
      var content := EndNotice(p.auction);
      if content.None? {
        return Err(ServerError);
      }
      var logged := chat.AddMessage(caller, "System", content.value, now, ChatMessageType.AuctionEnded);
      chat.isActive := false;
    }
    r := Ok(EndReceipt(p.auction.winner, p.auction.currentBid));
  }
}
