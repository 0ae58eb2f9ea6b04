/** The auction chat panel (`frontend/src/components/AuctionChat.jsx`): the
    client's copy of the auction details and chat log, the handlers of the
    pushed auction events, the client-side bid check with its minimum-bid
    formula, and the bid history it shows. */
module AuctionChatView {
  import opened Common
  import opened Text
  import opened Ledger
  import opened Sorting
  import opened Paintings
  import opened AuctionChats

  /** The auction details the panel holds; fields the server may omit are
      optional. */
  datatype Details = Details(
    currentBid: Option<real>,
    startingPrice: Option<real>,
    bidIncrement: Option<real>,
    participantCount: Option<nat>,
    isActive: bool,
    winner: Option<UserId>,
    bids: Option<seq<Bid>>,
    endTime: Option<int>)

  /** Who a shown message is from: the system or a user. */
  datatype Sender = SystemSender | UserSender(id: UserId)

  /** What a shown message says: a message loaded from the server, or one
      of the texts the event handlers build. */
  datatype Note =
    | Loaded(content: Content)
    | Said(text: string)
    | BidPlacedNote(bidder: string, amount: real)
    | JoinedNote(text: string)
    | WinnerNote(winner: UserId, finalBid: real)
    | NoBidsNote

  /** A message in the panel; a pushed chat message has no type. */
  datatype ViewMessage = ViewMessage(
    sender: Sender,
    senderName: string,
    note: Note,
    messageType: Option<ChatMessageType>,
    bidAmount: Option<real>,
    timestamp: int)

  /** The bid field as `parseFloat` reads it. */
  datatype AmountText = EmptyText | Unparsable | Parsed(value: real)

  /** The errors the panel shows. */
  datatype PanelError = InvalidBidAmount | BelowMinimum(minBid: real) | BidFailed | SendFailed

  /** `x || y` on optional numbers: an absent or zero `x` gives `y`. */
  function OrFalsy(x: Option<real>, y: Option<real>): (r: Option<real>)
    ensures x.Some? && x.value != 0.0 ==> r == x
    ensures x.None? || x.value == 0.0 ==> r == y
    ensures r.Some? && r.value == 0.0 ==> r == y
  {
    if x.Some? && x.value != 0.0 then x else y
  }

  /** The increment the client adds: `bidIncrement || 1`. */
  function ClientIncrement(d: Details): real {
    OrFalsy(d.bidIncrement, Some(1.0)).value
  }

  /** The minimum the bid handler enforces:
      `(currentBid || startingPrice) + (bidIncrement || 1)`. With no
      current bid and no starting price the sum is NaN, `None` here. */
  function MinBid(d: Details): Option<real> {
    var base := OrFalsy(d.currentBid, d.startingPrice);
    if base.Some? then Some(base.value + ClientIncrement(d)) else None
  }

  /** The minimum the panel displays, with a further `|| 0` fallback. */
  function DisplayedMinBid(d: Details): real {
    OrFalsy(OrFalsy(d.currentBid, d.startingPrice), Some(0.0)).value + ClientIncrement(d)
  }

  /** The displayed minimum is the enforced one whenever that is a number;
      otherwise it is the bare increment. */
  lemma DisplayedMinBidAgrees(d: Details)
    ensures MinBid(d).Some? ==> DisplayedMinBid(d) == MinBid(d).value
    ensures MinBid(d).None? ==> DisplayedMinBid(d) == ClientIncrement(d)
  {
  }

  /** What the bid handler does with the field: refuse with an error, or
      post the amount. */
  datatype BidDecision = Refuse(error: PanelError) | Post(amount: real)

  /** The client-side bid check: an empty or non-numeric field is refused,
      then an amount below the minimum; a NaN minimum lets every amount
      through. */
  function ValidateBid(input: AmountText, d: Details): (r: BidDecision)
    ensures input.EmptyText? || input.Unparsable? ==> r == Refuse(InvalidBidAmount)
    ensures r.Post? <==> input.Parsed? && (MinBid(d).None? || input.value >= MinBid(d).value)
    ensures r.Post? ==> r.amount == input.value
  {
    if !input.Parsed? then Refuse(InvalidBidAmount)
    else if MinBid(d).Some? && input.value < MinBid(d).value then Refuse(BelowMinimum(MinBid(d).value))
    else Post(input.value)
  }

  /** With a positive increment, an amount the client posts is strictly
      above the current bid (the server's third rule) and, on an auction
      with no bid yet, not below the starting price (its fourth). */
  lemma ClientCheckImpliesServerAmountRules(input: AmountText, d: Details)
    requires d.bidIncrement.None? || d.bidIncrement.value >= 0.0
    requires ValidateBid(input, d).Post?
    ensures d.currentBid.Some? && d.currentBid.value != 0.0 ==> input.value > d.currentBid.value
    ensures (d.currentBid.None? || d.currentBid.value == 0.0) && d.startingPrice.Some? ==>
      input.value > d.startingPrice.value
  {
  }

  /** The client is stricter than the server: with a current bid of 100 and
      an increment of 10 it refuses 105, which `placeBid` admits. And with
      neither a current bid nor a starting price it refuses nothing, not
      even a negative amount. */
  lemma ClientStricterThanServer(now: int, endTime: int)
    requires now <= endTime
    ensures var d := Details(Some(100.0), Some(50.0), Some(10.0), Some(1), true, None, None, Some(endTime));
      ValidateBid(Parsed(105.0), d) == Refuse(BelowMinimum(110.0))
    ensures var a := Auction(true, Some(0), Some(endTime), Some(50.0), 100.0, 10.0, [], None, 0);
      BidCheck(a, "b", Some(105.0), now) == Pass
    ensures var d := Details(None, None, None, None, true, None, None, None);
      ValidateBid(Parsed(-1.0), d) == Post(-1.0)
  {
  }

  /** The bid history: the last five bids, newest first; absent bids show
      the "No bids yet" placeholder (`None`). */
  function BidHistory(bids: Option<seq<Bid>>): Option<seq<Bid>> {
    if bids.None? then None
    else
      var bs := bids.value;
      Some(Reverse(bs[(if |bs| >= 5 then |bs| - 5 else 0)..]))
  }

  /** The history lists min(5, n) bids, the newest first, the i-th being
      the i-th from the end of the ledger; an empty ledger shows an empty
      list and not the placeholder. */
  lemma BidHistoryNewestFive(bids: Option<seq<Bid>>)
    ensures BidHistory(bids).None? <==> bids.None?
    ensures bids.Some? ==>
      var h := BidHistory(bids).value;
      var bs := bids.value;
      && |h| == (if |bs| >= 5 then 5 else |bs|)
      && forall i :: 0 <= i < |h| ==> h[i] == bs[|bs| - 1 - i]
    ensures bids == Some([]) ==> BidHistory(bids) == Some([])
  {
  }

  /** The bid input is offered only to a buyer while the auction is
      active. */
  predicate ShowBidInput(userRole: string, d: Details) {
    userRole == "buyer" && d.isActive
  }

  /** The input is offered to exactly the callers the bid route admits by
      role, and only while the panel holds the auction as active; any role
      string other than 'buyer' hides it. */
  lemma BidInputOnlyForBuyers(role: Role, d: Details, userRole: string)
    ensures ShowBidInput(if role == Artist then "artist" else "buyer", d) <==> role == Buyer && d.isActive
    ensures userRole != "buyer" ==> !ShowBidInput(userRole, d)
  {
  }

  /** The chat box posts its text only when it is not blank. */
  predicate CanSendChat(draft: string) {
    Trim(draft) != ""
  }

  /** A text the chat box posts is never the empty content the chat
      schema refuses; only its length can still make the route fail. */
  lemma SentChatIsNotEmpty(draft: string)
    requires CanSendChat(draft)
    ensures draft != "" && exists i :: 0 <= i < |draft| && !IsSpace(draft[i])
  {
  }

  /** The panel's state. */
  class AuctionChatPanel {
    var details: Details
    var messages: seq<ViewMessage>
    var bidAmount: AmountText
    var draft: string
    var error: Option<PanelError>

    constructor (details: Details)
      ensures this.details == details && messages == [] && bidAmount == EmptyText && draft == "" && error.None?
    {
      this.details := details;
      messages := [];
      bidAmount := EmptyText;
      draft := "";
      error := None;
    }

    /** Send in the chat box: a blank text is ignored; otherwise the text
        is posted as typed, untrimmed, and emptied when the server accepts
        it, kept with an error when it refuses. Returns the text posted, if
        any. */
    method SendChat(accepted: bool) returns (posted: Option<string>)
      modifies this`draft, this`error
      ensures !CanSendChat(old(draft)) ==> posted.None? && draft == old(draft) && error == old(error)
      ensures CanSendChat(old(draft)) ==> posted == Some(old(draft))
      ensures CanSendChat(old(draft)) && accepted ==> draft == "" && error == old(error)
      ensures CanSendChat(old(draft)) && !accepted ==> draft == old(draft) && error == Some(SendFailed)
    {
      if !CanSendChat(draft) {
        return None;
      }
      posted := Some(draft);
      if accepted {
        draft := "";
      } else {
        error := Some(SendFailed);
      }
    }

    /** `new_bid`: the current bid and participant count come from the
        event, everything else is kept, and one 'bid_placed' message is
        appended. */
    method OnNewBid(bidder: string, amount: real, timestamp: int, currentBid: real, participantCount: nat)
      modifies this`details, this`messages
      ensures details == old(details).(currentBid := Some(currentBid), participantCount := Some(participantCount))
      ensures messages == old(messages) +
        [ViewMessage(SystemSender, "System", BidPlacedNote(bidder, amount), Some(BidPlaced), Some(amount), timestamp)]
    {
      details := details.(currentBid := Some(currentBid), participantCount := Some(participantCount));
      messages := messages + [ViewMessage(SystemSender, "System", BidPlacedNote(bidder, amount), Some(BidPlaced), Some(amount), timestamp)];
    }

    /** `auction_message`: the pushed message is appended as it is. */
    method OnChatMessage(senderId: UserId, senderName: string, text: string, timestamp: int)
      modifies this`messages
      ensures messages == old(messages) + [ViewMessage(UserSender(senderId), senderName, Said(text), None, None, timestamp)]
    {
      messages := messages + [ViewMessage(UserSender(senderId), senderName, Said(text), None, None, timestamp)];
    }

    /** `user_joined`: one 'system' message with the event's text. */
    method OnUserJoined(text: string, now: int)
      modifies this`messages
      ensures messages == old(messages) + [ViewMessage(SystemSender, "System", JoinedNote(text), Some(SystemNote), None, now)]
    {
      messages := messages + [ViewMessage(SystemSender, "System", JoinedNote(text), Some(SystemNote), None, now)];
    }

    /** `auction_ended`: one 'auction_ended' message naming the winner, or
        saying there were no bids; the auction is marked inactive and its
        winner set. */
    method OnAuctionEnded(winner: Option<UserId>, finalBid: real, now: int)
      modifies this`details, this`messages
      ensures |messages| == |old(messages)| + 1 && messages[..|old(messages)|] == old(messages)
      ensures messages[|old(messages)|] == ViewMessage(SystemSender, "System",
        if winner.Some? then WinnerNote(winner.value, finalBid) else NoBidsNote,
        Some(ChatMessageType.AuctionEnded), None, now)
      ensures details == old(details).(isActive := false, winner := winner)
    {
      var note := if winner.Some? then WinnerNote(winner.value, finalBid) else NoBidsNote;
      messages := messages + [ViewMessage(SystemSender, "System", note, Some(ChatMessageType.AuctionEnded), None, now)];
      details := details.(isActive := false, winner := winner);
    }

    /** Place Bid: a refused field sets the error and posts nothing;
        otherwise the error is cleared and the amount is posted. When the
        server accepts it the field is emptied, when it refuses the error
        is shown. Returns the amount posted, if any. */
    method PlaceBid(accepted: bool) returns (posted: Option<real>)
      modifies this`error, this`bidAmount
      ensures ValidateBid(old(bidAmount), details).Refuse? ==>
        posted.None? && error == Some(ValidateBid(old(bidAmount), details).error) && bidAmount == old(bidAmount)
      ensures ValidateBid(old(bidAmount), details).Post? ==>
        && posted == Some(ValidateBid(old(bidAmount), details).amount)
        && (accepted ==> error.None? && bidAmount == EmptyText)
        && (!accepted ==> error == Some(BidFailed) && bidAmount == old(bidAmount))
    {
      var decision := ValidateBid(bidAmount, details);
      if decision.Refuse? {
        error := Some(decision.error);
        return None;
      }
      error := None;
      posted := Some(decision.amount);
      if accepted {
        bidAmount := EmptyText;
      } else {
        error := Some(BidFailed);
      }
    }
  }
}
