/** Shared vocabulary of the marketplace model: optional values, results of
    request handlers, user identities and roles. */
module Common {

  /** An optional field or an optional request parameter. */
  datatype Option<+T> = None | Some(value: T)

  /** The outcome of an operation that can be refused. */
  datatype Result<+T, +E> = Ok(value: T) | Err(error: E)

  /** The outcome of an operation that returns nothing but can be refused. */
  datatype Outcome<+E> = Pass | Fail(error: E)

  /** A user reference (an object id compared through its string form). */
  type UserId = nat

  /** The role carried by a request's credential. */
  datatype Role = Artist | Buyer

  /** The HTTP-level refusals the routes answer with. */
  datatype ApiError =
    | Forbidden        // 403
    | NotFound         // 404
    | BadRequest(reason: Reason)  // 400
    | ServerError      // 500

  /** Why a request was answered with 400. */
  datatype Reason =
    | NotAvailable        // painting status is not 'available'
    | NoActiveAuction     // auction missing or not active
    | AuctionEnded        // auction expired
    | BidRejected(e: BidError)
    | AmountRequired      // bid amount missing from the request
    | OfferTooLow         // direct-sale offer NaN or below price
    | NotAnOffer          // message is not an 'auction_offer'

  /** The errors `placeBid` throws, in the order it checks them, and the
      schema validation that `save` applies to the pushed bid. */
  datatype BidError =
    | NotActive           // 'Auction is not active'
    | Expired             // 'Auction has ended'
    | NotAboveCurrent     // 'Bid must be higher than current bid'
    | BelowStartingPrice  // 'Bid must be at least ...'
    | InvalidAmount       // the amount is NaN / missing / negative: save rejects it
    | MissingBidderName   // the bidder name is empty: save rejects it
}
