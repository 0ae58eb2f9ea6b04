/** The records of the buyer–artist conversation store
    (`backend/models/Message.js`, `backend/models/Conversation.js`): their
    enumerations, defaults and the validation a new message passes when it
    is saved. Ids are positions in the store. */
module ChatRecords {
  import opened Common
  import opened Text

  /** `messageType`: 'text', 'auction_offer', 'auction_accept' or
      'auction_decline'. */
  datatype MessageType = TextMessage | AuctionOffer | AuctionAccept | AuctionDecline

  function MessageTypeName(t: MessageType): string {
    match t
    case TextMessage => "text"
    case AuctionOffer => "auction_offer"
    case AuctionAccept => "auction_accept"
    case AuctionDecline => "auction_decline"
  }

  /** The enum validator: a string names a message type or is refused. */
  function ParseMessageType(s: string): Option<MessageType> {
    if s == "text" then Some(TextMessage)
    else if s == "auction_offer" then Some(AuctionOffer)
    else if s == "auction_accept" then Some(AuctionAccept)
    else if s == "auction_decline" then Some(AuctionDecline)
    else None
  }

  /** The validator admits exactly the four names, each as its own type. */
  lemma MessageTypeNames(s: string, t: MessageType)
    ensures ParseMessageType(s) == Some(t) <==> s == MessageTypeName(t)
    ensures ParseMessageType(MessageTypeName(t)) == Some(t)
  {
  }

  /** `auctionDetails.status`: 'pending', 'accepted', 'declined' or
      'expired'. */
  datatype OfferStatus = Pending | Accepted | Declined | OfferExpired

  function OfferStatusName(st: OfferStatus): string {
    match st
    case Pending => "pending"
    case Accepted => "accepted"
    case Declined => "declined"
    case OfferExpired => "expired"
  }

  function ParseOfferStatus(s: string): Option<OfferStatus> {
    if s == "pending" then Some(Pending)
    else if s == "accepted" then Some(Accepted)
    else if s == "declined" then Some(Declined)
    else if s == "expired" then Some(OfferExpired)
    else None
  }

  /** The validator admits exactly the four offer-status names. */
  lemma OfferStatusNames(s: string, st: OfferStatus)
    ensures ParseOfferStatus(s) == Some(st) <==> s == OfferStatusName(st)
    ensures ParseOfferStatus(OfferStatusName(st)) == Some(st)
  {
  }

  /** A conversation's `status`: 'active', 'archived' or 'blocked'. */
  datatype ConversationStatus = ActiveConversation | Archived | Blocked

  /** The nested `auctionDetails` path; Mongoose materialises it on every
      message, so even a text message has a 'pending' status. */
  datatype OfferDetails = OfferDetails(offerPrice: Option<real>, offerDescription: Option<string>, status: OfferStatus)

  /** A message document. */
  datatype Message = Message(
    conversationId: nat,
    senderId: UserId,
    receiverId: UserId,
    content: string,
    messageType: MessageType,
    details: OfferDetails,
    isRead: bool,
    readAt: Option<int>,
    createdAt: int)

  /** Longest message content the schema admits (`maxlength: 1000`), in
      UTF-16 code units. */
  const MaxMessageLength := 1000

  /** The `auctionDetails` object of a send request; an absent status is
      `None`. */
  datatype OfferInput = OfferInput(offerPrice: Option<real>, offerDescription: Option<string>, status: Option<string>)

  /** The stored details for a request's `auctionDetails`: absent details
      or an absent status give 'pending'; a status outside the enum fails
      validation. A supplied price, description and valid status are
      stored as given. */
  function NewDetails(input: Option<OfferInput>): (r: Option<OfferDetails>)
    ensures input.None? ==> r == Some(OfferDetails(None, None, Pending))
    ensures input.Some? && input.value.status.None? ==> r.Some? && r.value.status == Pending
    ensures input.Some? && input.value.status.Some? ==>
      (r.Some? <==> ParseOfferStatus(input.value.status.value).Some?)
    ensures input.Some? && r.Some? ==>
      && r.value.offerPrice == input.value.offerPrice
      && r.value.offerDescription == input.value.offerDescription
      && (input.value.status.Some? ==> OfferStatusName(r.value.status) == input.value.status.value)
  {
    if input.None? then Some(OfferDetails(None, None, Pending))
    else
      var st := if input.value.status.None? then Some(Pending) else ParseOfferStatus(input.value.status.value);
      if st.None? then None
      else Some(OfferDetails(input.value.offerPrice, input.value.offerDescription, st.value))
  }

  /** `new Message({...})` followed by `save()`: the content is trimmed,
      then it must be non-empty and at most 1000 UTF-16 code units; the type
      defaults to 'text' and must be in the enum; the details must
      validate. A supplied type and details are stored as given. A new
      message is unread. `None` is a validation failure. */
  function NewMessage(conversationId: nat, sender: UserId, receiver: UserId, content: Option<string>,
                      messageType: Option<string>, details: Option<OfferInput>, now: int): (r: Option<Message>)
    ensures r.Some? <==>
      && content.Some? && Trim(content.value) != "" && Utf16Length(Trim(content.value)) <= MaxMessageLength
      && (messageType.None? || ParseMessageType(messageType.value).Some?)
      && NewDetails(details).Some?
    ensures r.Some? ==>
      && r.value.content == Trim(content.value) && Trimmed(r.value.content)
      && r.value.conversationId == conversationId && r.value.senderId == sender && r.value.receiverId == receiver
      && (messageType.None? ==> r.value.messageType == TextMessage)
      && (messageType.Some? ==> MessageTypeName(r.value.messageType) == messageType.value)
      && r.value.details == NewDetails(details).value
      && !r.value.isRead && r.value.readAt.None? && r.value.createdAt == now
  {
    var text := if content.Some? then Trim(content.value) else "";
    var kind := if messageType.None? then Some(TextMessage) else ParseMessageType(messageType.value);
    var offer := NewDetails(details);
    if content.None? || text == "" || Utf16Length(text) > MaxMessageLength || kind.None? || offer.None? then None
    else Some(Message(conversationId, sender, receiver, text, kind.value, offer.value, false, None, now))
  }

  /** The limit counts UTF-16 code units: a run of `n` letters is stored
      exactly when 1 <= n <= 1000, a run of `n` emoji (two units each)
      exactly when 1 <= n <= 500, so 600 emoji are refused. */
  lemma MessageLimitInCodeUnits(conversationId: nat, sender: UserId, receiver: UserId, n: nat, now: int)
    ensures NewMessage(conversationId, sender, receiver, Some(Repeat('a', n)), None, None, now).Some? <==> 1 <= n <= 1000
    ensures NewMessage(conversationId, sender, receiver, Some(Repeat('\U{1F600}', n)), None, None, now).Some? <==>
      1 <= n <= 500
  {
    RunStored(conversationId, sender, receiver, 'a', n, now);
    Utf16LengthPlanes(Repeat('a', n));
    RunStored(conversationId, sender, receiver, '\U{1F600}', n, now);
    Utf16LengthPlanes(Repeat('\U{1F600}', n));
  }

  /** A run of one non-blank character is stored exactly when it is not
      empty and fits the limit. */
  lemma RunStored(conversationId: nat, sender: UserId, receiver: UserId, c: char, n: nat, now: int)
    requires !IsSpace(c)
    ensures NewMessage(conversationId, sender, receiver, Some(Repeat(c, n)), None, None, now).Some? <==>
      n >= 1 && Utf16Length(Repeat(c, n)) <= MaxMessageLength
  {
    RepeatTrimmed(c, n);
  }

  /** A conversation document: `lastMessage` is the id of the latest
      message, and each party has its own unread counter. */
  datatype Conversation = Conversation(
    paintingId: nat,
    buyerId: UserId,
    artistId: UserId,
    status: ConversationStatus,
    lastMessage: Option<nat>,
    lastMessageAt: int,
    unreadBuyer: nat,
    unreadArtist: nat)

  /** `new Conversation({ paintingId, buyerId, artistId })` with its
      defaults: active, no last message, last activity now, both counters
      zero. */
  function NewConversation(paintingId: nat, buyer: UserId, artist: UserId, now: int): (c: Conversation)
    ensures c.paintingId == paintingId && c.buyerId == buyer && c.artistId == artist
    ensures c.status == ActiveConversation && c.lastMessage.None? && c.lastMessageAt == now
    ensures c.unreadBuyer == 0 && c.unreadArtist == 0
  {
    Conversation(paintingId, buyer, artist, ActiveConversation, None, now, 0, 0)
  }

  /** The user a conversation's member writes to: the artist when the
      sender is the buyer, otherwise the buyer. */
  function Receiver(c: Conversation, sender: UserId): (u: UserId)
    ensures sender == c.buyerId ==> u == c.artistId
    ensures sender != c.buyerId ==> u == c.buyerId
    ensures u == c.buyerId || u == c.artistId
    ensures c.buyerId != c.artistId && (sender == c.buyerId || sender == c.artistId) ==> u != sender
  {
    if c.buyerId == sender then c.artistId else c.buyerId
  }

  /** The receiver is always a member of the conversation, and for a
      member sender it is the other party. */
  lemma ReceiverIsOtherParty(c: Conversation, sender: UserId)
    requires sender == c.buyerId || sender == c.artistId
    requires c.buyerId != c.artistId
    ensures Receiver(c, sender) == c.buyerId || Receiver(c, sender) == c.artistId
    ensures Receiver(c, sender) != sender
    ensures Receiver(c, Receiver(c, sender)) == sender
  {
  }
}
