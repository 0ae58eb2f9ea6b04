/** The buyer–artist chat panel (`frontend/src/components/Chat.jsx`): its
    message list and typing indicator as the pushed events change them, the
    guards in front of the two kinds of send request, and when the offer
    buttons and the read mark are shown. The viewer's id and role come
    from the session. */
module ChatView {
  import opened Common
  import opened Text
  import opened ChatRecords
  import opened ChatRoutes

  /** A message in the panel together with its id. */
  datatype Shown = Shown(id: nat, message: Message)

  /** No user appears twice. */
  predicate Distinct(s: seq<UserId>) {
    forall i, j :: 0 <= i < j < |s| ==> s[i] != s[j]
  }

  /** `filter(id => id !== u)`. */
  function Without(s: seq<UserId>, u: UserId): (r: seq<UserId>)
    ensures forall x :: x in r <==> x in s && x != u
    ensures |r| <= |s|
  {
    if s == [] then []
    else if s[0] == u then Without(s[1..], u)
    else [s[0]] + Without(s[1..], u)
  }

  /** Filtering keeps order: the list without `u` of a concatenation is
      that of each part, in turn. */
  lemma {:induction false} WithoutAppend(a: seq<UserId>, b: seq<UserId>, u: UserId)
    ensures Without(a + b, u) == Without(a, u) + Without(b, u)
  {
    if a != [] {
      assert (a + b)[0] == a[0] && (a + b)[1..] == a[1..] + b;
      WithoutAppend(a[1..], b, u);
    } else {
      assert a + b == b;
    }
  }

  /** Filtering keeps repeats: every other user stays as often as it
      occurs, and `u` is gone. */
  lemma {:induction false} WithoutCounts(s: seq<UserId>, u: UserId)
    ensures multiset(Without(s, u)) == multiset(s)[u := 0]
  {
    if s != [] {
      WithoutCounts(s[1..], u);
      assert s == [s[0]] + s[1..];
      assert multiset(s) == multiset{s[0]} + multiset(s[1..]);
    }
  }

  /** Filtering keeps a list free of repeats. */
  lemma {:induction false} WithoutKeepsDistinct(s: seq<UserId>, u: UserId)
    requires Distinct(s)
    ensures Distinct(Without(s, u))
  {
    if s != [] {
      assert Distinct(s[1..]) by {
        forall i, j | 0 <= i < j < |s[1..]| ensures s[1..][i] != s[1..][j] {
          assert s[1..][i] == s[i + 1] && s[1..][j] == s[j + 1];
        }
      }
      WithoutKeepsDistinct(s[1..], u);
      if s[0] != u {
        assert s[0] !in s[1..] by {
          forall k | 0 <= k < |s[1..]| ensures s[1..][k] != s[0] {
            assert s[1..][k] == s[k + 1];
          }
        }
        var rest := Without(s[1..], u);
        assert Without(s, u) == [s[0]] + rest;
        forall i, j | 0 <= i < j < |Without(s, u)| ensures Without(s, u)[i] != Without(s, u)[j] {
          if i == 0 {
            assert Without(s, u)[j] == rest[j - 1] && rest[j - 1] in rest;
          } else {
            assert Without(s, u)[i] == rest[i - 1] && Without(s, u)[j] == rest[j - 1];
          }
        }
      }
    }
  }

  /** The `user_typing` handler: the viewer's own events are ignored; a
      user who starts typing moves to the end of the list, one who stops
      leaves it. */
  function TypingUpdate(prev: seq<UserId>, viewer: UserId, userId: UserId, typing: bool): seq<UserId> {
    if userId == viewer then prev
    else if typing then Without(prev, userId) + [userId]
    else Without(prev, userId)
  }

  /** The typing list names exactly those who last reported typing: a
      started user is in it once, at the end, a stopped one is not, the
      others stay in their order (the list begins with `prev` without the
      user, see `WithoutAppend` and `WithoutCounts`); it never holds the
      viewer if it did not, and never a repeat. */
  lemma TypingUpdateSpec(prev: seq<UserId>, viewer: UserId, userId: UserId, typing: bool)
    ensures userId == viewer ==> TypingUpdate(prev, viewer, userId, typing) == prev
    ensures userId != viewer && typing ==>
      var r := TypingUpdate(prev, viewer, userId, typing);
      r != [] && r[|r| - 1] == userId && userId !in r[..|r| - 1]
    ensures userId != viewer && !typing ==> userId !in TypingUpdate(prev, viewer, userId, typing)
    ensures userId != viewer ==> TypingUpdate(prev, viewer, userId, typing)[..|Without(prev, userId)|] == Without(prev, userId)
    ensures forall x :: x != userId ==> (x in TypingUpdate(prev, viewer, userId, typing) <==> x in prev)
    ensures viewer !in prev ==> viewer !in TypingUpdate(prev, viewer, userId, typing)
    ensures Distinct(prev) ==> Distinct(TypingUpdate(prev, viewer, userId, typing))
  {
    if userId != viewer {
      var w := Without(prev, userId);
      if typing {
        assert TypingUpdate(prev, viewer, userId, typing)[..|w|] == w;
      } else {
        assert TypingUpdate(prev, viewer, userId, typing) == w;
      }
      if Distinct(prev) {
        WithoutKeepsDistinct(prev, userId);
      }
    }
  }

  /** A message with its offer status replaced. */
  function WithOfferStatus(m: Message, status: OfferStatus): Message {
    m.(details := m.details.(status := status))
  }

  /** The `auction_update` handler: every shown message with the id gets
      the new offer status; the rest stay. */
  function ApplyAuctionUpdate(ms: seq<Shown>, messageId: nat, status: OfferStatus): (r: seq<Shown>)
    ensures |r| == |ms|
    ensures forall i :: 0 <= i < |ms| ==> r[i].id == ms[i].id
    ensures forall i :: 0 <= i < |ms| && ms[i].id != messageId ==> r[i] == ms[i]
    ensures forall i :: 0 <= i < |ms| && ms[i].id == messageId ==>
      r[i].message == WithOfferStatus(ms[i].message, status)
  {
    seq(|ms|, i requires 0 <= i < |ms| =>
      if ms[i].id == messageId then Shown(ms[i].id, WithOfferStatus(ms[i].message, status)) else ms[i])
  }

  /** Every shown message is the stored one with its id. */
  predicate Mirrors(ms: seq<Shown>, store: seq<Message>) {
    forall i :: 0 <= i < |ms| ==> ms[i].id < |store| && ms[i].message == store[ms[i].id]
  }

  /** The update event keeps the panel in step with the store: if the
      panel showed the stored messages before the status update, it shows
      the updated ones after. */
  lemma AuctionUpdateMirrorsStore(ms: seq<Shown>, store: seq<Message>, mid: nat, status: OfferStatus)
    requires Mirrors(ms, store)
    requires mid < |store|
    ensures Mirrors(ApplyAuctionUpdate(ms, mid, status), store[mid := WithOfferStatus(store[mid], status)])
  {
  }

  /** The text box sends only a non-blank text. */
  predicate CanSendText(draft: string) {
    Trim(draft) != ""
  }

  /** A text the panel sends (untrimmed, as 'text') is stored exactly when
      its trimmed form fits the 1000-unit limit, as the trimmed text
      with type 'text'. */
  lemma TextRequestStored(cid: nat, sender: UserId, receiver: UserId, draft: string, now: int)
    requires CanSendText(draft)
    ensures NewMessage(cid, sender, receiver, Some(draft), Some("text"), None, now).Some? <==>
      Utf16Length(Trim(draft)) <= MaxMessageLength
    ensures NewMessage(cid, sender, receiver, Some(draft), Some("text"), None, now).Some? ==>
      && NewMessage(cid, sender, receiver, Some(draft), Some("text"), None, now).value.content == Trim(draft)
      && NewMessage(cid, sender, receiver, Some(draft), Some("text"), None, now).value.messageType == TextMessage
  {
    assert ParseMessageType("text") == Some(TextMessage);
  }

  /** The offer form sends only with a price and a description. */
  predicate CanSendOffer(price: string, description: string) {
    price != "" && description != ""
  }

  /** The content of an offer message. */
  function OfferContent(price: string): string {
    "Auction offer: $" + price
  }

  /** The `auctionDetails` of an offer request; the price is the form's
      text as a number (`None` when it does not parse). */
  function OfferRequest(parsedPrice: Option<real>, description: string): OfferInput {
    OfferInput(parsedPrice, Some(description), Some("pending"))
  }

  /** The offer text adds 16 code units to the price, and trimming it
      keeps it within the limit when the price is at most 984 units. */
  lemma OfferContentFits(price: string)
    requires Utf16Length(price) <= MaxMessageLength - 16
    ensures Utf16Length(Trim(OfferContent(price))) <= MaxMessageLength
  {
    OfferPrefixUnits();
    Utf16LengthAppend("Auction offer: $", price);
    TrimShortens(OfferContent(price));
  }

  /** The offer text's fixed part is 16 code units long. */
  lemma OfferPrefixUnits()
    ensures Utf16Length("Auction offer: $") == 16
  {
    var prefix := "Auction offer: $";
    assert forall i :: 0 <= i < |prefix| ==> prefix[i] < '\U{10000}';
    Utf16LengthPlanes(prefix);
  }

  /** An offer the panel sends is stored as a pending 'auction_offer' with
      the form's description whenever the price text is not absurdly long:
      its content is never blank. */
  lemma OfferRequestStored(cid: nat, sender: UserId, receiver: UserId, price: string, description: string,
                           parsedPrice: Option<real>, now: int)
    requires CanSendOffer(price, description)
    requires Utf16Length(price) <= MaxMessageLength - 16
    ensures
      var m := NewMessage(cid, sender, receiver, Some(OfferContent(price)), Some("auction_offer"),
                          Some(OfferRequest(parsedPrice, description)), now);
      && m.Some?
      && m.value.messageType == AuctionOffer
      && m.value.details == OfferDetails(parsedPrice, Some(description), Pending)
      && m.value.content == Trim(OfferContent(price))
  {
    var c := OfferContent(price);
    assert c[0] == 'A' && !IsSpace(c[0]);
    assert Trim(c) != [];
    OfferContentFits(price);
    assert ParseMessageType("auction_offer") == Some(AuctionOffer);
    assert ParseOfferStatus("pending") == Some(Pending);
  }

  /** The Accept and Decline buttons: on an offer from someone else, still
      pending, to a viewer whose session role is 'artist'. */
  predicate ShowOfferActions(m: Message, viewer: UserId, viewerRole: string) {
    m.messageType == AuctionOffer && m.senderId != viewer && m.details.status == Pending && viewerRole == "artist"
  }

  /** The buttons lead to allowed updates: in a conversation between two
      different users, a member who sees them on a message sent in it is
      its receiver, so both answers pass the route's checks. */
  lemma OfferActionsAllowed(c: Conversation, m: Message, viewer: UserId, viewerRole: string)
    requires c.buyerId != c.artistId
    requires viewer == c.buyerId || viewer == c.artistId
    requires m.senderId == c.buyerId || m.senderId == c.artistId
    requires m.receiverId == Receiver(c, m.senderId)
    requires ShowOfferActions(m, viewer, viewerRole)
    ensures viewer == m.receiverId
    ensures OfferUpdateCheck(m, viewer, "accepted") == Pass
    ensures OfferUpdateCheck(m, viewer, "declined") == Pass
  {
    assert ParseOfferStatus("accepted") == Some(Accepted);
    assert ParseOfferStatus("declined") == Some(Declined);
  }

  /** The read mark: on the viewer's own messages once they are read. */
  predicate ShowReadMark(m: Message, viewer: UserId) {
    m.isRead && m.senderId == viewer
  }

  /** Once the receiver has listed the conversation, every message the
      viewer sent them in it carries the read mark. */
  lemma ReadMarkAfterList(ms: seq<Message>, cid: nat, viewer: UserId, receiver: UserId, now: int)
    ensures forall i :: 0 <= i < |ms| && ms[i].conversationId == cid && ms[i].receiverId == receiver ==>
      (ms[i].senderId == viewer ==> ShowReadMark(MarkAllRead(ms, cid, receiver, now)[i], viewer))
  {
    MarkAllReadSpec(ms, cid, receiver, now);
  }

  /** The panel's state for one viewer. */
  class ChatPanel {
    const viewer: UserId
    const viewerRole: string
    var messages: seq<Shown>
    var typingUsers: seq<UserId>
    var draft: string
    var offerPrice: string
    var offerDescription: string
    var showOfferForm: bool

    constructor (viewer: UserId, viewerRole: string, loaded: seq<Shown>)
      ensures this.viewer == viewer && this.viewerRole == viewerRole && messages == loaded
      ensures typingUsers == [] && draft == "" && offerPrice == "" && offerDescription == "" && !showOfferForm
    {
      this.viewer := viewer;
      this.viewerRole := viewerRole;
      messages := loaded;
      typingUsers := [];
      draft := "";
      offerPrice := "";
      offerDescription := "";
      showOfferForm := false;
    }

    /** The typing indicator shows while someone else is typing. */
    predicate ShowTyping()
      reads this
    {
      |typingUsers| > 0
    }

    /** `new_message`: the pushed message is appended. */
    method OnNewMessage(m: Shown)
      modifies this`messages
      ensures messages == old(messages) + [m]
    {
      messages := messages + [m];
    }

    /** `user_typing`. */
    method OnTyping(userId: UserId, typing: bool)
      modifies this`typingUsers
      ensures typingUsers == TypingUpdate(old(typingUsers), viewer, userId, typing)
      ensures Distinct(old(typingUsers)) ==> Distinct(typingUsers)
      ensures userId != viewer ==> (ShowTyping() <== typing)
    {
      TypingUpdateSpec(typingUsers, viewer, userId, typing);
      if userId != viewer {
        if typing {
          typingUsers := Without(typingUsers, userId) + [userId];
        } else {
          typingUsers := Without(typingUsers, userId);
        }
      }
    }

    /** `auction_update`. */
    method OnAuctionUpdate(messageId: nat, status: OfferStatus)
      modifies this`messages
      ensures messages == ApplyAuctionUpdate(old(messages), messageId, status)
    {
      messages := ApplyAuctionUpdate(messages, messageId, status);
    }

    /** Send: a blank text is ignored; otherwise the text is posted as
        typed and the box is emptied when the server accepts it. Returns
        the content posted, if any. */
    method SendText(accepted: bool) returns (posted: Option<string>)
      modifies this`draft
      ensures !CanSendText(old(draft)) ==> posted.None? && draft == old(draft)
      ensures CanSendText(old(draft)) ==> posted == Some(old(draft)) && draft == (if accepted then "" else old(draft))
    {
      if !CanSendText(draft) {
        return None;
      }
      posted := Some(draft);
      if accepted {
        draft := "";
      }
    }

    /** Send Offer: without a price or a description nothing is sent;
        otherwise the offer is posted and, when the server accepts it, the
        form is emptied and hidden. Returns the content and details
        posted, if any. */
    method SendOffer(parsedPrice: Option<real>, accepted: bool) returns (posted: Option<(string, OfferInput)>)
      modifies this`offerPrice, this`offerDescription, this`showOfferForm
      ensures !CanSendOffer(old(offerPrice), old(offerDescription)) ==>
        posted.None? && offerPrice == old(offerPrice) && offerDescription == old(offerDescription) &&
        showOfferForm == old(showOfferForm)
      ensures CanSendOffer(old(offerPrice), old(offerDescription)) ==>
        posted == Some((OfferContent(old(offerPrice)), OfferRequest(parsedPrice, old(offerDescription))))
      ensures CanSendOffer(old(offerPrice), old(offerDescription)) && accepted ==>
        offerPrice == "" && offerDescription == "" && !showOfferForm
      ensures CanSendOffer(old(offerPrice), old(offerDescription)) && !accepted ==>
        offerPrice == old(offerPrice) && offerDescription == old(offerDescription) && showOfferForm == old(showOfferForm)
    {
      if !CanSendOffer(offerPrice, offerDescription) {
        return None;
      }
      posted := Some((OfferContent(offerPrice), OfferRequest(parsedPrice, offerDescription)));
      if accepted {
        offerPrice := "";
        offerDescription := "";
        showOfferForm := false;
      }
    }
  }
}
