/** The buyer–artist conversation routes (`backend/routes/chat.js`) over
    an in-memory store of conversations and messages, where a record's id
    is its position. The caller's id and role come from the request's
    credential; a painting that is not found is `None`. */
module ChatRoutes {
  import opened Common
  import opened Sorting
  import opened ChatRecords

  /** The party of a conversation a role stands for: the artist for an
      artist, the buyer for anyone else. */
  function Party(c: Conversation, role: Role): UserId {
    if role == Artist then c.artistId else c.buyerId
  }

  /** A stored conversation together with its id. */
  datatype Stored = Stored(id: nat, conversation: Conversation)

  /** The store's conversations paired with their ids. */
  function WithIds(cs: seq<Conversation>): (r: seq<Stored>)
    ensures |r| == |cs|
    ensures forall i :: 0 <= i < |cs| ==> r[i] == Stored(i, cs[i])
  {
    seq(|cs|, i requires 0 <= i < |cs| => Stored(i, cs[i]))
  }

  /** The conversations whose `role` party is `u`, in store order. */
  function Involving(cs: seq<Stored>, u: UserId, role: Role): (r: seq<Stored>)
    ensures forall c :: c in r <==> c in cs && Party(c.conversation, role) == u
    ensures multiset(r) <= multiset(cs)
  {
    if cs == [] then []
    else
      assert cs == [cs[0]] + cs[1..];
      if Party(cs[0].conversation, role) == u then [cs[0]] + Involving(cs[1..], u, role)
      else Involving(cs[1..], u, role)
  }

  /** The sort key of the conversation list. */
  function LastMessageAt(c: Stored): int {
    c.conversation.lastMessageAt
  }

  /** GET conversations: an artist's conversations as artist, anyone
      else's as buyer, each with its id, most recently active first. */
  function ConversationList(cs: seq<Conversation>, u: UserId, role: Role): seq<Stored> {
    SortNewestFirst(Involving(WithIds(cs), u, role), LastMessageAt)
  }

  /** The list holds exactly the caller's conversations for the caller's
      role, each with the id it is stored under, once, most recent
      activity first. */
  lemma ConversationListSpec(cs: seq<Conversation>, u: UserId, role: Role)
    ensures forall c :: c in ConversationList(cs, u, role) <==>
      c.id < |cs| && cs[c.id] == c.conversation && Party(c.conversation, role) == u
    ensures multiset(ConversationList(cs, u, role)) == multiset(Involving(WithIds(cs), u, role))
    ensures multiset(ConversationList(cs, u, role)) <= multiset(WithIds(cs))
    ensures NewestFirst(ConversationList(cs, u, role), LastMessageAt)
  {
    var all := WithIds(cs);
    SortIsNewestFirst(Involving(all, u, role), LastMessageAt);
    forall c ensures c in ConversationList(cs, u, role) <==> c in Involving(all, u, role) {
      assert c in ConversationList(cs, u, role) <==> c in multiset(ConversationList(cs, u, role));
    }
    forall c ensures c in all <==> c.id < |cs| && cs[c.id] == c.conversation {
      if c in all {
        var i :| 0 <= i < |all| && all[i] == c;
      }
    }
  }

  /** A conversation about `paintingId` between `buyer` and `artist`. */
  predicate Matches(c: Conversation, paintingId: nat, buyer: UserId, artist: UserId) {
    c.paintingId == paintingId && c.buyerId == buyer && c.artistId == artist
  }

  /** `findOne` by painting, buyer and artist: the position of the first
      match, or the length when there is none. */
  function FindConversation(cs: seq<Conversation>, paintingId: nat, buyer: UserId, artist: UserId): (k: nat)
    ensures k <= |cs|
    ensures forall j :: 0 <= j < k ==> !Matches(cs[j], paintingId, buyer, artist)
    ensures k < |cs| ==> Matches(cs[k], paintingId, buyer, artist)
  {
    if cs == [] then 0
    else if Matches(cs[0], paintingId, buyer, artist) then 0
    else 1 + FindConversation(cs[1..], paintingId, buyer, artist)
  }

  /** No two conversations share painting, buyer and artist. The index on
      these fields is not unique: only find-before-create keeps this. */
  ghost predicate NoDuplicateConversations(cs: seq<Conversation>) {
    forall i, j :: 0 <= i < j < |cs| ==>
      !Matches(cs[j], cs[i].paintingId, cs[i].buyerId, cs[i].artistId)
  }

  /** What opening a conversation answers: its id and whether it was just
      created. */
  datatype Opened = Opened(id: nat, created: bool)

  /** The messages of one conversation, in store order. */
  function InConversation(ms: seq<Message>, cid: nat): (r: seq<Message>)
    ensures forall m :: m in r <==> m in ms && m.conversationId == cid
    ensures multiset(r) <= multiset(ms)
  {
    if ms == [] then []
    else
      assert ms == [ms[0]] + ms[1..];
      if ms[0].conversationId == cid then [ms[0]] + InConversation(ms[1..], cid)
      else InConversation(ms[1..], cid)
  }

  /** The sort key of the message list. */
  function CreatedAt(m: Message): int {
    m.createdAt
  }

  /** One page of a conversation: its messages newest first, past the
      first `skip`, at most `limit` of them (0 for all), then reversed to
      oldest first. */
  function MessagePage(ms: seq<Message>, cid: nat, skip: nat, limit: nat): seq<Message> {
    NewestPage(InConversation(ms, cid), CreatedAt, skip, limit)
  }

  /** A page holds min(limit, what is left past `skip`) messages of the
      conversation, all of them from it, oldest first. */
  lemma MessagePageWindow(ms: seq<Message>, cid: nat, skip: nat, limit: nat)
    ensures var left := if skip <= |InConversation(ms, cid)| then |InConversation(ms, cid)| - skip else 0;
      |MessagePage(ms, cid, skip, limit)| == if limit == 0 || limit >= left then left else limit
    ensures OldestFirst(MessagePage(ms, cid, skip, limit), CreatedAt)
    ensures forall m :: m in MessagePage(ms, cid, skip, limit) ==> m in ms && m.conversationId == cid
  {
    var mine := InConversation(ms, cid);
    var page := MessagePage(ms, cid, skip, limit);
    NewestPageLength(mine, CreatedAt, skip, limit);
    NewestPageOrder(mine, CreatedAt, skip, limit);
    NewestPageFrom(mine, CreatedAt, skip, limit);
    forall m | m in page ensures m in ms && m.conversationId == cid {
      assert m in multiset(page);
    }
  }

  /** The first page holds the conversation's newest messages: a message
      of the conversation left off it is no newer than any message on it. */
  lemma FirstPageIsNewest(ms: seq<Message>, cid: nat, limit: nat)
    ensures forall m, i ::
      m in multiset(InConversation(ms, cid)) - multiset(MessagePage(ms, cid, 0, limit)) &&
      0 <= i < |MessagePage(ms, cid, 0, limit)| ==>
        CreatedAt(m) <= CreatedAt(MessagePage(ms, cid, 0, limit)[i])
  {
    NewestPageFirst(InConversation(ms, cid), CreatedAt, limit);
  }

  /** A message after the read marking of `u` listing conversation `cid`:
      unread messages of the conversation addressed to `u` become read at
      `now`; every other message is untouched. */
  function MarkRead(m: Message, cid: nat, u: UserId, now: int): Message {
    if m.conversationId == cid && m.receiverId == u && !m.isRead then m.(isRead := true, readAt := Some(now))
    else m
  }

  /** The message store after `updateMany` marks `u`'s messages read. */
  function MarkAllRead(ms: seq<Message>, cid: nat, u: UserId, now: int): (r: seq<Message>)
    ensures |r| == |ms|
    ensures forall i :: 0 <= i < |ms| ==> r[i] == MarkRead(ms[i], cid, u, now)
    ensures forall i :: 0 <= i < |ms| && ms[i].conversationId == cid && ms[i].receiverId == u ==> r[i].isRead
  {
    seq(|ms|, i requires 0 <= i < |ms| => MarkRead(ms[i], cid, u, now))
  }

  /** After the marking nothing in the conversation addressed to `u` is
      unread, whether or not it was on the page; every message keeps its
      sender, receiver, conversation and content, and messages outside the
      conversation or addressed to someone else are unchanged. */
  lemma MarkAllReadSpec(ms: seq<Message>, cid: nat, u: UserId, now: int)
    ensures forall i :: 0 <= i < |ms| && ms[i].conversationId == cid && ms[i].receiverId == u ==>
      MarkAllRead(ms, cid, u, now)[i].isRead
    ensures forall i :: 0 <= i < |ms| && (ms[i].conversationId != cid || ms[i].receiverId != u) ==>
      MarkAllRead(ms, cid, u, now)[i] == ms[i]
    ensures forall i :: 0 <= i < |ms| ==>
      MarkAllRead(ms, cid, u, now)[i] == ms[i].(isRead := MarkAllRead(ms, cid, u, now)[i].isRead,
                                                 readAt := MarkAllRead(ms, cid, u, now)[i].readAt)
    ensures forall i :: 0 <= i < |ms| && ms[i].isRead ==> MarkAllRead(ms, cid, u, now)[i] == ms[i]
    ensures MarkAllRead(MarkAllRead(ms, cid, u, now), cid, u, now) == MarkAllRead(ms, cid, u, now)
  {
  }

  /** A conversation after a message `id` is sent in it by a caller of
      `role`: the message is the latest one, and the other side's counter
      grows: the buyer's when an artist sends, the artist's otherwise. */
  function AfterSend(c: Conversation, id: nat, role: Role, now: int): Conversation {
    c.(lastMessage := Some(id), lastMessageAt := now,
       unreadBuyer := if role == Artist then c.unreadBuyer + 1 else c.unreadBuyer,
       unreadArtist := if role == Artist then c.unreadArtist else c.unreadArtist + 1)
  }

  /** Sending raises exactly one unread counter by one, the one of the
      party the sender's role is not, and never lowers the other. */
  lemma AfterSendCounters(c: Conversation, id: nat, role: Role, now: int)
    ensures AfterSend(c, id, role, now).unreadBuyer + AfterSend(c, id, role, now).unreadArtist
            == c.unreadBuyer + c.unreadArtist + 1
    ensures role == Artist <==> AfterSend(c, id, role, now).unreadBuyer == c.unreadBuyer + 1
    ensures role != Artist <==> AfterSend(c, id, role, now).unreadArtist == c.unreadArtist + 1
    ensures AfterSend(c, id, role, now).lastMessage == Some(id)
  {
  }

  /** A conversation after the caller of `role` lists it: that role's
      counter is zero. */
  function AfterList(c: Conversation, role: Role): Conversation {
    if role == Artist then c.(unreadArtist := 0) else c.(unreadBuyer := 0)
  }

  /** The guards of the offer-status update, then the schema validation of
      the new status. */
  function OfferUpdateCheck(m: Message, caller: UserId, status: string): Outcome<ApiError> {
    if m.receiverId != caller then Fail(Forbidden)
    else if m.messageType != AuctionOffer then Fail(BadRequest(NotAnOffer))
    else if ParseOfferStatus(status).None? then Fail(ServerError)
    else Pass
  }

  /** The update is allowed exactly to the receiver of an offer, with a
      status from the enum; the offer's current status plays no part, so
      an accepted or declined offer can be changed again. */
  lemma OfferUpdateIgnoresCurrentStatus(m: Message, caller: UserId, status: string, current: OfferStatus)
    ensures OfferUpdateCheck(m, caller, status).Pass? <==>
      m.receiverId == caller && m.messageType == AuctionOffer && ParseOfferStatus(status).Some?
    ensures OfferUpdateCheck(m.(details := m.details.(status := current)), caller, status) ==
            OfferUpdateCheck(m, caller, status)
  {
  }

  /** The conversation and message collections. */
  class ChatStore {
    var conversations: seq<Conversation>
    var messages: seq<Message>

    constructor ()
      ensures conversations == [] && messages == []
    {
      conversations := [];
      messages := [];
    }

    /** The caller is the conversation's buyer or its artist. */
    predicate IsMember(cid: nat, u: UserId)
      reads this
    {
      cid < |conversations| && (conversations[cid].buyerId == u || conversations[cid].artistId == u)
    }

    /** POST conversations: only a buyer may open one, about a painting
        that exists; the first conversation about it with its artist is
        answered unchanged, otherwise exactly one is created. */
    method OpenConversation(caller: UserId, role: Role, paintingId: nat, paintingArtist: Option<UserId>, now: int)
      returns (r: Result<Opened, ApiError>)
      modifies this`conversations
      ensures role != Buyer ==> r == Err(Forbidden)
      ensures role == Buyer && paintingArtist.None? ==> r == Err(NotFound)
      ensures r.Err? ==> conversations == old(conversations)
      ensures role == Buyer && paintingArtist.Some? ==>
        var k := FindConversation(old(conversations), paintingId, caller, paintingArtist.value);
        && r.Ok?
        && (k < |old(conversations)| ==> conversations == old(conversations) && r.value == Opened(k, false))
        && (k == |old(conversations)| ==>
              && conversations == old(conversations) + [NewConversation(paintingId, caller, paintingArtist.value, now)]
              && r.value == Opened(k, true))
      ensures r.Ok? ==>
        r.value.id < |conversations| && Matches(conversations[r.value.id], paintingId, caller, paintingArtist.value)
      ensures NoDuplicateConversations(old(conversations)) ==> NoDuplicateConversations(conversations)
    {
      if role != Buyer {
        return Err(Forbidden);
      }
      if paintingArtist.None? {
        return Err(NotFound);
      }
      var artist := paintingArtist.value;
      var k := 0;
      while k < |conversations| && !Matches(conversations[k], paintingId, caller, artist)
        invariant 0 <= k <= |conversations|
        invariant forall j :: 0 <= j < k ==> !Matches(conversations[j], paintingId, caller, artist)
      {
        k := k + 1;
      }
      assert k == FindConversation(conversations, paintingId, caller, artist);
      if k < |conversations| {
        return Ok(Opened(k, false));
      }
      conversations := conversations + [NewConversation(paintingId, caller, artist, now)];
      r := Ok(Opened(k, true));
    }

    /** GET messages: members only. The page is read first; then every
        unread message of the conversation addressed to the caller is
        marked read at `now` and the caller's role counter is zeroed. A
        negative skip fails the query and changes nothing. */
    method ListMessages(cid: nat, caller: UserId, role: Role, page: int, limit: nat, now: int)
      returns (r: Result<seq<Message>, ApiError>)
      modifies this
      ensures cid >= |old(conversations)| ==> r == Err(NotFound)
      ensures cid < |old(conversations)| && !old(IsMember(cid, caller)) ==> r == Err(Forbidden)
      ensures old(IsMember(cid, caller)) && (page - 1) * limit < 0 ==> r == Err(ServerError)
      ensures r.Err? ==> conversations == old(conversations) && messages == old(messages)
      ensures old(IsMember(cid, caller)) && (page - 1) * limit >= 0 ==>
        && r == Ok(MessagePage(old(messages), cid, (page - 1) * limit, limit))
        && messages == MarkAllRead(old(messages), cid, caller, now)
        && conversations == old(conversations)[cid := AfterList(old(conversations)[cid], role)]
    {
      if cid >= |conversations| {
        return Err(NotFound);
      }
      if !IsMember(cid, caller) {
        return Err(Forbidden);
      }
      var skip := (page - 1) * limit;
      if skip < 0 {
        return Err(ServerError);
      }
      var window := MessagePage(messages, cid, skip, limit);
      ghost var before := messages;
      var i := 0;
      while i < |messages|
        invariant 0 <= i <= |messages| == |before|
        invariant forall j :: 0 <= j < i ==> messages[j] == MarkRead(before[j], cid, caller, now)
        invariant forall j :: i <= j < |messages| ==> messages[j] == before[j]
        invariant conversations == old(conversations)
      {
        if messages[i].conversationId == cid && messages[i].receiverId == caller && !messages[i].isRead {
          messages := messages[i := messages[i].(isRead := true, readAt := Some(now))];
        }
        i := i + 1;
      }
      conversations := conversations[cid := AfterList(conversations[cid], role)];
      r := Ok(window);
    }

    /** POST messages: members only; the receiver is the other party. The
        new message must validate; it is appended, becomes the
        conversation's last message, and the other side's counter grows. */
    method SendMessage(cid: nat, sender: UserId, role: Role, content: Option<string>,
                       messageType: Option<string>, details: Option<OfferInput>, now: int)
      returns (r: Result<nat, ApiError>)
      modifies this
      ensures cid >= |old(conversations)| ==> r == Err(NotFound)
      ensures cid < |old(conversations)| && !old(IsMember(cid, sender)) ==> r == Err(Forbidden)
      ensures r.Err? ==> conversations == old(conversations) && messages == old(messages)
      ensures old(IsMember(cid, sender)) ==>
        var m := NewMessage(cid, sender, Receiver(old(conversations)[cid], sender), content, messageType, details, now);
        && (m.None? ==> r == Err(ServerError))
        && (m.Some? ==>
              && r == Ok(|old(messages)|)
              && messages == old(messages) + [m.value]
              && conversations == old(conversations)[cid := AfterSend(old(conversations)[cid], |old(messages)|, role, now)])
      ensures r.Ok? ==>
        && cid < |conversations| && r.value < |messages| && messages[r.value].senderId == sender
        && (conversations[cid].buyerId != conversations[cid].artistId ==> messages[r.value].receiverId != sender)
    {
      if cid >= |conversations| {
        return Err(NotFound);
      }
      if !IsMember(cid, sender) {
        return Err(Forbidden);
      }
      var receiver := Receiver(conversations[cid], sender);
      var m := NewMessage(cid, sender, receiver, content, messageType, details, now);
      if m.None? {
        return Err(ServerError);
      }
      var id := |messages|;
      messages := messages + [m.value];
      conversations := conversations[cid := AfterSend(conversations[cid], id, role, now)];
      r := Ok(id);
    }

    /** PATCH an offer's status: only the message's receiver, only on an
        'auction_offer' message, and the status must be in the enum; the
        status is overwritten whatever it was. */
    method UpdateOfferStatus(mid: nat, caller: UserId, status: string) returns (r: Outcome<ApiError>)
      modifies this`messages
      ensures mid >= |old(messages)| ==> r == Fail(NotFound)
      ensures mid < |old(messages)| ==> r == OfferUpdateCheck(old(messages)[mid], caller, status)
      ensures r.Fail? ==> messages == old(messages)
      ensures r.Pass? ==>
        messages == old(messages)[mid := old(messages)[mid].(details :=
          old(messages)[mid].details.(status := ParseOfferStatus(status).value))]
    {
      if mid >= |messages| {
        return Fail(NotFound);
      }
      var check := OfferUpdateCheck(messages[mid], caller, status);
      if check.Fail? {
        return check;
      }
      var m := messages[mid];
      messages := messages[mid := m.(details := m.details.(status := ParseOfferStatus(status).value))];
      r := Pass;
    }
  }
}
