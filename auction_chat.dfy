/** The per-painting auction chat room (`backend/models/AuctionChat.js`):
    a participant roster keyed by user id and an append-only message log. */
module AuctionChats {
  import opened Common
  import opened Text
  import opened Sorting

  /** `messageType`: 'text', 'bid_placed', 'auction_started',
      'auction_ended' or 'system'. */
  datatype ChatMessageType = Text | BidPlaced | AuctionStarted | AuctionEnded | SystemNote

  /** What a message says. The routes write templated texts; they are kept
      as their parameters, and their number and date formatting is left
      out. */
  datatype Content =
    | Plain(text: string)
    | StartedNotice(startingPrice: Option<real>, endTime: int)
    | JoinedNotice(username: string)
    | BidNotice(amount: real)
    | EndedNotice(winnerName: string, finalBid: real)
    | NoBidsNotice

  /** Longest `Plain` content the schema admits (`maxlength: 500`), in
      UTF-16 code units. */
  const MaxContentLength := 500

  /** One entry of `messages`. */
  datatype ChatMessage = ChatMessage(
    senderId: UserId,
    senderName: string,
    content: Content,
    messageType: ChatMessageType,
    bidAmount: Option<real>,
    timestamp: int)

  /** One entry of `participants`. */
  datatype Participant = Participant(userId: UserId, username: string, joinedAt: int, isActive: bool)

  /** What the join notice appends to the username. */
  const JoinedSuffix := " joined the auction"

  /** The `content` checks of the schema (required, `maxlength: 500`) on
      the text a message is rendered to: a plain text must be non-empty
      and fit; the join notice fits when the username leaves room for its
      suffix (plain ASCII, one code unit per character). The other notices
      are short fixed texts around a number, a date or a bidder name and
      are taken to fit. */
  predicate ContentFits(c: Content) {
    match c
    case Plain(text) => text != "" && Utf16Length(text) <= MaxContentLength
    case JoinedNotice(username) => Utf16Length(username) + |JoinedSuffix| <= MaxContentLength
    case _ => true
  }

  /** The join notice of a username of `n` letters fits exactly when
      n <= 481, the 500 units less the 19 of the suffix. */
  lemma JoinNoticeLimit(n: nat)
    ensures ContentFits(JoinedNotice(Repeat('a', n))) <==> n <= 481
  {
    Utf16LengthPlanes(Repeat('a', n));
  }

  /** The schema checks `save` applies to a pushed message: a non-empty
      `senderName` (required), content that fits, and a bid amount that is
      absent or not negative (`min: 0`). */
  predicate MessageSaves(m: ChatMessage) {
    && m.senderName != ""
    && ContentFits(m.content)
    && (m.bidAmount.None? || m.bidAmount.value >= 0.0)
  }

  /** The sort key of `getRecentMessages`. */
  function Timestamp(m: ChatMessage): int {
    m.timestamp
  }

  /** No user id appears twice in the roster. */
  ghost predicate UniqueUsers(ps: seq<Participant>) {
    forall i, j :: 0 <= i < j < |ps| ==> ps[i].userId != ps[j].userId
  }

  function UserIds(ps: seq<Participant>): set<UserId> {
    set i | 0 <= i < |ps| :: ps[i].userId
  }

  /** `participants.find(p => p.userId === userId)`, as a position: the
      first entry for `u`, or the length when there is none. */
  function IndexOfUser(ps: seq<Participant>, u: UserId): (k: nat)
    ensures k <= |ps|
    ensures forall j :: 0 <= j < k ==> ps[j].userId != u
    ensures k < |ps| ==> ps[k].userId == u
  {
    if ps == [] then 0
    else if ps[0].userId == u then 0
    else 1 + IndexOfUser(ps[1..], u)
  }

  /** The roster after `addParticipant(u, name)` at time `now`: the first
      entry for `u` is reactivated and its join time refreshed, or a new
      active entry is appended. */
  function Upsert(ps: seq<Participant>, u: UserId, name: string, now: int): seq<Participant> {
    var k := IndexOfUser(ps, u);
    if k < |ps| then ps[k := ps[k].(isActive := true, joinedAt := now)]
    else ps + [Participant(u, name, now, true)]
  }

  /** Re-joining never duplicates: the roster grows by at most one entry,
      gains exactly the user id `u`, and stays free of duplicates. */
  lemma UpsertKeepsRosterUnique(ps: seq<Participant>, u: UserId, name: string, now: int)
    ensures |ps| <= |Upsert(ps, u, name, now)| <= |ps| + 1
    ensures UserIds(Upsert(ps, u, name, now)) == UserIds(ps) + {u}
    ensures UniqueUsers(ps) ==> UniqueUsers(Upsert(ps, u, name, now))
  {
    var r := Upsert(ps, u, name, now);
    var k := IndexOfUser(ps, u);
    if k < |ps| {
      assert forall i :: 0 <= i < |ps| ==> r[i].userId == ps[i].userId;
      assert UserIds(r) == UserIds(ps);
    } else {
      assert forall i :: 0 <= i < |ps| ==> r[i] == ps[i];
      assert r[|ps|].userId == u;
      assert UserIds(r) == UserIds(ps) + {u};
    }
  }

  /** For a user already in the roster: no entry is added, every entry keeps
      its user id and username, the others are untouched, and the user's
      entry is active with a refreshed join time. */
  lemma UpsertExisting(ps: seq<Participant>, u: UserId, name: string, now: int)
    requires u in UserIds(ps) && UniqueUsers(ps)
    ensures |Upsert(ps, u, name, now)| == |ps|
    ensures forall i :: 0 <= i < |ps| ==>
      && Upsert(ps, u, name, now)[i].userId == ps[i].userId
      && Upsert(ps, u, name, now)[i].username == ps[i].username
    ensures forall i :: 0 <= i < |ps| && ps[i].userId != u ==> Upsert(ps, u, name, now)[i] == ps[i]
    ensures forall i :: 0 <= i < |ps| && ps[i].userId == u ==>
      Upsert(ps, u, name, now)[i].isActive && Upsert(ps, u, name, now)[i].joinedAt == now
  {
    var k := IndexOfUser(ps, u);
    var i :| 0 <= i < |ps| && ps[i].userId == u;
    assert k <= i;
  }

  /** For a new user: exactly one active entry is appended at the end. */
  lemma UpsertNew(ps: seq<Participant>, u: UserId, name: string, now: int)
    requires u !in UserIds(ps)
    ensures Upsert(ps, u, name, now) == ps + [Participant(u, name, now, true)]
  {
  }

  /** What `getRecentMessages(limit)` returns: the messages sorted newest
      first, cut with `slice(0, limit)`, then reversed. */
  function Recent(msgs: seq<ChatMessage>, limit: int): seq<ChatMessage> {
    Reverse(SliceTo(SortNewestFirst(msgs, Timestamp), limit))
  }

  /** The window holds min(limit, n) of the stored messages (for a
      negative limit, `slice` drops that many of the oldest instead), in
      ascending timestamp order, and they are the newest ones: every stored
      message left out is no newer than any message in the window. */
  lemma RecentWindow(msgs: seq<ChatMessage>, limit: int)
    ensures |Recent(msgs, limit)| == SliceEnd(|msgs|, limit)
    ensures limit >= 0 ==> |Recent(msgs, limit)| == if limit <= |msgs| then limit else |msgs|
    ensures OldestFirst(Recent(msgs, limit), Timestamp)
    ensures multiset(Recent(msgs, limit)) <= multiset(msgs)
    ensures forall m, i :: m in multiset(msgs) - multiset(Recent(msgs, limit)) && 0 <= i < |Recent(msgs, limit)| ==>
      m.timestamp <= Recent(msgs, limit)[i].timestamp
  {
    var s := SortNewestFirst(msgs, Timestamp);
    var window := s[..SliceEnd(|s|, limit)];
    assert Recent(msgs, limit) == Reverse(window);
    assert |window| == SliceEnd(|msgs|, limit);
    SortIsNewestFirst(msgs, Timestamp);
    ReverseOldestFirst(window, Timestamp);
    ReverseMultiset(window);
    PrefixHoldsNewest(s, |window|, Timestamp);
  }

  /** Two messages with the same timestamp come back in the reverse of the
      order they were added: the newest-first sort keeps them in insertion
      order and the final `reverse` flips them. */
  lemma RecentReversesTies(a: ChatMessage, b: ChatMessage)
    requires a.timestamp == b.timestamp
    ensures Recent([a, b], 2) == [b, a]
  {
    assert SortNewestFirst([b], Timestamp) == [b];
    assert [a, b][1..] == [b];
    assert SortNewestFirst([a, b], Timestamp) == [a, b];
  }

  /** An auction chat document. */
  class AuctionChat {
    const paintingId: nat
    const artistId: UserId
    var participants: seq<Participant>
    var messages: seq<ChatMessage>
    var isActive: bool
    var lastActivity: int

    /** `new AuctionChat({...})` with the given roster and log. */
    constructor (paintingId: nat, artistId: UserId, participants: seq<Participant>,
                 messages: seq<ChatMessage>, now: int)
      ensures this.paintingId == paintingId && this.artistId == artistId
      ensures this.participants == participants && this.messages == messages
      ensures isActive && lastActivity == now
    {
      this.paintingId := paintingId;
      this.artistId := artistId;
      this.participants := participants;
      this.messages := messages;
      isActive := true;
      lastActivity := now;
    }

    /** The posting rule of the chat route: some entry for `u` is active. */
    predicate IsActiveParticipant(u: UserId)
      reads this
    {
      exists i :: 0 <= i < |participants| && participants[i].userId == u && participants[i].isActive
    }

    /** `addParticipant(userId, username)`: finds the user's entry and
        reactivates it, or appends a new active entry; touches
        `lastActivity`, then saves. A new entry with an empty username
        fails the required `username`, and the failed save stores nothing;
        a known user is reactivated whatever name is passed. */
    method AddParticipant(userId: UserId, username: string, now: int) returns (saved: bool)
      modifies this`participants, this`lastActivity
      ensures saved <==> userId in UserIds(old(participants)) || username != ""
      ensures saved ==> participants == Upsert(old(participants), userId, username, now)
      ensures saved ==> lastActivity == now && IsActiveParticipant(userId)
      ensures !saved ==> participants == old(participants) && lastActivity == old(lastActivity)
    {
      var i := 0;
      while i < |participants| && participants[i].userId != userId
        invariant 0 <= i <= |participants|
        invariant forall j :: 0 <= j < i ==> participants[j].userId != userId
      {
        i := i + 1;
      }
      if i < |participants| {
        assert userId in UserIds(participants);
        participants := participants[i := participants[i].(isActive := true, joinedAt := now)];
        assert participants[i].userId == userId && participants[i].isActive;
      } else {
        assert userId !in UserIds(participants);
        if username == "" {
          return false;
        }
        participants := participants + [Participant(userId, username, now, true)];
        assert participants[|participants| - 1].userId == userId;
      }
      lastActivity := now;
      saved := true;
    }

    /** `addMessage(senderId, senderName, content, messageType = 'text',
        bidAmount = null)`: appends one message stamped `now` after the
        earlier ones and touches `lastActivity`, then saves; a message the
        schema refuses is not stored and nothing changes. */
    method AddMessage(senderId: UserId, senderName: string, content: Content, now: int,
                      messageType: ChatMessageType := Text, bidAmount: Option<real> := None)
      returns (saved: bool)
      modifies this`messages, this`lastActivity
      ensures saved <==> MessageSaves(ChatMessage(senderId, senderName, content, messageType, bidAmount, now))
      ensures senderName == "" ==> !saved
      ensures saved ==> messages == old(messages) + [ChatMessage(senderId, senderName, content, messageType, bidAmount, now)]
      ensures saved ==> lastActivity == now
      ensures !saved ==> messages == old(messages) && lastActivity == old(lastActivity)
    {
      var m := ChatMessage(senderId, senderName, content, messageType, bidAmount, now);
      if !MessageSaves(m) {
        return false;
      }
      messages := messages + [m];
      lastActivity := now;
      saved := true;
    }

    /** `getRecentMessages(limit = 50)`: sorts the stored log newest first
        in place, then returns the first `limit` of it, reversed. */
    method GetRecentMessages(limit: int := 50) returns (r: seq<ChatMessage>)
      modifies this`messages
      ensures messages == SortNewestFirst(old(messages), Timestamp)
      ensures multiset(messages) == multiset(old(messages))
      ensures r == Recent(old(messages), limit)
    {
      messages := SortNewestFirst(messages, Timestamp);
      r := Reverse(SliceTo(messages, limit));
    }
  }
}
