/** The conversations page (`frontend/src/pages/ChatsPage.jsx`): the
    listed conversations, the other party and unread badge it shows for
    each, the conversation-count label, and the `new_message` handler. The
    viewer's role is the session's role string. */
module ChatsPage {
  import opened Common
  import opened Text
  import opened ChatRecords
  import opened ChatRoutes

  /** A listed conversation: its id, the record, and the content of its
      latest message when it has one. */
  datatype Entry = Entry(id: nat, conversation: Conversation, lastContent: Option<string>)

  /** The session's name for a credential role. */
  function RoleName(role: Role): string {
    if role == Artist then "artist" else "buyer"
  }

  /** The other side of a conversation: the buyer for an artist, the
      artist for anyone else. */
  function OtherUser(c: Conversation, viewerRole: string): UserId {
    if viewerRole == "artist" then c.buyerId else c.artistId
  }

  /** The other side is the one the viewer's messages go to, when the
      viewer is the party their role stands for. */
  lemma OtherUserIsReceiver(c: Conversation, role: Role)
    requires c.buyerId != c.artistId
    ensures OtherUser(c, RoleName(role)) == Receiver(c, Party(c, role))
    ensures OtherUser(c, RoleName(role)) != Party(c, role)
  {
  }

  /** The viewer's unread count: the artist counter for an artist, the
      buyer counter for anyone else. */
  function UnreadCount(c: Conversation, viewerRole: string): nat {
    if viewerRole == "artist" then c.unreadArtist else c.unreadBuyer
  }

  /** The unread badge shows for a positive count. */
  predicate ShowBadge(c: Conversation, viewerRole: string) {
    UnreadCount(c, viewerRole) > 0
  }

  /** The badge follows the server's counters: a message from the other
      side raises the viewer's count by one and leaves the other side's
      badge as it was, and listing the conversation's messages clears the
      viewer's badge. */
  lemma BadgeFollowsCounters(c: Conversation, id: nat, role: Role, sender: Role, now: int)
    ensures sender != role ==>
      UnreadCount(AfterSend(c, id, sender, now), RoleName(role)) == UnreadCount(c, RoleName(role)) + 1
    ensures sender == role ==>
      UnreadCount(AfterSend(c, id, sender, now), RoleName(role)) == UnreadCount(c, RoleName(role))
    ensures !ShowBadge(AfterList(c, role), RoleName(role))
  {
  }

  /** "`n` conversation(s)" beside the heading; nothing when the list is
      empty. */
  function CountLabel(n: nat): Option<string> {
    if n == 0 then None
    else Some(NatToString(n) + " conversation" + (if n != 1 then "s" else ""))
  }

  /** The label is shown for a non-empty list only, and ends in 's' for
      every count but one. */
  lemma CountLabelPlural(n: nat)
    ensures CountLabel(n).Some? <==> n > 0
    ensures CountLabel(n).Some? ==>
      var l := CountLabel(n).value;
      |l| > 0 && (l[|l| - 1] == 's' <==> n != 1)
  {
    if n > 0 {
      var l := CountLabel(n).value;
      if n == 1 {
        assert l == NatToString(n) + " conversation";
      }
    }
  }

  /** The `new_message` handler: the conversation the message belongs to
      gets it as its latest message and `now` as its last activity; every
      entry stays where it is. */
  function OnNewMessage(entries: seq<Entry>, m: Message, now: int): (r: seq<Entry>)
    ensures |r| == |entries|
    ensures forall i :: 0 <= i < |entries| && entries[i].id != m.conversationId ==> r[i] == entries[i]
    ensures forall i :: 0 <= i < |entries| && entries[i].id == m.conversationId ==>
      r[i] == Entry(entries[i].id, entries[i].conversation.(lastMessageAt := now), Some(m.content))
    ensures forall i :: 0 <= i < |entries| ==>
      && r[i].id == entries[i].id
      && r[i].conversation.unreadBuyer == entries[i].conversation.unreadBuyer
      && r[i].conversation.unreadArtist == entries[i].conversation.unreadArtist
  {
    seq(|entries|, i requires 0 <= i < |entries| =>
      if entries[i].id == m.conversationId
      then Entry(entries[i].id, entries[i].conversation.(lastMessageAt := now), Some(m.content))
      else entries[i])
  }

  /** The handler neither reorders the list nor touches the counters, so
      the badges do not move and the conversation just written to is not
      brought to the top: with two entries, a message in the second leaves
      it second although it is now the most recent. */
  lemma NewMessageKeepsOrderAndBadges(entries: seq<Entry>, m: Message, now: int, viewerRole: string)
    ensures forall i :: 0 <= i < |entries| ==>
      && OnNewMessage(entries, m, now)[i].id == entries[i].id
      && UnreadCount(OnNewMessage(entries, m, now)[i].conversation, viewerRole) ==
         UnreadCount(entries[i].conversation, viewerRole)
    ensures
      var c := NewConversation(0, 1, 2, 10);
      var e := [Entry(0, c.(lastMessageAt := 20), None), Entry(1, c, None)];
      var m' := m.(conversationId := 1);
      OnNewMessage(e, m', 30)[1].id == 1 &&
      OnNewMessage(e, m', 30)[1].conversation.lastMessageAt > OnNewMessage(e, m', 30)[0].conversation.lastMessageAt
  {
  }
}
