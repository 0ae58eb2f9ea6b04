# Painting marketplace: sale, auction and chat core

A model of the core of a painting marketplace. Artists upload paintings. Buyers either make offers on a direct-sale painting or bid in a timed auction with its own chat room. A buyer and an artist can also talk in private conversations, where the buyer can send a price offer that the artist accepts or declines.

The model has three layers:

- **The painting record and its bid ledger** (`Paintings`, `Ledger`):
  - `placeBid` with its four ordered refusals;
  - the `timeRemaining` virtual and `isAuctionExpired`;
  - the ledger invariants the aggregates `currentBid` and `participantCount` keep.
- **The server routes** as state transitions on in-memory state:
  - `AuctionRoutes`: start, join, bid, chat post and end;
  - `PaintingRoutes`: offers, accepting an offer, upload tags and views;
  - `AuctionChats`: the auction chat room;
  - `ChatRecords`, `ChatRoutes`: the conversation and message store.

  Every lookup the routes make (painting, chat, account) is passed in already resolved. The wall clock is a `now` parameter, in milliseconds.
- **The client rules** of the React front end:
  - the countdown (`Countdown`);
  - the auction chat panel (`AuctionChatView`);
  - the conversation panel (`ChatView`) and the conversations page (`ChatsPage`);
  - the route guard (`RouteGuard`);
  - the upload form (`UploadForm`).

A route's answer is an `Outcome` or `Result` carrying an `ApiError`:

| `ApiError` | HTTP status |
|---|---|
| `Forbidden` | 403 |
| `NotFound` | 404 |
| `BadRequest(reason)` | 400 |
| `ServerError` | 500 (a thrown error or a failed schema validation) |

Ids are positions in the store: a bid's `_id` is its position in `auction.bids`, and a conversation's or message's id is its position in the store's sequence. Amounts are `real`. A `NaN` or missing number is `None`.

The model follows the code, not what one might expect of it:

- `placeBid` never looks at `bidIncrement`.
- Expiry is strict: an auction is expired only after its end time.
- The end route refuses only an artist who does not own the painting. A buyer may end any active auction.
- The offer-status update does not check that the offer is still pending.
- Direct-sale offers and accepting an offer do not look at the painting's status, so a sold painting still takes offers.
- The start route does not check the duration. Its record is checked only by the schema on `save`: an increment below 1 after the `|| 10` fallback (0.5, or -5), or a negative starting price, fails the request with nothing saved.
- Length limits count UTF-16 code units, as JavaScript's `length` does: a character beyond U+FFFF, such as an emoji, counts twice.
- `getRecentMessages` returns messages with equal timestamps in the reverse of the order they were added.
- The conversation index is not unique. Only find-before-create keeps one conversation per painting, buyer and artist.

## Model

| member | source | states |
|---|---|---|
| Ledger.BiddersAppend | backend/models/Painting.js:183-184 | the distinct-bidder count grows by one exactly when the appended bid's bidder is new |
| Ledger.MaxAmount | backend/routes/paintings.js:240-241 | the highest offer bounds every amount in the ledger and is one of them |
| Ledger.MaxAmountAppend | backend/routes/paintings.js:239-241 | after an offer, the highest amount is the larger of the old highest and the new amount |
| Ledger.LastIsHighest | backend/models/Painting.js:164-180 | in a strictly increasing ledger the last bid is the highest |
| Ledger.LastBidder | backend/routes/auction.js:429-432 | there is a winner exactly when there are bids, and the winner is one of the bidders |
| Paintings.BidAdmittedIff | backend/models/Painting.js:155-170 | a bid is admitted iff the auction is active and not expired, the amount is a number above `currentBid`, not below a set `startingPrice` and not negative, and the bidder's name (required by the bid schema) is not empty; changing `bidIncrement` changes no outcome |
| Paintings.EmptyNameRefusedLast | backend/models/Painting.js:94-97 | an empty bidder name turns exactly the otherwise admitted bids into a missing-name refusal and leaves every other outcome as it was |
| Paintings.WithBidConsistent | backend/models/Painting.js:173-184 | admitting a bid keeps `currentBid` equal to the highest amount and `participantCount` equal to the number of distinct bidders |
| Paintings.WithBidAuctionLedger | backend/models/Painting.js:164-180 | an admitted bid keeps the amounts strictly increasing and raises `currentBid` to the last amount |
| Paintings.WithOfferRaisesCurrentBid | backend/routes/paintings.js:229-244 | a stored offer keeps the aggregates consistent; `currentBid` becomes the larger of the old highest offer and the new amount |
| Paintings.ExpiryAndRemaining | backend/models/Painting.js:137-152 | an expired auction has no time left; time left means active and not expired; at the end time itself there is no time left, yet the auction is not expired |
| Paintings.ExpiryMonotone | backend/models/Painting.js:137-152 | once expired an auction stays expired, and the remaining time never grows |
| Paintings.RunBidsKeepsAuctionLedger | backend/models/Painting.js:155-187 | over any run of bid attempts from an auction ledger, the ledger only grows at its end, `currentBid` never falls, amounts stay strictly increasing (the last is the maximum) and the participant count counts the distinct bidders |
| Paintings.Painting.constructor | backend/models/Painting.js:54-123 | a new painting is available, for direct sale, with the default empty auction record and no views |
| Paintings.Painting.PlaceBid | backend/models/Painting.js:155-187 | the outcome is the first failing check, the save's check of the amount and of a non-empty bidder name last; a refusal changes nothing; an admitted bid is appended with the bidder, name and amount, and `currentBid` and the participant count follow; the auction-ledger invariant is kept |
| Paintings.Painting.IncrementViews | backend/routes/paintings.js:149-151 | the view count grows by one |
| AuctionChats.IndexOfUser | backend/models/AuctionChat.js:83-85 | the position of the first entry for the user, or the length when there is none |
| AuctionChats.UpsertKeepsRosterUnique | backend/models/AuctionChat.js:82-98 | the roster grows by at most one, gains exactly the joining user's id, and stays free of duplicates |
| AuctionChats.UpsertExisting | backend/models/AuctionChat.js:83-89 | a known user is reactivated with a fresh join time; no entry is added, and the ids, usernames and other entries are unchanged |
| AuctionChats.UpsertNew | backend/models/AuctionChat.js:90-97 | a new user is appended as one active entry at the end |
| AuctionChats.RecentWindow | backend/models/AuctionChat.js:119-124 | the window holds `slice(0, limit)` of the sorted messages, which is min(limit, n) of them for a non-negative limit and n less the limit's magnitude (at least 0) for a negative one, in ascending timestamp order, and every message left out is no newer than any in the window |
| AuctionChats.RecentReversesTies | backend/models/AuctionChat.js:120-123 | two messages with equal timestamps come back in the reverse of their insertion order |
| AuctionChats.JoinNoticeLimit | backend/routes/auction.js:161-166 | the join notice of an n-letter username fits the 500-unit content limit iff n <= 481 |
| AuctionChats.AuctionChat.AddParticipant | backend/models/AuctionChat.js:82-101 | the save succeeds iff the user is already on the roster or the username is not empty; then the roster becomes the upsert of the user, the user is an active participant, and the last activity is now; a failed save changes nothing |
| AuctionChats.AuctionChat.AddMessage | backend/models/AuctionChat.js:104-116 | the save succeeds iff the sender name is not empty, the content fits (plain text of 1 to 500 UTF-16 code units, a join notice whose username leaves room for its suffix) and a bid amount is not negative; then exactly one message is appended after the earlier ones (type 'text' and no bid amount by default) and the last activity is now; otherwise nothing changes |
| AuctionChats.AuctionChat.GetRecentMessages | backend/models/AuctionChat.js:119-124 | the stored log is left sorted newest first (a permutation of it), and the answer is the recent window |
| AuctionRoutes.OrElse | backend/routes/auction.js:50-61 | a present non-zero value is kept, and an absent or zero one gives the fallback (JavaScript's falsy fallback), so the result is zero only when the fallback is |
| AuctionRoutes.StartedAuction | backend/routes/auction.js:47-61 | a started auction has an empty, consistent ledger and ends `duration` hours after it starts; a non-negative duration leaves exactly that much time, a negative one is expired at once |
| AuctionRoutes.StartSavesIff | backend/models/Painting.js:75-87 | a start is saved iff the record it writes has an increment of at least 1 and a starting price of at least 0; 0.5, -5 and a starting price of -100 are refused, zeros fall back and are saved |
| AuctionRoutes.StartAuction | backend/routes/auction.js:9-111 | only the owning artist may start, and only on an available painting, and a refusal changes nothing; a record the schema refuses fails the request (500) and changes nothing; a start puts the painting in auction with the reset record, whose increment is at least 1 and starting price at least 0; the new chat has the artist as its sole participant and one 'auction_started' message; an existing chat fails the request after the painting has changed |
| AuctionRoutes.JoinAuction | backend/routes/auction.js:114-192 | only a buyer may join, and only an active, unexpired auction with a chat, and a refusal changes nothing; a new buyer without a username gets 500 with nothing changed; otherwise the buyer is upserted, and one 'system' message is logged and the time remaining answered, or, when the join notice does not fit, 500 with only the roster change stored |
| AuctionRoutes.BidInAuction | backend/routes/auction.js:195-257 | only a buyer may bid, and the bid is subject to `placeBid`'s outcome; an empty username is refused by the painting's save; an admitted bid is logged as one 'bid_placed' message carrying the amount; a refusal changes nothing; the ledger invariant is kept |
| AuctionRoutes.PostToAuctionChat | backend/routes/auction.js:343-393 | a missing chat is refused with 404 and a caller who is not an active participant with 403, with nothing appended; the post fails with 500 iff the content is empty or over 500 UTF-16 code units or the username is empty, and then nothing is stored; otherwise one 'text' message is appended |
| AuctionRoutes.ChatLimitInCodeUnits | backend/models/AuctionChat.js:44-48 | a run of n letters fits the 500-unit limit iff n <= 500, a run of n emoji iff n <= 250, so 300 emoji do not |
| AuctionRoutes.EndedWinnerHoldsHighestBid | backend/routes/auction.js:424-432 | after the end the auction is inactive; the painting is 'available' iff there are no bids; otherwise the winner is the last bidder, whose bid is the highest and equals `currentBid` |
| AuctionRoutes.EndNotice | backend/routes/auction.js:439-441 | no winner gives the no-bids notice; a winner with bids gives the notice with the final bid; a winner without bids gives none, because the route fails reading it |
| AuctionRoutes.EndNoticeAfterEnd | backend/routes/auction.js:424-441 | after the end, an auction with bids names its last bidder and `currentBid`, and one without bids or winner reports no bids |
| AuctionRoutes.EndAuction | backend/routes/auction.js:396-480 | only a non-owner artist is refused (403), and there must be an active auction (400), so a second end fails; on success the auction becomes the ended record, the painting is 'sold' or 'available', and the chat logs one 'auction_ended' message and is closed |
| PaintingRoutes.Parsed | backend/routes/paintings.js:223-224 | a number parses to its own value; a missing or malformed amount gives NaN |
| PaintingRoutes.DisplayName | backend/routes/paintings.js:211 | the account's name, or else its username, or else the fallback, an empty string counting as absent; the result is empty only when all three are |
| PaintingRoutes.SubmitBid | backend/routes/paintings.js:187-258 | a missing amount gets 400 before anything else, then a missing account 403. An auction painting needs an active auction, then the bid is subject to exactly `placeBid`'s rules, under a bidder name that is never empty. A direct-sale offer that is NaN or below the price is refused; otherwise it is appended and `currentBid` becomes the highest offer. A refusal changes nothing, and the ledger invariants are kept |
| PaintingRoutes.AcceptBid | backend/routes/paintings.js:261-305 | only the painting's artist may accept (403), and the bid must exist (404). The bidder becomes the winner, the painting is sold at the bid's amount and the bids are unchanged. The order has that buyer, artist, painting and price |
| PaintingRoutes.TrimAll | backend/routes/paintings.js:88 | each piece is trimmed, in order |
| PaintingRoutes.NonEmpty | backend/routes/paintings.js:88 | exactly the non-empty pieces are kept |
| PaintingRoutes.NonEmptyAppend | backend/routes/paintings.js:88 | filtering keeps order: the kept pieces of a concatenation are those of each part, in turn |
| PaintingRoutes.NonEmptyCounts | backend/routes/paintings.js:88 | filtering keeps repeats: each non-empty piece is kept as often as it occurs, the empty piece never |
| Text.SplitAtSeparator | backend/routes/paintings.js:88 | the pieces of `a + sep + b` are those of `a` followed by those of `b` |
| PaintingRoutes.ParseTagsShape | backend/routes/paintings.js:86-89 | each tag is a non-empty, trimmed piece of the input without a comma; every non-blank piece appears trimmed; there are never more tags than pieces |
| PaintingRoutes.ParseTagsAppend | backend/routes/paintings.js:86-89 | tags keep the input's order: the tags of `a,b` are those of `a` followed by those of `b` |
| PaintingRoutes.ParseTagsCounts | backend/routes/paintings.js:86-89 | tags keep repeats: a trimmed comma-free piece gives itself as its one tag, so 'a,a' gives two; each non-blank trimmed piece is kept as often as it occurs |
| PaintingRoutes.TrimKeepsOut | backend/routes/paintings.js:88 | trimming adds no character to a piece |
| ChatRecords.MessageTypeNames | backend/models/Message.js:25-29 | the message-type validator admits exactly the four names, each as its own type |
| ChatRecords.OfferStatusNames | backend/models/Message.js:33-37 | the offer-status validator admits exactly the four names, each as its own status |
| ChatRecords.NewDetails | backend/models/Message.js:30-38 | absent details or an absent status give 'pending'; a status outside the enum fails validation; a supplied price, description and valid status are stored as given |
| ChatRecords.NewMessage | backend/models/Message.js:4-45 | a message is saved iff its content, once trimmed, is non-empty and at most 1000 UTF-16 code units, its type is in the enum and its details validate; it holds the trimmed content, the given ids, the supplied type (defaulting to 'text') and the validated details, and is unread |
| ChatRecords.MessageLimitInCodeUnits | backend/models/Message.js:19-24 | a run of n letters is stored iff 1 <= n <= 1000, a run of n emoji iff 1 <= n <= 500, so 600 emoji are refused |
| ChatRecords.NewConversation | backend/models/Conversation.js:4-35 | a new conversation is active, has no last message, and both unread counters are zero |
| ChatRecords.Receiver | backend/routes/chat.js:187-189 | the buyer's messages go to the artist, anyone else's to the buyer; the receiver is always a party, and for a member sender the other one |
| ChatRecords.ReceiverIsOtherParty | backend/routes/chat.js:187-189 | for a member sender the receiver is the other member, and the receiver's receiver is the sender |
| ChatRoutes.Involving | backend/routes/chat.js:16-24 | exactly the stored conversations whose party for the role is the caller |
| ChatRoutes.ConversationListSpec | backend/routes/chat.js:10-41 | the list holds exactly the caller's conversations for the caller's role, each with the id it is stored under and at most once, most recent activity first |
| ChatRoutes.FindConversation | backend/routes/chat.js:66-70 | the first conversation for the painting, buyer and artist, or none |
| ChatRoutes.InConversation | backend/routes/chat.js:130-135 | exactly the messages of the conversation, in store order |
| ChatRoutes.MessagePageWindow | backend/routes/chat.js:130-152 | a page holds min(limit, what is left past the skip) messages, all from the conversation, oldest first |
| ChatRoutes.FirstPageIsNewest | backend/routes/chat.js:130-135 | a message left off the first page is no newer than any message on it |
| ChatRoutes.MarkAllRead | backend/routes/chat.js:138-145 | each message becomes its read-marked form, position for position, so every message of the conversation addressed to the caller is read |
| ChatRoutes.MarkAllReadSpec | backend/routes/chat.js:138-148 | afterwards nothing in the conversation addressed to the caller is unread, including messages off the page; other messages are unchanged; the marking is idempotent |
| ChatRoutes.AfterSendCounters | backend/routes/chat.js:204-211 | a send raises exactly one counter by one, the buyer's iff the sender's role is artist, and records the message as the last one |
| ChatRoutes.OfferUpdateIgnoresCurrentStatus | backend/routes/chat.js:250-265 | the update passes iff the caller is the receiver, the message is an offer and the status is in the enum; the offer's current status plays no part |
| ChatRoutes.ChatStore.OpenConversation | backend/routes/chat.js:44-105 | only a buyer may open a conversation, about an existing painting; an existing conversation is answered unchanged, otherwise exactly one is created; no duplicate is ever introduced |
| ChatRoutes.ChatStore.ListMessages | backend/routes/chat.js:108-161 | non-members are refused and a negative skip fails, with nothing changed; the answer is the page read before the marking; all messages addressed to the caller are marked read and the caller's role counter is zeroed |
| ChatRoutes.ChatStore.SendMessage | backend/routes/chat.js:164-232 | non-members are refused; the message goes to the other party; an invalid message fails with nothing changed; otherwise it is appended and becomes the last message, and the other side's counter grows |
| ChatRoutes.ChatStore.UpdateOfferStatus | backend/routes/chat.js:235-286 | a missing message gives 404 and the offer checks decide the rest, with nothing changed on refusal; otherwise only that message's status is overwritten |
| Countdown.FormatShowsRemaining | frontend/src/components/AuctionTimer.jsx:10-27 | 'EXPIRED' iff the distance is negative, days from one full day on, hours from one hour on, minutes below that; every field is in range, and the fields shown add up to the distance, short of less than the smallest unit shown |
| Countdown.ExpiredClassIff | frontend/src/components/AuctionTimer.jsx:35 | the `expired` class is present iff the timer reads 'EXPIRED' |
| Countdown.AuctionTimer.Tick | frontend/src/components/AuctionTimer.jsx:7-29 | a running timer shows the format of the distance and stops exactly when the distance is negative; a stopped timer changes nothing; a running timer never shows 'EXPIRED' |
| AuctionChatView.OrFalsy | frontend/src/components/AuctionChat.jsx:163 | a present non-zero number is kept, and an absent or zero one gives the fallback, so a zero result always comes from the fallback |
| AuctionChatView.DisplayedMinBidAgrees | frontend/src/components/AuctionChat.jsx:238 | the displayed minimum equals the enforced one whenever that is a number, and is the bare increment otherwise |
| AuctionChatView.ValidateBid | frontend/src/components/AuctionChat.jsx:156-168 | an empty or non-numeric field is refused; a number is posted iff the minimum is NaN or the number is not below it |
| AuctionChatView.ClientCheckImpliesServerAmountRules | frontend/src/components/AuctionChat.jsx:163-168 | with a non-negative increment, a posted amount is above a set current bid, and above the starting price when there is no bid |
| AuctionChatView.ClientStricterThanServer | frontend/src/components/AuctionChat.jsx:163-168 | the client refuses 105 on a current bid of 100 with increment 10, which `placeBid` admits; with neither a current bid nor a starting price it posts even a negative amount |
| AuctionChatView.BidHistoryNewestFive | frontend/src/components/AuctionChat.jsx:266-272 | the history lists min(5, n) bids, newest first; absent bids show the placeholder; an empty ledger shows an empty list |
| AuctionChatView.BidInputOnlyForBuyers | frontend/src/components/AuctionChat.jsx:289 | the bid input is shown iff the role is buyer and the auction is active |
| AuctionChatView.SentChatIsNotEmpty | frontend/src/components/AuctionChat.jsx:142-148 | a chat text the panel posts is never empty |
| AuctionChatView.AuctionChatPanel.SendChat | frontend/src/components/AuctionChat.jsx:142-154 | a blank text is ignored; otherwise it is posted untrimmed, then cleared on success or kept with an error on failure |
| AuctionChatView.AuctionChatPanel.OnNewBid | frontend/src/components/AuctionChat.jsx:84-103 | the current bid and participant count are replaced, every other detail is kept, and one 'bid_placed' message is appended |
| AuctionChatView.AuctionChatPanel.OnChatMessage | frontend/src/components/AuctionChat.jsx:105-107 | the pushed message is appended |
| AuctionChatView.AuctionChatPanel.OnUserJoined | frontend/src/components/AuctionChat.jsx:109-119 | one 'system' message with the event's text is appended |
| AuctionChatView.AuctionChatPanel.OnAuctionEnded | frontend/src/components/AuctionChat.jsx:121-140 | one 'auction_ended' message naming the winner, or saying there were no bids, is appended; the auction becomes inactive with the event's winner |
| AuctionChatView.AuctionChatPanel.PlaceBid | frontend/src/components/AuctionChat.jsx:156-183 | a refused field sets its error and posts nothing; a valid one is posted, then cleared on success or kept with an error on failure |
| ChatView.Without | frontend/src/components/Chat.jsx:76-78 | the list without the user |
| ChatView.WithoutAppend | frontend/src/components/Chat.jsx:76-78 | filtering keeps order: the list without the user of a concatenation is that of each part, in turn |
| ChatView.WithoutCounts | frontend/src/components/Chat.jsx:76-78 | filtering keeps repeats: every other user stays as often as it occurs, and the user is gone |
| ChatView.WithoutKeepsDistinct | frontend/src/components/Chat.jsx:76-78 | filtering keeps a list free of repeats |
| ChatView.TypingUpdateSpec | frontend/src/components/Chat.jsx:72-82 | the viewer's own events are ignored; a starting user is in the list once, at the end; a stopping user is removed; the list begins with the previous list without the user, so the others stay in their order; no repeats appear |
| ChatView.ApplyAuctionUpdate | frontend/src/components/Chat.jsx:84-92 | only messages with the id get the new status; the length, the ids and every other message are unchanged |
| ChatView.AuctionUpdateMirrorsStore | frontend/src/components/Chat.jsx:84-92 | a panel that showed the stored messages shows the stored messages after the status update |
| ChatView.TextRequestStored | frontend/src/components/Chat.jsx:94-110 | a text the panel sends is stored iff its trimmed form is at most 1000 UTF-16 code units, as that trimmed text with type 'text' |
| ChatView.OfferRequestStored | frontend/src/components/Chat.jsx:112-133 | an offer the panel sends, with a price text of at most 984 UTF-16 code units, is stored as a pending 'auction_offer' with the form's description |
| ChatView.OfferActionsAllowed | frontend/src/components/Chat.jsx:192-207 | a member who sees Accept and Decline is the offer's receiver, so both answers pass the route's checks |
| ChatView.ReadMarkAfterList | frontend/src/components/Chat.jsx:214-216 | once the receiver has listed the conversation, every message the viewer sent them in it shows the read mark |
| ChatView.ChatPanel.OnNewMessage | frontend/src/components/Chat.jsx:68-70 | exactly one message is appended |
| ChatView.ChatPanel.OnTyping | frontend/src/components/Chat.jsx:72-82 | the typing list becomes the typing update; it stays free of repeats; another user starting to type shows the indicator |
| ChatView.ChatPanel.OnAuctionUpdate | frontend/src/components/Chat.jsx:84-92 | the message list becomes the status update |
| ChatView.ChatPanel.SendText | frontend/src/components/Chat.jsx:94-110 | a blank text is not sent; otherwise the typed text is posted and cleared on success |
| ChatView.ChatPanel.SendOffer | frontend/src/components/Chat.jsx:112-133 | nothing is sent without both a price and a description; otherwise the offer is posted, and on success the form is emptied and hidden |
| ChatsPage.OtherUserIsReceiver | frontend/src/pages/ChatsPage.jsx:73-75 | the other user shown is the one the viewer's messages go to, never the viewer |
| ChatsPage.BadgeFollowsCounters | frontend/src/pages/ChatsPage.jsx:77-81 | the viewer's count rises by one on a message from the other side and not on their own; it is zero after listing, so no badge shows |
| ChatsPage.CountLabelPlural | frontend/src/pages/ChatsPage.jsx:100-104 | the label shows iff there are conversations, and ends in 's' iff the count is not one |
| ChatsPage.OnNewMessage | frontend/src/pages/ChatsPage.jsx:44-53 | only the matching conversation gets the message and the new activity time; the length, the ids and both unread counters are unchanged and every other entry stays as it was |
| ChatsPage.NewMessageKeepsOrderAndBadges | frontend/src/pages/ChatsPage.jsx:44-53 | entries keep their places and their unread counts, so the conversation just written to is not moved to the top |
| RouteGuard.GuardDecides | frontend/src/components/ProtectedRoute.jsx:4-19 | the page renders iff the user is signed in and their own role matches any required role; a stranger goes to '/'; a wrong role goes to that role's home; the selected role plays no part |
| RouteGuard.WrongRoleNotSentHome | frontend/src/components/ProtectedRoute.jsx:13-17 | a signed-in user with the wrong role is redirected, never to the landing page |
| UploadForm.ImageCheck | frontend/src/components/UploadPainting.jsx:32-41 | a file is taken iff its type starts with 'image/' and it is at most 5 MiB |
| UploadForm.ImageLimitInclusive | frontend/src/components/UploadPainting.jsx:38-41 | exactly 5 MiB is accepted, one byte more is refused |
| UploadForm.SubmitCheckSpec | frontend/src/components/UploadPainting.jsx:58-72 | a form is posted iff it has an image, a title, a description and a positive price or a price of spaces alone; a missing image is reported first |
| UploadForm.UploadPaintingForm.constructor | frontend/src/components/UploadPainting.jsx:6-18 | the form starts empty with no error |
| UploadForm.UploadPaintingForm.HandleImageChange | frontend/src/components/UploadPainting.jsx:28-53 | no file changes nothing; a refused file sets its error and keeps the image; an accepted file becomes the image and clears the error |
| UploadForm.UploadPaintingForm.HandleSubmit | frontend/src/components/UploadPainting.jsx:55-109 | a refused form sets its error and posts nothing; an accepted form is posted as it stands; a successful upload empties every field and the image; a failed one keeps them and shows an error |

## Left out

- Socket delivery: the `io.emit` and `io.to(...).emit` calls, the socket handshake, room join and leave, and the typing relay. The client handlers take the event's fields as parameters.
- Persistence (`findById`, `findOne`, `save`, `populate`, `updateMany`). Lookups are parameters, and the stores are sequences in memory. Concurrent requests are not modelled: every request runs to completion before the next.
- The wall clock is a `now` parameter. Locale formatting of times and numbers is left out. Templated auction-chat texts are kept as their parameters (`Content`).
- AuctionChats.ContentFits: only plain texts and the join notice are measured against the 500-unit limit. The started, bid and ended notices are short fixed texts around a formatted number, date or bidder name, and are taken to fit because their formatting is not modelled.
- Number parsing (`parseFloat`, `isNaN`, Mongoose casting) is not modelled. Inputs arrive already classified: missing, malformed or a number, and for the upload price also blank or spaces-only. Floating point is modelled as exact reals.
- `Text.Trim` covers the common whitespace characters that `trim` removes, not the whole Unicode space-separator class.
- AuctionRoutes.StartAuction: the duration is taken as a whole number of hours, while the route also accepts fractional hours (0.5 starts a half-hour auction). A missing or non-numeric duration, which gives an invalid `endTime`, is not modelled.
- ChatRoutes.ChatStore.ListMessages: the page size is a natural number. A negative `limit` is not modelled.
- ChatRoutes.ConversationList: the order among conversations with the same `lastMessageAt` follows the store order. MongoDB promises no order for ties.
- ChatRoutes.MessagePage: the same applies to messages with the same `createdAt`.
- AuctionChatView: the panel's loading of the chat and details, and its crash when the details are still null, are not modelled. The details start from a given record.
- ChatRoutes.ChatStore.UpdateOfferStatus: the status is always a string. A request with no status at all, which the enum validator lets through and which then reads back as 'pending', is not modelled.
- UploadForm.SubmitCheckSpec: the spaces-only price is the handler's own reading. The rendered price input is a required number field, so the browser clears such a value and blocks the submit before the handler runs.
- ChatView: the typing timer (`startTyping`/`stopTyping` after two seconds) and the Accept/Decline request itself are not modelled. The request is the route `UpdateOfferStatus`.
- UploadForm: the FileReader preview (`preview`), the loading flag and plain typing into the inputs (`handleInputChange`, an assignment of the typed value) are not modelled.
- PaintingRoutes.AcceptBid: a failure to save the Order after the painting was saved (a 500 after the sale is recorded) is not modelled.
- The painting update route, file upload handling and the upload route's own field checks are not part of this model. Only its tag parsing and the painting's defaults are modelled.
- The "not open for bidding" answer of the bid route for other sale types cannot occur: the schema admits only 'direct_sale' and 'auction'.
