# Chat backend: socket layer and request handlers

This project models the core of a chat and calling backend:

- **The real-time socket layer.** This covers:
  - the registry from user id to socket id;
  - online/offline presence notices to a user's friends;
  - conversation rooms;
  - the WebRTC signalling relay.
- **The request logic around it:**
  - PIN rules and user codes;
  - the response envelope;
  - one-time-password and two-factor login;
  - the PIN itself;
  - profile and push-token updates;
  - friend requests;
  - 24-hour statuses;
  - call logs;
  - news articles;
  - one-to-one conversations and message sending.

**How the model is built**

- **Stateful parts are classes.**
  - The socket layer is a `Server` class. Its fields are the registry (`map`), room memberships and an outbox of emitted events.
  - Each socket is a `Socket` object whose `userId` field is stamped on registration.
  - Every database table a handler writes is a class holding its rows as a `seq`. Handlers are methods that reassign those rows.
  - `findOne` is the first match in row order (`Common.FindIndex`).
- **Pure logic is functions.** This covers the PIN rules, UUID check, envelope, filters and notification text.
- **Each handler runs to completion as one step.**
- **Foreign results arrive as parameters.** This covers:
  - what the database, mailer, push service, object store, bcrypt, JWT signing and TOTP checking return;
  - the ids the store assigns;
  - random draws;
  - the clock, a millisecond integer `now`.
- **Pushes are returned, not sent.**
- **Absent request fields are `None`.** JavaScript truthiness is `Common.Truthy`: a present, non-empty string.

**Behaviour of the code worth noting**

- **Disconnect.** Disconnect deletes the user's registry entry unconditionally. So a superseded socket evicts a newer registration (see Findings).
- **Presence.** Notices iterate `friends ++ addedBy` without deduplication. A friend listed twice is notified twice.
- **Push target.** A chat push goes to the first other member with a token, whether or not they are connected.
- **Push body.** The push body is the fixed mask `**********`. The truncated preview is computed but not sent.
- **One-to-one match.** The query loads only the two users' member rows. So a non-group conversation that also has a third member still matches (`ChatController.IsPairIff`).
- **Conversation with oneself.** Such a conversation never matches an existing one (`ChatController.SelfNeverPairs`).

## Model

| member | source | states |
|---|---|---|
| SocketLayer.Relay | src/app.js:132-222 | call-user always emits exactly one event. The other four signals emit one event exactly when `to` is truthy and registered, otherwise nothing. The event goes to the target's socket with `from` set to the sender socket's own user id. call-user's two errors go back to the sender. callerName defaults to "Unknown" and type to "audio". The answer and ICE relays carry the answer or candidate. The reject and end relays carry only `from`. |
| SocketLayer.RelayOnlyToTargetOrSender | src/app.js:132-222 | Every emitted event either is a relayed event to the registered target carrying the sender's own id, or is a call-user error to the sender. |
| SocketLayer.RegisteredCount | src/app.js:96-113 | Each occurrence of a registered id in the friend list is kept once. Unregistered ids are dropped. |
| SocketLayer.OnlineNoticesPairs | src/app.js:96-113 | The registration notices are one pair per registered occurrence: `user-online {me}` to the friend's socket, then `user-online {friend}` to the registering socket. |
| SocketLayer.OfflineNoticesEach | src/app.js:249-262 | The disconnect notices are one `user-offline {me}` per registered occurrence, to that friend's socket. |
| SocketLayer.OfflineNoticesSkipDeparted | src/app.js:224-262 | After its own entry is deleted, the departing socket receives no offline notice unless another registry entry still names it. |
| SocketLayer.Server.constructor | src/app.js:65 | The registry, rooms and outbox start empty. |
| SocketLayer.Server.Resolve | src/app.js:141 | A lookup finds a socket exactly for a registered user, and returns that user's entry. |
| SocketLayer.Server.RegisterUser | src/app.js:71-118 | A falsy id changes nothing. A truthy id overwrites only that user's registry entry, stamps the socket, and appends the paired online notices over `friends ++ addedBy`. |
| SocketLayer.Server.JoinConversation | src/app.js:121-124 | The room's members gain exactly this socket. |
| SocketLayer.Server.LeaveConversation | src/app.js:126-129 | The room's members lose exactly this socket. |
| SocketLayer.Server.CallUser | src/app.js:132-156 | Appends the call-user relay to the outbox. The registry is untouched. |
| SocketLayer.Server.MakeAnswer | src/app.js:158-173 | Appends the answer relay. Nothing else changes. |
| SocketLayer.Server.IceCandidate | src/app.js:175-194 | Appends the ICE relay. Nothing else changes. |
| SocketLayer.Server.RejectCall | src/app.js:196-206 | Appends the reject relay. Nothing else changes. |
| SocketLayer.Server.EndCall | src/app.js:208-222 | Appends the end relay. Nothing else changes. |
| SocketLayer.Server.Disconnect | src/app.js:224-269 | As written: a socket with a truthy user id deletes that user's entry whatever socket it names, then notifies registered friends. Without a user id the registry and outbox are unchanged. The socket leaves all rooms. |
| SocketLayer.Server.DisconnectIfCurrent | src/app.js:224-269 | Corrected: the entry is deleted, and friends notified, only when it still names this socket. Otherwise the registry and outbox are unchanged. |
| SocketLayer.Server.NotifyOffline | src/app.js:249-262 | The `forEach` loop appends exactly the offline notices for the listed ids. |
| SocketLayer.StaleDisconnectScenario | src/app.js:224-228 | A superseded socket's disconnect leaves the still-connected user unresolvable. |
| SocketLayer.CurrentDisconnectScenario | src/app.js:224-228 | With compare-and-remove the same sequence keeps the newer socket registered. |
| SocketLayer.CallScenario | src/app.js:71-269 | Two friends register, call, answer, hang up and one disconnects. The outbox holds exactly the six expected events with the right targets and `from` fields. |
| UserService.ValidatePin | src/services/userService.js:25-44 | Valid iff six ASCII digits, not all identical, and not a run of consecutive digits. Each refusal carries its own message, checked in the order format, identical, sequential. |
| UserService.IncludesSixIsRun | src/services/userService.js:37-41 | For a six-character PIN, `includes` on either digit line holds exactly when the PIN is one of the ascending or descending runs. |
| UserService.EveryRunRejected | src/services/userService.js:37-41 | Every one of the ten runs is refused as sequential. |
| UserService.CodeOf | src/services/userService.js:3-10 | A draw spells a six-character code over 0-9A-Z. |
| UserService.DrawOf | src/services/userService.js:3-10 | Every such code is spelled by some draw. |
| UserService.GenerateUserCode | src/services/userService.js:3-10 | The loop builds exactly the code the draw spells, which is six alphabet characters. |
| UserService.GetUniqueUserCode | src/services/userService.js:12-23 | Returns the first drawn code not already taken. Every earlier draw was taken. |
| ResponseHelper.Success | src/utils/responseHelper.js:12-23 | `success: true` with the message. The `data` key is present exactly when data is non-null. The status defaults to 200. |
| ResponseHelper.Error | src/utils/responseHelper.js:32-43 | `success: false` with the message. The `error` key is present exactly when the details are truthy. The status defaults to 500. |
| AuthController.RequestOTP | src/controllers/authController.js:12-42 | No email gives 400 and no change. An existing user (first by email) gets the OTP and an expiry 5 minutes ahead. Otherwise a user with a fresh unused code is appended with them. The OTP is stored even when the mail fails (500). |
| AuthController.VerifyOTP | src/controllers/authController.js:45-111 | 400 without email or OTP, or when no row matches email, OTP and unexpired time. A match is cleared before the secret check, so a 500 still consumes the OTP. On success the session carries the token and the profile with `pinSet` and the stored secret. |
| AuthController.IssuedOtpWindow | src/controllers/authController.js:28-65 | With unique emails, an OTP just issued is accepted exactly while `now < issued + 5 min`, and refused from then on. |
| AuthController.OtpSingleUse | src/controllers/authController.js:53-70 | Once a matching OTP is cleared, no OTP for that email is accepted at any later time. |
| AuthController.Setup2FA | src/controllers/authController.js:114-136 | Unknown email gives 404 and no change. Otherwise only that user's secret is stored, and the secret and QR code are returned. |
| AuthController.Verify2FA | src/controllers/authController.js:139-178 | 404 for an unknown email and 400 for a refused code, each with no change. A verified code sets the flag. No row's flag is ever cleared. Signing without a secret fails after the flag is saved. |
| AuthController.SetupPin | src/controllers/authController.js:181-203 | 404 for an unknown user. A PIN that `validatePin` refuses gives 400 with its message and leaves the stored PIN unchanged. Otherwise only the hash is stored. |
| AuthController.VerifyPin | src/controllers/authController.js:206-226 | Success iff the user exists, has a PIN and the comparison matches. The three refusals are 404 "User not found", 400 "PIN not set" and 400 "Invalid PIN". |
| AuthController.Logout | src/controllers/authController.js:229-240 | Always reports success. Only the found user's push token is cleared, and nothing changes when there is no user. |
| AuthController.GetAuthStatus | src/controllers/authController.js:243-255 | 404 iff the user is missing. Otherwise `pinSet` is the truthiness of the stored PIN and `twoFactorEnabled` the flag. |
| AuthController.PinSetIsReported | src/controllers/authController.js:181-255 | After a PIN is set, the status reports `pinSet`, and `verifyPin` succeeds exactly when the comparison matches. |
| UserController.ProfileUpdated | src/controllers/userController.js:23-32 | A truthy display name replaces the old one. An uploaded URL takes precedence over a truthy `avatar`; with neither the avatar is kept. No other field changes. |
| UserController.UpdateProfile | src/controllers/userController.js:16-39 | 404 for an unknown user. A failed upload gives 500 and no change. Otherwise only that user's row is replaced by the updated profile. |
| UserController.UpdateFCMToken | src/controllers/userController.js:83-100 | 400 "Token is required" before any lookup when neither token is truthy. Then 404, or the chosen token (`fcmToken`, else `pushToken`) is stored on that user only. |
| UserController.GetUsers | src/controllers/userController.js:42-66 | Never returns the requester. A user is listed iff it is another user matching the search. Without a search, the count is every row except the requester's. |
| FriendController.Outgoing | src/models/index.js:46-51 | The `friends` association: exactly the users `me` has a row to, of any status. |
| FriendController.Incoming | src/models/index.js:53-58 | The `addedBy` association: exactly the users with a row to `me`, of any status. |
| FriendController.AddFriend | src/controllers/friendController.js:6-62 | 400 for a missing code, 404 for an unknown one, 400 for oneself. An accepted or pending row gives its 400. Otherwise, including a blocked row, a pending row is appended. A failed push yields 500, but the created row stays. |
| FriendController.AcceptFriend | src/controllers/friendController.js:95-151 | 404 with no change unless a pending request from them exists. Otherwise the request row is accepted and the reverse row accepted or created. The push goes to the sender's token. |
| FriendController.AcceptMakesMutual | src/controllers/friendController.js:113-132 | After accepting, accepted rows run both ways, so the two are friends from either side. |
| FriendController.RejectFriend | src/controllers/friendController.js:154-174 | Exactly the pending requests from them are deleted, and every other row is kept. It succeeds iff one existed, otherwise 404. |
| FriendController.RemoveFriend | src/controllers/friendController.js:209-232 | Every row between the two, in both directions and of any status, is deleted and no other. Afterwards they are neither friends nor linked. It always succeeds. |
| FriendController.GetFriends | src/controllers/friendController.js:177-206 | A missing requester row throws (500). Otherwise each listed user appears once, and a user is listed iff an accepted row links them either way. |
| FriendController.PendingRequestLinks | src/controllers/friendController.js:40-44 | A new pending request links the pair in `friends`/`addedBy` (what presence and the status feed read) without making them friends. |
| StatusController.PostStatus | src/controllers/statusController.js:6-28 | 400 without content. Otherwise the status is appended with type defaulting to "text" and expiry 24 hours after creation. |
| StatusController.VisibleIds | src/controllers/statusController.js:51-56 | The requester first, then each user linked by a row in either direction, once each. |
| StatusController.Feed | src/controllers/statusController.js:64-81 | Exactly the unexpired statuses of visible owners, as a permutation of that filter, newest first. |
| StatusController.NewOwnerStep | src/controllers/statusController.js:84-94 | The reducer's step for a new owner keeps the grouping invariant. |
| StatusController.KnownOwnerStep | src/controllers/statusController.js:84-94 | The reducer's step for a known owner keeps the grouping invariant. |
| StatusController.GroupStatuses | src/controllers/statusController.js:84-94 | One group per owner, in order of first story. Each group holds exactly that owner's stories in input order and is non-empty. |
| StatusController.GetStatuses | src/controllers/statusController.js:31-104 | A missing requester row throws (500). Otherwise the grouping of the feed is returned. |
| StatusController.OwnStatusVisible | src/controllers/statusController.js:51-72 | A user's own status is in their feed exactly until it expires. |
| StatusController.DeleteStatus | src/controllers/statusController.js:107-124 | Only the first status matching both id and owner is removed, and nothing else. Otherwise 404 and no change. Other owners' statuses are never removed. |
| CallController.IsValidUUID | src/controllers/callController.js:7-11 | The anchored 8-4-4-4-12 pattern accepts exactly the 36-character strings with hyphens at 8, 13, 18, 23 and hex digits of either case elsewhere. |
| CallController.UuidGroups | src/controllers/callController.js:7-11 | The group-by-group match agrees with the positional shape. |
| CallController.LogCall | src/controllers/callController.js:14-69 | 400 for a missing receiver before the format check, then 400 for a non-UUID, each with no change. Otherwise the record is appended with the defaults audio, missed, 0 and now for falsy fields, and the caller is the requester. The push goes to a receiver with a token, and its failure does not change the 201. |
| CallController.CallUpdated | src/controllers/callController.js:77-84 | Status, duration and end time change only when truthy, so a zero duration or end time is ignored. No other field changes. |
| CallController.UpdateCall | src/controllers/callController.js:72-89 | 404 with no change for an unknown id. Otherwise only that record is replaced by its update. |
| CallController.ZeroDurationIgnored | src/controllers/callController.js:80-82 | A duration of 0 never changes the stored duration. An update with no truthy field is the identity. |
| CallController.GetCallHistory | src/controllers/callController.js:92-117 | Exactly the calls the requester made or received, as a permutation of that filter, newest first. |
| NewsController.CreateNews | src/controllers/newsController.js:6-23 | `published` is true only when omitted. An explicit false is kept, and the author is the requester. A missing title or content is refused by the store with no change. |
| NewsController.GetAllNews | src/controllers/newsController.js:26-56 | Exactly the published articles in the category and with the search text in the title, when given, as a permutation newest first. |
| NewsController.PublishedDefault | src/controllers/newsController.js:15-49 | An article stored as published appears in the unfiltered listing, and an unpublished one never does. |
| NewsController.NewsUpdated | src/controllers/newsController.js:100-104 | Text fields change only when truthy, and `published` whenever given. The id, author and creation time are kept. |
| NewsController.UpdateNews | src/controllers/newsController.js:84-111 | 404 for a missing article and 403 for a non-author, each with no change. Otherwise only that article is replaced by its update. |
| NewsController.DeleteNews | src/controllers/newsController.js:114-134 | 404 and 403 as for update. The author's delete removes exactly that article. Other authors' articles are never removed. |
| ChatController.IsPairIff | src/controllers/chatController.js:85-90 | For members listed once, the match holds iff the conversation is not a group, the users differ, and both are members. |
| ChatController.SelfNeverPairs | src/controllers/chatController.js:85-90 | A lookup with oneself never matches. |
| ChatController.CreateConversation | src/controllers/chatController.js:63-101 | 404 for an unknown code. The first matching conversation is returned unchanged; otherwise a two-member conversation is appended. |
| ChatController.CreatedPairIsFound | src/controllers/chatController.js:63-101 | A conversation just created for two users is found by the next lookup in either order, so no duplicate is created. |
| ChatController.Compose | src/controllers/chatController.js:170-184 | An upload's URL becomes the content, typed "image" iff its mimetype starts with "image/", else "file". Without a file the body's type is used, defaulting to "text". Missing content gives 400 and a failed upload 500. |
| ChatController.NotificationBody | src/controllers/chatController.js:249-256 | Images and files get their fixed texts. Other content is kept when at most 50 characters, otherwise cut to its first 50 plus "...". |
| ChatController.PushRecipient | src/controllers/chatController.js:242-247 | The recipient is the member at the first position that is not the sender and has a user row, and it is that member's row. There is none exactly when no member qualifies. |
| ChatController.ResolveTarget | src/controllers/chatController.js:113-163 | A truthy conversation id is used as given. Otherwise `recipientId` wins over `recipientCode`, which wins over `participantCode`. An unknown user gives NoUser. The result is NoTarget exactly when none of the four fields is truthy. For the looked-up user, the first existing pair is reused exactly when one exists; otherwise a conversation with that user is created. |
| ChatController.Touch | src/controllers/chatController.js:196-205 | Every conversation with the target id points at the new message. The others are unchanged, and no other field of any conversation changes. |
| ChatController.Committed | src/controllers/chatController.js:146-205 | The table grows by one exactly when a conversation is created. That conversation is the non-group pair of the sender and the other user, already pointing at the new message. Every conversation with the target id points at the new message. Other conversations are unchanged, and existing rows change only their pointer. |
| ChatController.MessagePush | src/controllers/chatController.js:242-265 | A push is produced exactly when the first conversation with the target id has a recipient, the first other member with a row, and that recipient's token is truthy. It then carries that token, the masked body and the conversation id. Connection state plays no part. |
| ChatController.CreatedPairPush | src/controllers/chatController.js:146-265 | A message that creates a conversation is pushed to the other user exactly when that user is not the sender and has a token. |
| ChatController.SendMessage | src/controllers/chatController.js:104-281 | Refusals (404, 400, upload 500) change nothing and push nothing. Otherwise the conversation, the message and the pointer are committed together and one `new_message` goes to the conversation's room. The push goes to the first other member's token whether or not they are connected. A push failure still returns 201. |

## Left out

- Concurrency. Interleaving at the awaits in `register-user`, `disconnect` and the handlers is not modelled: each handler is one atomic step.
- Socket.io delivery. Emissions are appended to an outbox, and rooms are a set of (socket, room) pairs.
- Presence lookups. The friend lists are inputs. A failed lookup is `None` and sends no notices.
- Database failures. Failures of the relational store are not modelled: unique, enum, foreign-key and `isEmail` violations, and the generic `catch` answering `err.message` with 500. The exceptions are the ones the handlers visibly hit: a missing row read as `null`, and required news columns.
- Search matching. `LIKE` matching is modelled as a case-sensitive substring test (`Common.Includes`). Case-insensitive collation and the `%`/`_` wildcards in the search text are not modelled.
- String lengths. Lengths and the 50-character cut count Dafny characters (code points), not UTF-16 code units.
- Randomness and the clock. `Math.random` is a supplied draw sequence. `generateOTP` is an input. Time is an integer millisecond clock rather than local-time `Date` values.
- Foreign services. These are not part of this model: mail, Firebase push, the R2 object store, bcrypt, JWT signing, TOTP checking and QR rendering. Their results are parameters, and pushes are returned instead of sent.
- JSON values. Non-string JSON in request bodies (numbers, objects) is not modelled. Fields are optional strings, ints or booleans.
- `null` versus `undefined`. The two are merged for `published`, `twoFactorSecret` and body fields.
- Association order. Included association rows are taken in table order. The stores' own `order` clauses are modelled.
- Reply attributes. The attribute subsets of replies (e.g. the sender card or user lists) are not projected.
- Other handlers. These are not part of this model: `getProfile`, `deleteUser`, `getConversations`, `getMessages`, `getFriendRequests`, `getNewsById` and the upload controller.
- AuthController.Setup2FA: an undefined `email` is not modelled; the email is a plain string.
- AuthController.Verify2FA: an undefined `email` is not modelled; the email is a plain string.
- ChatController.CreateConversation: an undefined `participantCode` is not modelled.
- UserService.GetUniqueUserCode: the source loops until a free code appears. The model requires that some supplied draw is free, so an endless run of taken codes is not represented.
- AuthController.RequestOTP: requires a free code among the draws, for the same reason.

## Findings

| source | as written | input that shows it | evidently intended | confidence | as-written member | corrected member |
|---|---|---|---|---|---|---|
| src/app.js:224-228 | `disconnect` deletes `userSocketMap[socket.userId]` without checking that the entry names this socket | alice registers on s1, then on s2; s1 disconnects: alice's entry is deleted and alice reads as offline while s2 is connected | delete the entry only when it still names the disconnecting socket | not executed | SocketLayer.Server.Disconnect, SocketLayer.StaleDisconnectScenario | SocketLayer.Server.DisconnectIfCurrent, SocketLayer.CurrentDisconnectScenario |
