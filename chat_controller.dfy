/** The conversation handlers of src/controllers/chatController.js: the
    one-to-one conversation lookup shared by `createConversation` and
    `sendMessage`, and the message send with its file upload, atomic
    commit, room broadcast and push notification. The upload and the push
    are foreign calls; their outcomes arrive as parameters and the push is
    returned. */
module ChatController {
  import opened Common
  import opened Users
  import opened ResponseHelper
  import opened SocketEvents
  import opened SocketLayer

  /** A conversation with its members (the UserConversations join rows). */
  datatype Conversation = Conversation(id: string, isGroup: bool, users: seq<UserId>, lastMessageId: Option<string>)

  /** A row of the Message table. */
  datatype ChatMessage = ChatMessage(id: string, conversationId: string, senderId: UserId, content: string,
                                     messageType: string, createdAt: int)

  /** The Conversation and Message tables. */
  class ChatStore {
    var conversations: seq<Conversation>
    var messages: seq<ChatMessage>

    constructor (conversations: seq<Conversation>, messages: seq<ChatMessage>)
      ensures this.conversations == conversations && this.messages == messages
    {
      this.conversations := conversations;
      this.messages := messages;
    }
  }

  /** The members the lookup query loads: those whose id is `me` or `other`. */
  function LoadedMembers(c: Conversation, me: UserId, other: UserId): seq<UserId> {
    Filter(c.users, (u: UserId) => u == me || u == other)
  }

  /** The `find` callback: a non-group conversation whose loaded members are
      two and include both users. */
  predicate IsPair(c: Conversation, me: UserId, other: UserId) {
    var loaded := LoadedMembers(c, me, other);
    !c.isGroup && |loaded| == 2 && me in loaded && other in loaded
  }

  /** For a conversation whose members are listed once each, the match is
      exactly: not a group, two different users, both members. A third
      member does not prevent the match, because only the two users' rows
      are loaded. */
  lemma IsPairIff(c: Conversation, me: UserId, other: UserId)
    requires NoDups(c.users)
    ensures IsPair(c, me, other) <==> !c.isGroup && me != other && me in c.users && other in c.users
  {
    var loaded := LoadedMembers(c, me, other);
    var p := (u: UserId) => u == me || u == other;
    if me == other {
      FilterCount(c.users, p, me);
      OneOccurrence(c.users, me);
      AllSame(loaded, me);
      assert |loaded| <= 1;
    }
    if !c.isGroup && me != other && me in c.users && other in c.users {
      FilterCount(c.users, p, me);
      FilterCount(c.users, p, other);
      OneOccurrence(c.users, me);
      OneOccurrence(c.users, other);
      assert multiset(loaded)[me] == 1 && multiset(loaded)[other] == 1;
      LoadedPair(loaded, me, other);
    }
  }

  /** An element listed once occurs once. */
  lemma {:induction false} OneOccurrence(s: seq<UserId>, x: UserId)
    requires NoDups(s)
    ensures multiset(s)[x] == if x in s then 1 else 0
  {
    if s != [] {
      assert s == [s[0]] + s[1..];
      assert NoDups(s[1..]) by {
        forall i, j | 0 <= i < j < |s[1..]| ensures s[1..][i] != s[1..][j] {
          assert s[1..][i] == s[i + 1] && s[1..][j] == s[j + 1];
        }
      }
      OneOccurrence(s[1..], x);
      if x == s[0] {
        assert x !in s[1..] by {
          forall k | 0 <= k < |s[1..]| ensures s[1..][k] != x {
            assert s[1..][k] == s[k + 1];
          }
        }
      }
    }
  }

  /** A sequence of `a`s is as long as `a`'s count. */
  lemma {:induction false} AllSame(s: seq<UserId>, a: UserId)
    requires forall u :: u in s ==> u == a
    ensures |s| == multiset(s)[a]
  {
    if s != [] {
      assert s == [s[0]] + s[1..];
      assert s[0] in s;
      assert forall u :: u in s[1..] ==> u in s;
      AllSame(s[1..], a);
    }
  }

  /** A sequence of `a`s and `b`s holding each once has length two. */
  lemma LoadedPair(loaded: seq<UserId>, a: UserId, b: UserId)
    requires a != b
    requires forall u :: u in loaded ==> u == a || u == b
    requires multiset(loaded)[a] == 1 && multiset(loaded)[b] == 1
    ensures |loaded| == 2 && a in loaded && b in loaded
  {
    var m := multiset(loaded);
    assert m == multiset{a, b} by {
      forall u ensures m[u] == multiset{a, b}[u] {
        if u != a && u != b {
          assert u !in loaded;
        }
      }
    }
    assert |m| == 2;
  }

  /** Asking for a conversation with oneself never matches an existing one:
      a member listed once loads once. */
  lemma SelfNeverPairs(c: Conversation, me: UserId)
    requires NoDups(c.users)
    ensures !IsPair(c, me, me)
  {
    IsPairIff(c, me, me);
  }

  /** The first existing one-to-one conversation between the two users. */
  function FindPair(conversations: seq<Conversation>, me: UserId, other: UserId): Option<nat> {
    FindIndex(conversations, (c: Conversation) => IsPair(c, me, other))
  }

  /** `createConversation`: returns the existing one-to-one conversation
      with the user holding `participantCode`, or creates one (id `newId`). */
  method CreateConversation(store: ChatStore, users: seq<User>, me: UserId, participantCode: string, newId: string)
    returns (reply: Envelope<Conversation>)
    modifies store`conversations
    ensures FindByCode(users, participantCode).None? ==>
      reply == Error("User not found", Some(404)) && store.conversations == old(store.conversations)
    ensures FindByCode(users, participantCode).Some? ==>
      var other := users[FindByCode(users, participantCode).value].id;
      match FindPair(old(store.conversations), me, other)
      case Some(k) =>
        store.conversations == old(store.conversations)
        && reply == Success("Conversation created successfully", Some(old(store.conversations)[k]), Some(201))
      case None =>
        var created := Conversation(newId, false, [me, other], None);
        store.conversations == old(store.conversations) + [created]
        && reply == Success("Conversation created successfully", Some(created), Some(201))
  {
    var found := FindByCode(users, participantCode);
    if found.None? {
      return Error("User not found", Some(404));
    }
    var other := users[found.value].id;
    var existing := FindPair(store.conversations, me, other);
    if existing.Some? {
      return Success("Conversation created successfully", Some(store.conversations[existing.value]), Some(201));
    }
    var created := Conversation(newId, false, [me, other], None);
    store.conversations := store.conversations + [created];
    reply := Success("Conversation created successfully", Some(created), Some(201));
  }

  /** A conversation created for two different users is found by the next
      lookup for the same pair, in either order: the lookup does not create
      duplicates. */
  lemma CreatedPairIsFound(conversations: seq<Conversation>, newId: string, me: UserId, other: UserId)
    requires me != other
    requires FindPair(conversations, me, other).None?
    ensures FindPair(conversations + [Conversation(newId, false, [me, other], None)], me, other)
            == Some(|conversations|)
    ensures FindPair(conversations + [Conversation(newId, false, [me, other], None)], other, me).Some?
  {
    var created := Conversation(newId, false, [me, other], None);
    assert NoDups(created.users);
    IsPairIff(created, me, other);
    IsPairIff(created, other, me);
    var after := conversations + [created];
    assert after[|conversations|] == created;
  }

  /** The message a send would store: its content and type, or the refusal. */
  datatype Draft = Draft(content: string, messageType: string) | Refused(status: int, message: string)

  /** The content and type of a message. An uploaded file's URL replaces the
      text and its mimetype decides between image and file; without a file
      the body's type is kept, defaulting to text. Content must be truthy. */
  function Compose(content: Option<string>, messageType: Option<string>, upload: Upload): (r: Draft)
    ensures r.Draft? <==> (upload.Stored? && upload.url != "") || (upload.NoFile? && Truthy(content))
    ensures upload.StoreFailed? ==> r == Refused(500, "Failed to upload file: " + upload.message)
    ensures r.Refused? && !upload.StoreFailed? ==> r == Refused(400, "Message content or file is required")
    ensures r.Draft? && upload.Stored? ==>
      r.content == upload.url && (r.messageType == "image" <==> StartsWith(upload.mimetype, "image/"))
      && r.messageType in {"image", "file"}
    ensures r.Draft? && upload.NoFile? ==>
      r.content == content.value && r.messageType == (if Truthy(messageType) then messageType.value else "text")
  {
    match upload
    case StoreFailed(message) => Refused(500, "Failed to upload file: " + message)
    case Stored(url, mimetype) =>
      if url == "" then Refused(400, "Message content or file is required")
      else Draft(url, if StartsWith(mimetype, "image/") then "image" else "file")
    case NoFile =>
      if !Truthy(content) then Refused(400, "Message content or file is required")
      else Draft(content.value, OrElse(messageType, "text"))
  }

  /** The notification text the handler computes (and then does not send:
      the push carries a fixed mask instead). Text longer than 50
      characters is cut to its first 50 and marked with an ellipsis. */
  function NotificationBody(messageType: string, content: string): (r: string)
    ensures messageType == "image" ==> r == "\U{1F4F7} Sent an image"
    ensures messageType == "file" ==> r == "\U{1F4CE} Sent a file"
    ensures messageType != "image" && messageType != "file" ==>
      |r| <= 53 && (|content| <= 50 ==> r == content)
      && (|content| > 50 ==> StartsWith(r, content[..50]) && StartsWith(content, r[..50]) && r[50..] == "...")
  {
    if messageType == "image" then "\U{1F4F7} Sent an image"
    else if messageType == "file" then "\U{1F4CE} Sent a file"
    else if content != "" && |content| > 50 then content[..50] + "..."
    else content
  }

  /** The text every chat push carries in place of the message. */
  const MaskedBody: string := "**********"

  /** The push a message triggers. */
  function ChatPush(token: string, me: User, conversationId: string): Push {
    Push(token, "New message from " + (if me.userCode != "" then me.userCode else "Friend"), MaskedBody,
         [("conversationId", conversationId), ("type", "CHAT")])
  }

  /** A member the push lookup can return: not the sender, and with a
      user row (members without one are not loaded). */
  predicate Reachable(users: seq<User>, me: UserId, m: UserId) {
    m != me && FindById(users, m).Some?
  }

  /** The row of the first member (in member order) that is not the sender;
      members without a user row are not loaded. */
  function PushRecipient(members: seq<UserId>, users: seq<User>, me: UserId): (r: Option<User>)
    ensures r.Some? ==> r.value.id != me && r.value.id in members && r.value in users
    ensures r.None? <==> forall m :: m in members && m != me ==> FindById(users, m).None?
    ensures r.Some? ==>
      exists i :: 0 <= i < |members| && Reachable(users, me, members[i])
        && r.value == users[FindById(users, members[i]).value]
        && (forall j :: 0 <= j < i ==> !Reachable(users, me, members[j]))
  {
    match FindIndex(members, (m: UserId) => Reachable(users, me, m))
    case None => None
    case Some(i) => Some(users[FindById(users, members[i]).value])
  }

  /** The conversation the message goes to, when it can be resolved. */
  datatype Target = Existing(id: string) | Create(other: UserId) | NoUser | NoTarget

  /** Steps 1 and 2 of `sendMessage`: a truthy `conversationId` is used as
      given; otherwise `recipientId`, or else `recipientCode ||
      participantCode`, names the other user. */
  function ResolveTarget(conversations: seq<Conversation>, users: seq<User>, me: UserId,
                         conversationId: Option<string>, recipientId: Option<string>,
                         recipientCode: Option<string>, participantCode: Option<string>): (r: Target)
    ensures Truthy(conversationId) ==> r == Existing(conversationId.value)
    ensures r == NoTarget <==>
      !Truthy(conversationId) && !Truthy(recipientId) && !Truthy(recipientCode) && !Truthy(participantCode)
    ensures !Truthy(conversationId) && Truthy(recipientId) ==>
      (r == NoUser <==> FindById(users, recipientId.value).None?)
    ensures !Truthy(conversationId) && !Truthy(recipientId) && (Truthy(recipientCode) || Truthy(participantCode)) ==>
      (r == NoUser <==> FindByCode(users, if Truthy(recipientCode) then recipientCode.value else participantCode.value).None?)
    ensures r.Create? ==> r.other == UserOf(users, recipientId, recipientCode, participantCode)
    ensures r.Create? ==> FindPair(conversations, me, r.other).None?
    ensures !Truthy(conversationId) && (r.Existing? || r.Create?) ==>
      (r.Existing? <==> FindPair(conversations, me, UserOf(users, recipientId, recipientCode, participantCode)).Some?)
    ensures r.Existing? && !Truthy(conversationId) ==>
      var k := FindPair(conversations, me, UserOf(users, recipientId, recipientCode, participantCode));
      k.Some? && r.id == conversations[k.value].id
  {
    var userCode := if Truthy(recipientCode) then recipientCode else participantCode;
    if Truthy(conversationId) then Existing(conversationId.value)
    else if !Truthy(recipientId) && !Truthy(userCode) then NoTarget
    else
      var participant := if Truthy(recipientId) then FindById(users, recipientId.value) else FindByCode(users, userCode.value);
      if participant.None? then NoUser
      else
        var other := users[participant.value].id;
        match FindPair(conversations, me, other)
        case Some(k) => Existing(conversations[k].id)
        case None => Create(other)
  }

  /** The other user named by the body, when the lookup finds one. */
  function UserOf(users: seq<User>, recipientId: Option<string>, recipientCode: Option<string>,
                  participantCode: Option<string>): UserId
  {
    var userCode := if Truthy(recipientCode) then recipientCode else participantCode;
    var participant := if Truthy(recipientId) then FindById(users, recipientId.value)
                       else if Truthy(userCode) then FindByCode(users, userCode.value) else None;
    if participant.Some? then users[participant.value].id else ""
  }

  /** Points every conversation with this id at its newest message. */
  function Touch(conversations: seq<Conversation>, id: string, messageId: string): (r: seq<Conversation>)
    ensures |r| == |conversations|
    ensures forall k :: 0 <= k < |r| ==> r[k].(lastMessageId := conversations[k].lastMessageId) == conversations[k]
    ensures forall k :: 0 <= k < |r| && conversations[k].id == id ==> r[k].lastMessageId == Some(messageId)
    ensures forall k :: 0 <= k < |r| && conversations[k].id != id ==> r[k] == conversations[k]
  {
    seq(|conversations|, k requires 0 <= k < |conversations| =>
      if conversations[k].id == id then conversations[k].(lastMessageId := Some(messageId)) else conversations[k])
  }

  /** The conversation a resolved target names: the existing one, or the
      one created with id `newConversationId`. */
  function ConversationOf(target: Target, newConversationId: string): string {
    if target.Existing? then target.id else newConversationId
  }

  /** The Conversation table after a send to `target` commits: the new
      conversation appended when one is created, and the target's
      last-message pointer moved to the new message. */
  function Committed(conversations: seq<Conversation>, target: Target, me: UserId,
                     newConversationId: string, newMessageId: string): (r: seq<Conversation>)
    ensures |r| == |conversations| + (if target.Create? then 1 else 0)
    ensures forall k :: 0 <= k < |conversations| && conversations[k].id != ConversationOf(target, newConversationId) ==>
              r[k] == conversations[k]
    ensures forall k :: 0 <= k < |conversations| ==> r[k].(lastMessageId := conversations[k].lastMessageId) == conversations[k]
    ensures target.Create? ==>
              r[|conversations|] == Conversation(newConversationId, false, [me, target.other], Some(newMessageId))
    ensures forall k :: 0 <= k < |r| && r[k].id == ConversationOf(target, newConversationId) ==>
              r[k].lastMessageId == Some(newMessageId)
  {
    var created := if target.Create? then [Conversation(newConversationId, false, [me, target.other], None)] else [];
    Touch(conversations + created, ConversationOf(target, newConversationId), newMessageId)
  }

  /** `k` is the first conversation with id `convId` (`findByPk`). */
  predicate FirstWithId(conversations: seq<Conversation>, convId: string, k: int) {
    0 <= k < |conversations| && conversations[k].id == convId
    && forall j :: 0 <= j < k ==> conversations[j].id != convId
  }

  /** The push recipient of these members exists and has a truthy token. */
  predicate HasToken(members: seq<UserId>, users: seq<User>, me: UserId) {
    var recipient := PushRecipient(members, users, me);
    recipient.Some? && Truthy(recipient.value.fcmToken)
  }

  /** The push a message to conversation `convId` triggers: to the first
      other member of that conversation with a user row, when that user has a
      token. */
  function MessagePush(conversations: seq<Conversation>, users: seq<User>, me: User, convId: string): (r: Option<Push>)
    ensures r.Some? <==> exists k :: FirstWithId(conversations, convId, k) && HasToken(conversations[k].users, users, me.id)
    ensures forall k :: FirstWithId(conversations, convId, k) && HasToken(conversations[k].users, users, me.id) ==>
              r == Some(ChatPush(PushRecipient(conversations[k].users, users, me.id).value.fcmToken.value, me, convId))
  {
    match FindIndex(conversations, (c: Conversation) => c.id == convId)
    case None => None
    case Some(k) =>
      assert FirstWithId(conversations, convId, k);
      assert forall k' :: FirstWithId(conversations, convId, k') ==> k' == k;
      if HasToken(conversations[k].users, users, me.id)
      then Some(ChatPush(PushRecipient(conversations[k].users, users, me.id).value.fcmToken.value, me, convId))
      else None
  }

  /** A message that creates a conversation is pushed to the other user
      exactly when that user is not the sender and has a token: the new
      conversation's members are the sender and them, and its id is fresh. */
  lemma CreatedPairPush(conversations: seq<Conversation>, users: seq<User>, me: User, other: UserId,
                        newConversationId: string, newMessageId: string)
    requires forall k :: 0 <= k < |conversations| ==> conversations[k].id != newConversationId
    requires FindById(users, other).Some?
    ensures var u := users[FindById(users, other).value];
            var pushed := MessagePush(Committed(conversations, Create(other), me.id, newConversationId, newMessageId),
                                      users, me, newConversationId);
            && (pushed.Some? <==> other != me.id && Truthy(u.fcmToken))
            && (pushed.Some? ==> pushed.value == ChatPush(u.fcmToken.value, me, newConversationId))
  {
    var after := Committed(conversations, Create(other), me.id, newConversationId, newMessageId);
    var n := |conversations|;
    assert after[n].users == [me.id, other];
    assert forall j :: 0 <= j < n ==> after[j].id == conversations[j].id by {
      forall j | 0 <= j < n
        ensures after[j].id == conversations[j].id
      {
        assert after[j].(lastMessageId := conversations[j].lastMessageId) == conversations[j];
      }
    }
    assert FirstWithId(after, newConversationId, n);
    var members := after[n].users;
    assert !Reachable(users, me.id, members[0]);
    if other != me.id {
      assert Reachable(users, me.id, members[1]);
      assert PushRecipient(members, users, me.id) == Some(users[FindById(users, other).value]);
    } else {
      assert PushRecipient(members, users, me.id).None?;
    }
  }

  /** `sendMessage`. `me` is the requester's user row; `newConversationId`
      and `newMessageId` are the ids the store assigns; `now` is the clock.
      The new conversation, the message and the last-message pointer are
      written in one transaction: a refusal after the conversation was
      created leaves both tables as they were. After the commit the message
      is broadcast to the conversation's room, and a push goes to the first
      other member with a token, connected or not; a failed push is
      ignored. */
  method SendMessage(store: ChatStore, server: Server, users: seq<User>, me: User,
                     conversationId: Option<string>, recipientId: Option<string>,
                     recipientCode: Option<string>, participantCode: Option<string>,
                     content: Option<string>, messageType: Option<string>, upload: Upload,
                     newConversationId: string, newMessageId: string, now: int, pushFailure: Option<string>)
    returns (reply: Envelope<ChatMessage>, push: Option<Push>)
    modifies store, server`outbox
    ensures var target := ResolveTarget(old(store.conversations), users, me.id, conversationId, recipientId, recipientCode, participantCode);
            var draft := Compose(content, messageType, upload);
            var refused := target.NoUser? || target.NoTarget? || draft.Refused?;
            && (target == NoUser ==> reply == Error("Recipient user not found", Some(404)))
            && (target == NoTarget ==> reply == Error("conversationId or recipientCode is required", Some(400)))
            && (!target.NoUser? && !target.NoTarget? && draft.Refused? ==> reply == Error(draft.message, Some(draft.status)))
            && (refused ==>
                  push.None? && server.outbox == old(server.outbox)
                  && store.conversations == old(store.conversations) && store.messages == old(store.messages))
            && (!refused ==>
                  var convId := ConversationOf(target, newConversationId);
                  var message := ChatMessage(newMessageId, convId, me.id, draft.content, draft.messageType, now);
                  store.conversations == Committed(old(store.conversations), target, me.id, newConversationId, newMessageId)
                  && store.messages == old(store.messages) + [message]
                  && server.outbox == old(server.outbox) + [
                       Emission(ToRoom(convId), "new_message",
                                NewMessage(newMessageId, convId, me.id, draft.content, draft.messageType, now,
                                           SenderCard(me.id, me.displayName, me.avatar)))]
                  && push == MessagePush(store.conversations, users, me, convId)
                  && reply == Success("Message sent successfully", Some(message), Some(201)))
  {
    push := None;
    var target := ResolveTarget(store.conversations, users, me.id, conversationId, recipientId, recipientCode, participantCode);
    if target == NoUser {
      return Error("Recipient user not found", Some(404)), None;
    }
    if target == NoTarget {
      return Error("conversationId or recipientCode is required", Some(400)), None;
    }
    var draft := Compose(content, messageType, upload);
    if draft.Refused? {
      return Error(draft.message, Some(draft.status)), None;
    }
    // the transaction: create the conversation if needed, store the message, touch the conversation
    var convId := ConversationOf(target, newConversationId);
    var message := ChatMessage(newMessageId, convId, me.id, draft.content, draft.messageType, now);
    var conversations := Committed(store.conversations, target, me.id, newConversationId, newMessageId);
    store.messages := store.messages + [message];
    store.conversations := conversations;
    // after the commit
    server.outbox := server.outbox + [
      Emission(ToRoom(convId), "new_message",
               NewMessage(newMessageId, convId, me.id, draft.content, draft.messageType, now,
                          SenderCard(me.id, me.displayName, me.avatar)))];
    push := MessagePush(conversations, users, me, convId);
    reply := Success("Message sent successfully", Some(message), Some(201));
  }
}
