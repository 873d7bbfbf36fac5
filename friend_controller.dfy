/** The friend-request handlers (src/controllers/friendController.js) over
    an in-memory Friend table. A row `userId -> friendId` records that
    `userId` asked `friendId`; the `friends` association of a user follows
    its outgoing rows and `addedBy` its incoming rows
    (src/models/index.js:46-58). Push delivery is a foreign call: the
    handler returns the push it would send, and its failure arrives as a
    parameter. */
module FriendController {
  import opened Common
  import opened Users
  import opened ResponseHelper

  datatype Status = Pending | Accepted | Blocked

  datatype Friendship = Friendship(id: nat, userId: UserId, friendId: UserId, status: Status)

  /** The Friend table: its rows and the next auto-increment id. */
  class FriendTable {
    var rows: seq<Friendship>
    var nextId: nat

    constructor (rows: seq<Friendship>, nextId: nat)
      ensures this.rows == rows && this.nextId == nextId
    {
      this.rows := rows;
      this.nextId := nextId;
    }
  }

  /** A row from `a` to `b`, whatever its status. */
  predicate Links(r: Friendship, a: UserId, b: UserId) {
    r.userId == a && r.friendId == b
  }

  /** A pending request from `a` to `b`. */
  predicate PendingFrom(r: Friendship, a: UserId, b: UserId) {
    Links(r, a, b) && r.status == Pending
  }

  /** `a` and `b` are friends: an accepted row links them in either direction. */
  predicate AreFriends(rows: seq<Friendship>, a: UserId, b: UserId) {
    exists f :: f in rows && f.status == Accepted && (Links(f, a, b) || Links(f, b, a))
  }

  /** One end (`end`) of each row selected by `p`, in table order. */
  function Ends(rows: seq<Friendship>, p: Friendship -> bool, end: Friendship -> UserId): (r: seq<UserId>)
    ensures forall x :: x in r <==> exists f :: f in rows && p(f) && end(f) == x
  {
    var selected := Filter(rows, p);
    var r := seq(|selected|, i requires 0 <= i < |selected| => end(selected[i]));
    assert forall x :: x in r ==> exists f :: f in rows && p(f) && end(f) == x by {
      forall x | x in r ensures exists f :: f in rows && p(f) && end(f) == x {
        var i :| 0 <= i < |r| && r[i] == x;
        assert selected[i] in selected;
      }
    }
    assert forall f :: f in rows && p(f) ==> end(f) in r by {
      forall f | f in rows && p(f) ensures end(f) in r {
        assert f in selected;
        var i :| 0 <= i < |selected| && selected[i] == f;
        assert r[i] == end(f);
      }
    }
    r
  }

  /** The `friends` association: users `me` has a row to, of any status. */
  function Outgoing(rows: seq<Friendship>, me: UserId): (r: seq<UserId>)
    ensures forall x :: x in r <==> exists f :: f in rows && Links(f, me, x)
  {
    Ends(rows, (f: Friendship) => f.userId == me, (f: Friendship) => f.friendId)
  }

  /** The `addedBy` association: users with a row to `me`, of any status. */
  function Incoming(rows: seq<Friendship>, me: UserId): (r: seq<UserId>)
    ensures forall x :: x in r <==> exists f :: f in rows && Links(f, x, me)
  {
    Ends(rows, (f: Friendship) => f.friendId == me, (f: Friendship) => f.userId)
  }

  /** The push announcing a friend request. */
  function RequestPush(token: string, me: Requester): Push {
    Push(token, "New Friend Request", OrElse(me.displayName, "Someone") + " wants to be your friend",
         [("type", "FRIEND_REQUEST"), ("senderId", me.id)])
  }

  /** The push announcing an accepted request. */
  function AcceptPush(token: string, me: Requester): Push {
    Push(token, "Friend Request Accepted", OrElse(me.displayName, "User") + " accepted your friend request",
         [("type", "FRIEND_ACCEPT"), ("accepterId", me.id)])
  }

  /** `addFriend`. `users` is the user table; `pushFailure` is the error the
      push service throws, if it does. The new row is created before the
      push is attempted, so it stays when the push fails. */
  method AddFriend(friends: FriendTable, users: seq<User>, me: Requester, friendCode: Option<string>,
                   pushFailure: Option<string>) returns (reply: Envelope<Friendship>, push: Option<Push>)
    modifies friends
    ensures !Truthy(friendCode) ==>
      reply == Error("friendCode is required", Some(400)) && push.None?
      && friends.rows == old(friends.rows) && friends.nextId == old(friends.nextId)
    ensures Truthy(friendCode) && FindByCode(users, friendCode.value).None? ==>
      reply == Error("User not found", Some(404)) && push.None?
      && friends.rows == old(friends.rows) && friends.nextId == old(friends.nextId)
    ensures Truthy(friendCode) && FindByCode(users, friendCode.value).Some? ==>
      var them := users[FindByCode(users, friendCode.value).value];
      var existing := FindIndex(old(friends.rows), (f: Friendship) => Links(f, me.id, them.id));
      var row := Friendship(old(friends.nextId), me.id, them.id, Pending);
      var created := !(them.id == me.id) && !(existing.Some? && old(friends.rows)[existing.value].status != Blocked);
      && (them.id == me.id ==> reply == Error("You cannot add yourself as a friend", Some(400)))
      && (them.id != me.id && existing.Some? && old(friends.rows)[existing.value].status == Accepted ==>
            reply == Error("This user is already in your friend list", Some(400)))
      && (them.id != me.id && existing.Some? && old(friends.rows)[existing.value].status == Pending ==>
            reply == Error("Friend request already sent", Some(400)))
      && (!created ==> push.None? && friends.rows == old(friends.rows) && friends.nextId == old(friends.nextId))
      && (created ==>
            friends.rows == old(friends.rows) + [row] && friends.nextId == old(friends.nextId) + 1
            && push == (if Truthy(them.fcmToken) then Some(RequestPush(them.fcmToken.value, me)) else None)
            && reply == if push.Some? && pushFailure.Some? then Error(pushFailure.value, Some(500))
                        else Success("Friend request sent successfully", Some(row), Some(201)))
  {
    push := None;
    if !Truthy(friendCode) {
      return Error("friendCode is required", Some(400)), None;
    }
    var found := FindByCode(users, friendCode.value);
    if found.None? {
      return Error("User not found", Some(404)), None;
    }
    var them := users[found.value];
    if them.id == me.id {
      return Error("You cannot add yourself as a friend", Some(400)), None;
    }
    var existing := FindIndex(friends.rows, (f: Friendship) => Links(f, me.id, them.id));
    if existing.Some? {
      if friends.rows[existing.value].status == Accepted {
        return Error("This user is already in your friend list", Some(400)), None;
      } else if friends.rows[existing.value].status == Pending {
        return Error("Friend request already sent", Some(400)), None;
      }
    }
    var row := Friendship(friends.nextId, me.id, them.id, Pending);
    friends.rows := friends.rows + [row];
    friends.nextId := friends.nextId + 1;
    if Truthy(them.fcmToken) {
      push := Some(RequestPush(them.fcmToken.value, me));
      if pushFailure.Some? {
        return Error(pushFailure.value, Some(500)), push;
      }
    }
    reply := Success("Friend request sent successfully", Some(row), Some(201));
  }

  /** The rows after `me` accepts the pending request at position `k` from
      `them`: that row becomes accepted, then the first `me -> them` row (it
      may be the same row) becomes accepted, or one is appended with id
      `nextId`. */
  function AcceptRows(rows: seq<Friendship>, k: nat, nextId: nat, me: UserId, them: UserId): (r: seq<Friendship>)
    requires k < |rows|
    ensures |r| == |rows| || |r| == |rows| + 1
  {
    var updated := rows[k := rows[k].(status := Accepted)];
    match FindIndex(updated, (f: Friendship) => Links(f, me, them))
    case None => updated + [Friendship(nextId, me, them, Accepted)]
    case Some(j) => updated[j := updated[j].(status := Accepted)]
  }

  /** `acceptFriend`. `them` is the route's id of the user who sent the
      request. */
  method AcceptFriend(friends: FriendTable, users: seq<User>, me: Requester, them: UserId,
                      pushFailure: Option<string>) returns (reply: Envelope<Friendship>, push: Option<Push>)
    modifies friends
    ensures FindIndex(old(friends.rows), (f: Friendship) => PendingFrom(f, them, me.id)).None? ==>
      reply == Error("Friend request not found", Some(404)) && push.None?
      && friends.rows == old(friends.rows) && friends.nextId == old(friends.nextId)
    ensures FindIndex(old(friends.rows), (f: Friendship) => PendingFrom(f, them, me.id)).Some? ==>
      var k := FindIndex(old(friends.rows), (f: Friendship) => PendingFrom(f, them, me.id)).value;
      var sender := FindById(users, them);
      friends.rows == AcceptRows(old(friends.rows), k, old(friends.nextId), me.id, them)
      && friends.nextId == old(friends.nextId) + |friends.rows| - |old(friends.rows)|
      && push == (if sender.Some? && Truthy(users[sender.value].fcmToken)
                  then Some(AcceptPush(users[sender.value].fcmToken.value, me)) else None)
      && reply == if push.Some? && pushFailure.Some? then Error(pushFailure.value, Some(500))
                  else Success("Friend request accepted")
  {
    push := None;
    var request := FindIndex(friends.rows, (f: Friendship) => PendingFrom(f, them, me.id));
    if request.None? {
      return Error("Friend request not found", Some(404)), None;
    }
    var k := request.value;
    friends.rows := friends.rows[k := friends.rows[k].(status := Accepted)];
    var reverse := FindIndex(friends.rows, (f: Friendship) => Links(f, me.id, them));
    if reverse.None? {
      friends.rows := friends.rows + [Friendship(friends.nextId, me.id, them, Accepted)];
      friends.nextId := friends.nextId + 1;
    } else {
      var j := reverse.value;
      friends.rows := friends.rows[j := friends.rows[j].(status := Accepted)];
    }
    var sender := FindById(users, them);
    if sender.Some? && Truthy(users[sender.value].fcmToken) {
      push := Some(AcceptPush(users[sender.value].fcmToken.value, me));
      if pushFailure.Some? {
        return Error(pushFailure.value, Some(500)), push;
      }
    }
    reply := Success("Friend request accepted");
  }

  /** After an accept, the request row is accepted and an accepted row runs
      back from `me` to `them`, so the two are friends. */
  lemma AcceptMakesMutual(rows: seq<Friendship>, k: nat, nextId: nat, me: UserId, them: UserId)
    requires k < |rows| && PendingFrom(rows[k], them, me)
    ensures var r := AcceptRows(rows, k, nextId, me, them);
            (exists i :: 0 <= i < |r| && Links(r[i], them, me) && r[i].status == Accepted)
            && (exists j :: 0 <= j < |r| && Links(r[j], me, them) && r[j].status == Accepted)
            && AreFriends(r, me, them) && AreFriends(r, them, me)
  {
    var updated := rows[k := rows[k].(status := Accepted)];
    var r := AcceptRows(rows, k, nextId, me, them);
    match FindIndex(updated, (f: Friendship) => Links(f, me, them))
    case None =>
      assert r[k] == updated[k];
      assert r[|rows|] == Friendship(nextId, me, them, Accepted);
    case Some(j) =>
      assert r[j].status == Accepted && Links(r[j], me, them);
      if j != k {
        assert r[k] == updated[k];
      }
  }

  /** `rejectFriend`: deletes every pending request from `them` to `me`, and
      only those. */
  method RejectFriend(friends: FriendTable, me: UserId, them: UserId) returns (reply: Envelope<Friendship>)
    modifies friends`rows
    ensures friends.rows == Filter(old(friends.rows), (f: Friendship) => !PendingFrom(f, them, me))
    ensures forall f :: f in old(friends.rows) && !PendingFrom(f, them, me) ==> f in friends.rows
    ensures forall f :: f in friends.rows ==> !PendingFrom(f, them, me)
    ensures reply.success <==> exists f :: f in old(friends.rows) && PendingFrom(f, them, me)
    ensures reply == if reply.success then Success("Friend request rejected")
                     else Error("Friend request not found", Some(404))
  {
    var before := friends.rows;
    friends.rows := Filter(friends.rows, (f: Friendship) => !PendingFrom(f, them, me));
    var deleted := |before| - |friends.rows|;
    FilterSplit(before, (f: Friendship) => PendingFrom(f, them, me), (f: Friendship) => !PendingFrom(f, them, me));
    if deleted == 0 {
      NoneSelected(before, (f: Friendship) => PendingFrom(f, them, me));
      reply := Error("Friend request not found", Some(404));
    } else {
      var selected := Filter(before, (f: Friendship) => PendingFrom(f, them, me));
      assert selected[0] in selected;
      reply := Success("Friend request rejected");
    }
  }

  /** `removeFriend`: deletes every row between the two users, in both
      directions and whatever its status; it succeeds even when there was
      none. */
  method RemoveFriend(friends: FriendTable, me: UserId, them: UserId) returns (reply: Envelope<Friendship>)
    modifies friends`rows
    ensures friends.rows == Filter(Filter(old(friends.rows), (f: Friendship) => !Links(f, me, them)),
                                   (f: Friendship) => !Links(f, them, me))
    ensures forall f :: f in friends.rows <==> f in old(friends.rows) && !Links(f, me, them) && !Links(f, them, me)
    ensures !AreFriends(friends.rows, me, them)
    ensures them !in Outgoing(friends.rows, me) && them !in Incoming(friends.rows, me)
    ensures reply == Success("Friend removed successfully")
  {
    friends.rows := Filter(friends.rows, (f: Friendship) => !Links(f, me, them));
    friends.rows := Filter(friends.rows, (f: Friendship) => !Links(f, them, me));
    reply := Success("Friend removed successfully");
  }

  /** `getFriends`: users linked to `me` by an accepted row in either
      direction, each once, in order of first appearance. A requester with
      no user row makes the handler read a property of `null`. */
  function GetFriends(rows: seq<Friendship>, users: seq<User>, me: UserId): (r: Envelope<seq<UserId>>)
    ensures FindById(users, me).None? ==> r == Error(NullFriendsMessage, Some(500))
    ensures FindById(users, me).Some? ==> r.success && r.data.Some?
    ensures r.success ==> NoDups(r.data.value)
    ensures r.success ==> forall x :: x in r.data.value <==> AreFriends(rows, me, x)
  {
    if FindById(users, me).None? then Error(NullFriendsMessage, Some(500))
    else
      var ids := Dedup(Ends(rows, (f: Friendship) => f.userId == me && f.status == Accepted, (f: Friendship) => f.friendId)
                       + Ends(rows, (f: Friendship) => f.friendId == me && f.status == Accepted, (f: Friendship) => f.userId));
      Success("Friends retrieved successfully", Some(ids))
  }

  /** A request from `them` makes `them` appear among `me`'s linked users
      (the lists the presence notices and the status feed read) while it
      is still pending, without making the two friends. */
  lemma PendingRequestLinks(rows: seq<Friendship>, nextId: nat, me: UserId, them: UserId)
    ensures var r := rows + [Friendship(nextId, them, me, Pending)];
            them in Incoming(r, me) && me in Outgoing(r, them)
            && (AreFriends(r, me, them) <==> AreFriends(rows, me, them))
  {
    var r := rows + [Friendship(nextId, them, me, Pending)];
    assert r[|rows|] in r;
  }
}
