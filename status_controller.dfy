/** The 24-hour status handlers (src/controllers/statusController.js):
    posting, the feed of live statuses from the requester and every user
    linked to them by a Friend row, grouped by owner, and deletion. */
module StatusController {
  import opened Common
  import opened Users
  import opened ResponseHelper
  import opened FriendController

  /** A status lives for 24 hours. */
  const Lifetime: int := 24 * 60 * 60 * 1000

  /** A row of the Status table. `kind` is the `type` column. */
  datatype Story = Story(id: string, userId: UserId, content: string, kind: string, expiresAt: int, createdAt: int)

  class StatusTable {
    var rows: seq<Story>

    constructor (rows: seq<Story>)
      ensures this.rows == rows
    {
      this.rows := rows;
    }
  }

  /** One entry of the grouped feed: an owner and their stories. */
  datatype Group = Group(owner: UserId, stories: seq<Story>)

  /** `postStatus`. `newId` is the id the store assigns and `now` the clock. */
  method PostStatus(table: StatusTable, me: UserId, content: Option<string>, kind: Option<string>,
                    newId: string, now: int) returns (reply: Envelope<Story>)
    modifies table
    ensures !Truthy(content) ==> reply == Error("Content is required", Some(400)) && table.rows == old(table.rows)
    ensures Truthy(content) ==>
      var story := Story(newId, me, content.value, if Truthy(kind) then kind.value else "text", now + Lifetime, now);
      table.rows == old(table.rows) + [story]
      && reply == Success("Status posted successfully", Some(story), Some(201))
  {
    if !Truthy(content) {
      return Error("Content is required", Some(400));
    }
    var story := Story(newId, me, content.value, OrElse(kind, "text"), now + Lifetime, now);
    table.rows := table.rows + [story];
    reply := Success("Status posted successfully", Some(story), Some(201));
  }

  /** The owners whose statuses `me` may see: `me` first, then every user
      linked to `me` by a Friend row of any status, each once. */
  function VisibleIds(friendRows: seq<Friendship>, me: UserId): (r: seq<UserId>)
    ensures |r| >= 1 && r[0] == me
    ensures NoDups(r[1..])
    ensures forall x :: x in r <==> x == me || x in Outgoing(friendRows, me) || x in Incoming(friendRows, me)
  {
    var r := [me] + Dedup(Outgoing(friendRows, me) + Incoming(friendRows, me));
    assert r[1..] == Dedup(Outgoing(friendRows, me) + Incoming(friendRows, me));
    r
  }

  /** The live statuses of visible owners, newest first. */
  function Feed(stories: seq<Story>, visible: seq<UserId>, now: int): (r: seq<Story>)
    ensures forall s :: s in r <==> s in stories && s.expiresAt > now && s.userId in visible
    ensures multiset(r) == multiset(Filter(stories, (s: Story) => s.expiresAt > now && s.userId in visible))
    ensures SortedDesc(r, (s: Story) => s.createdAt)
  {
    var live := Filter(stories, (s: Story) => s.expiresAt > now && s.userId in visible);
    var r := SortDesc(live, (s: Story) => s.createdAt);
    r
  }

  function Owners(stories: seq<Story>): (r: seq<UserId>)
    ensures |r| == |stories|
    ensures forall i :: 0 <= i < |stories| ==> r[i] == stories[i].userId
  {
    seq(|stories|, i requires 0 <= i < |stories| => stories[i].userId)
  }

  /** `keys` and `acc` are the grouping of `prefix`: the owners in order of
      first story, and each owner's stories. */
  ghost predicate GroupsOf(prefix: seq<Story>, keys: seq<UserId>, acc: map<UserId, seq<Story>>) {
    && keys == Dedup(Owners(prefix))
    && (forall u :: u in acc <==> u in keys)
    && forall u :: u in acc ==> acc[u] == Filter(prefix, (s: Story) => s.userId == u) && acc[u] != []
  }

  lemma OwnersAppend(prefix: seq<Story>, s: Story)
    ensures Owners(prefix + [s]) == Owners(prefix) + [s.userId]
  {
  }

  /** An owner not yet seen has no stories in the prefix. */
  lemma UnseenOwner(prefix: seq<Story>, u: UserId)
    requires u !in Owners(prefix)
    ensures Filter(prefix, (t: Story) => t.userId == u) == []
  {
    var p := (t: Story) => t.userId == u;
    forall t | t in prefix ensures !p(t) {
      var j :| 0 <= j < |prefix| && prefix[j] == t;
      assert Owners(prefix)[j] == t.userId;
    }
    if Filter(prefix, p) != [] {
      assert Filter(prefix, p)[0] in Filter(prefix, p);
    }
  }

  /** The other owners' groups are not touched by a story of `s.userId`. */
  lemma OtherOwnersKept(prefix: seq<Story>, s: Story, acc: map<UserId, seq<Story>>)
    requires forall u :: u in acc ==> acc[u] == Filter(prefix, (t: Story) => t.userId == u) && acc[u] != []
    ensures forall u :: u in acc && u != s.userId ==>
              acc[u] == Filter(prefix + [s], (t: Story) => t.userId == u)
  {
    forall u | u in acc && u != s.userId
      ensures acc[u] == Filter(prefix + [s], (t: Story) => t.userId == u)
    {
      FilterAppend(prefix, s, (t: Story) => t.userId == u);
    }
  }

  /** `Dedup` extended by one element. */
  lemma DedupAppend(xs: seq<UserId>, x: UserId)
    ensures Dedup(xs + [x]) == if x in Dedup(xs) then Dedup(xs) else Dedup(xs) + [x]
  {
    assert (xs + [x])[..|xs|] == xs;
  }

  /** The reducer's step for an owner seen for the first time. */
  lemma NewOwnerStep(prefix: seq<Story>, s: Story, keys: seq<UserId>, acc: map<UserId, seq<Story>>)
    requires GroupsOf(prefix, keys, acc) && s.userId !in acc
    ensures GroupsOf(prefix + [s], keys + [s.userId], acc[s.userId := [s]])
  {
    OwnersAppend(prefix, s);
    DedupAppend(Owners(prefix), s.userId);
    FilterAppend(prefix, s, (t: Story) => t.userId == s.userId);
    OtherOwnersKept(prefix, s, acc);
    UnseenOwner(prefix, s.userId);
  }

  /** The reducer's step for an owner already grouped. */
  lemma KnownOwnerStep(prefix: seq<Story>, s: Story, keys: seq<UserId>, acc: map<UserId, seq<Story>>)
    requires GroupsOf(prefix, keys, acc) && s.userId in acc
    ensures GroupsOf(prefix + [s], keys, acc[s.userId := acc[s.userId] + [s]])
  {
    var next := acc[s.userId := acc[s.userId] + [s]];
    OwnersAppend(prefix, s);
    assert s.userId in keys;
    DedupAppend(Owners(prefix), s.userId);
    assert keys == Dedup(Owners(prefix + [s]));
    FilterAppend(prefix, s, (t: Story) => t.userId == s.userId);
    assert next[s.userId] == Filter(prefix + [s], (t: Story) => t.userId == s.userId);
    OtherOwnersKept(prefix, s, acc);
    assert forall u :: u in next <==> u in keys;
  }

  /** The grouping `reduce`: one group per owner, in order of the owner's
      first story; each group holds that owner's stories in their order.
      The accumulator is an object keyed by user id; ids are UUIDs, never
      array-index keys, so its values come back in insertion order. */
  method GroupStatuses(stories: seq<Story>) returns (groups: seq<Group>)
    ensures |groups| <= |stories|
    ensures seq(|groups|, k requires 0 <= k < |groups| => groups[k].owner) == Dedup(Owners(stories))
    ensures forall k :: 0 <= k < |groups| ==>
              groups[k].stories == Filter(stories, (s: Story) => s.userId == groups[k].owner)
              && groups[k].stories != []
  {
    var keys: seq<UserId> := [];
    var acc: map<UserId, seq<Story>> := map[];
    for i := 0 to |stories|
      invariant GroupsOf(stories[..i], keys, acc)
    {
      var s := stories[i];
      assert stories[..i + 1] == stories[..i] + [s];
      if s.userId !in acc {
        NewOwnerStep(stories[..i], s, keys, acc);
        keys := keys + [s.userId];
        acc := acc[s.userId := [s]];
      } else {
        KnownOwnerStep(stories[..i], s, keys, acc);
        acc := acc[s.userId := acc[s.userId] + [s]];
      }
    }
    assert stories[..|stories|] == stories;
    groups := seq(|keys|, k requires 0 <= k < |keys| => Group(keys[k], acc[keys[k]]));
    assert seq(|groups|, k requires 0 <= k < |groups| => groups[k].owner) == keys;
  }

  /** `getStatuses`. `friendRows` is the Friend table and `users` the user
      table. */
  method GetStatuses(stories: seq<Story>, friendRows: seq<Friendship>, users: seq<User>, me: UserId, now: int)
    returns (reply: Envelope<seq<Group>>)
    ensures FindById(users, me).None? ==> reply == Error(NullFriendsMessage, Some(500))
    ensures FindById(users, me).Some? ==> reply.success && reply.data.Some?
    ensures reply.success ==>
      var feed := Feed(stories, VisibleIds(friendRows, me), now);
      seq(|reply.data.value|, k requires 0 <= k < |reply.data.value| => reply.data.value[k].owner) == Dedup(Owners(feed))
      && forall k :: 0 <= k < |reply.data.value| ==>
           reply.data.value[k].stories == Filter(feed, (s: Story) => s.userId == reply.data.value[k].owner)
  {
    if FindById(users, me).None? {
      return Error(NullFriendsMessage, Some(500));
    }
    var feed := Feed(stories, VisibleIds(friendRows, me), now);
    var groups := GroupStatuses(feed);
    reply := Success("Statuses retrieved successfully", Some(groups));
  }

  /** A status stays in its owner's own feed until it expires. */
  lemma OwnStatusVisible(stories: seq<Story>, friendRows: seq<Friendship>, story: Story, now: int)
    requires story in stories
    ensures story in Feed(stories, VisibleIds(friendRows, story.userId), now) <==> now < story.expiresAt
  {
  }

  /** `deleteStatus`: only the owner's own status with this id goes; any
      other request is answered 404 and changes nothing. */
  method DeleteStatus(table: StatusTable, me: UserId, id: string) returns (reply: Envelope<Story>)
    modifies table
    ensures FindIndex(old(table.rows), (s: Story) => s.id == id && s.userId == me).None? ==>
      reply == Error("Status not found or unauthorized", Some(404)) && table.rows == old(table.rows)
    ensures FindIndex(old(table.rows), (s: Story) => s.id == id && s.userId == me).Some? ==>
      var k := FindIndex(old(table.rows), (s: Story) => s.id == id && s.userId == me).value;
      table.rows == old(table.rows)[..k] + old(table.rows)[k + 1..]
      && old(table.rows)[k].userId == me
      && multiset(table.rows) == multiset(old(table.rows)) - multiset{old(table.rows)[k]}
      && reply == Success("Status deleted successfully")
    ensures forall s :: s in old(table.rows) && s.userId != me ==> s in table.rows
  {
    var found := FindIndex(table.rows, (s: Story) => s.id == id && s.userId == me);
    if found.None? {
      return Error("Status not found or unauthorized", Some(404));
    }
    var k := found.value;
    var before := table.rows;
    table.rows := before[..k] + before[k + 1..];
    assert before == before[..k] + [before[k]] + before[k + 1..];
    forall s | s in before && s.userId != me ensures s in table.rows {
      var j :| 0 <= j < |before| && before[j] == s;
      if j < k { assert table.rows[j] == s; } else { assert table.rows[j - 1] == s; }
    }
    reply := Success("Status deleted successfully");
  }
}
