/** The call-log handlers (src/controllers/callController.js): UUID
    validation, logging a call with its defaults and push, the partial
    update, and the history query. */
module CallController {
  import opened Common
  import opened Users
  import opened ResponseHelper

  /** A row of the Call table; times are millisecond timestamps. */
  datatype CallRecord = CallRecord(id: string, callerId: UserId, receiverId: UserId, callType: string,
                                   status: string, duration: int, startTime: int, endTime: Option<int>,
                                   createdAt: int)

  class CallTable {
    var rows: seq<CallRecord>

    constructor (rows: seq<CallRecord>)
      ensures this.rows == rows
    {
      this.rows := rows;
    }
  }

  /** `[0-9a-f]` under the `i` flag. */
  predicate IsHex(c: char) {
    ('0' <= c <= '9') || ('a' <= c <= 'f') || ('A' <= c <= 'F')
  }

  predicate AllHex(s: string) {
    forall i :: 0 <= i < |s| ==> IsHex(s[i])
  }

  /** The hyphen positions of the canonical textual form. */
  predicate HyphenAt(i: int) {
    i == 8 || i == 13 || i == 18 || i == 23
  }

  /** The canonical form stated position by position: 36 characters,
      hyphens at 8, 13, 18 and 23, hexadecimal digits elsewhere. */
  predicate UuidShape(s: string) {
    |s| == 36 && forall i :: 0 <= i < 36 ==> if HyphenAt(i) then s[i] == '-' else IsHex(s[i])
  }

  /** Matches hex groups of the given lengths separated by single hyphens,
      anchored at both ends. */
  function MatchGroups(s: string, lengths: seq<nat>): bool
    decreases lengths
  {
    if lengths == [] then s == []
    else
      var n := lengths[0];
      n <= |s| && AllHex(s[..n])
      && if |lengths| == 1 then |s| == n
         else n < |s| && s[n] == '-' && MatchGroups(s[n + 1..], lengths[1..])
  }

  /** `isValidUUID`: the anchored, case-insensitive 8-4-4-4-12 pattern. */
  function IsValidUUID(s: string): (r: bool)
    ensures r <==> UuidShape(s)
  {
    UuidGroups(s);
    MatchGroups(s, [8, 4, 4, 4, 12])
  }

  lemma UuidGroups(s: string)
    ensures MatchGroups(s, [8, 4, 4, 4, 12]) <==> UuidShape(s)
  {
    if |s| == 36 {
      assert MatchGroups(s, [8, 4, 4, 4, 12]) <==>
        AllHex(s[..8]) && s[8] == '-' && MatchGroups(s[9..], [4, 4, 4, 12]);
      assert MatchGroups(s[9..], [4, 4, 4, 12]) <==>
        AllHex(s[9..13]) && s[13] == '-' && MatchGroups(s[14..], [4, 4, 12]) by {
        assert s[9..][..4] == s[9..13] && s[9..][5..] == s[14..];
      }
      assert MatchGroups(s[14..], [4, 4, 12]) <==>
        AllHex(s[14..18]) && s[18] == '-' && MatchGroups(s[19..], [4, 12]) by {
        assert s[14..][..4] == s[14..18] && s[14..][5..] == s[19..];
      }
      assert MatchGroups(s[19..], [4, 12]) <==>
        AllHex(s[19..23]) && s[23] == '-' && MatchGroups(s[24..], [12]) by {
        assert s[19..][..4] == s[19..23] && s[19..][5..] == s[24..];
      }
      assert MatchGroups(s[24..], [12]) <==> AllHex(s[24..]);
      assert UuidShape(s) <==>
        AllHex(s[..8]) && s[8] == '-' && AllHex(s[9..13]) && s[13] == '-' && AllHex(s[14..18])
        && s[18] == '-' && AllHex(s[19..23]) && s[23] == '-' && AllHex(s[24..]) by {
        if AllHex(s[..8]) && s[8] == '-' && AllHex(s[9..13]) && s[13] == '-' && AllHex(s[14..18])
           && s[18] == '-' && AllHex(s[19..23]) && s[23] == '-' && AllHex(s[24..]) {
          forall i | 0 <= i < 36 ensures if HyphenAt(i) then s[i] == '-' else IsHex(s[i]) {
            if i < 8 { assert s[..8][i] == s[i]; }
            else if 8 < i < 13 { assert s[9..13][i - 9] == s[i]; }
            else if 13 < i < 18 { assert s[14..18][i - 14] == s[i]; }
            else if 18 < i < 23 { assert s[19..23][i - 19] == s[i]; }
            else if 23 < i { assert s[24..][i - 24] == s[i]; }
          }
        }
      }
    } else {
      LengthOfMatch(s, [8, 4, 4, 4, 12]);
    }
  }

  /** The sum of the group lengths plus one hyphen between each pair. */
  function PatternLength(lengths: seq<nat>): nat {
    if lengths == [] then 0
    else if |lengths| == 1 then lengths[0]
    else lengths[0] + 1 + PatternLength(lengths[1..])
  }

  lemma {:induction false} LengthOfMatch(s: string, lengths: seq<nat>)
    requires lengths != []
    ensures MatchGroups(s, lengths) ==> |s| == PatternLength(lengths)
    decreases lengths
  {
    if |lengths| > 1 && MatchGroups(s, lengths) {
      LengthOfMatch(s[lengths[0] + 1..], lengths[1..]);
    }
  }

  /** The push that rings the receiver. */
  function CallPush(token: string, callId: string, me: Requester, callType: Option<string>): Push {
    Push(token, "Incoming " + OrElse(callType, "audio") + " call",
         OrElse(me.displayName, "Someone") + " is calling you...",
         [("type", "CALL"), ("callId", callId), ("callerId", me.id),
          ("callerName", OrElse(me.displayName, "Someone")), ("callType", OrElse(callType, "audio"))])
  }

  /** `logCall`. `newId` is the id the store assigns, `now` the clock; the
      push is attempted only for a receiver with a token, and its failure is
      swallowed. */
  method LogCall(table: CallTable, users: seq<User>, me: Requester, receiverId: Option<string>,
                 callType: Option<string>, status: Option<string>, duration: Option<int>,
                 startTime: Option<int>, endTime: Option<int>, newId: string, now: int,
                 pushFailure: Option<string>) returns (reply: Envelope<CallRecord>, push: Option<Push>)
    modifies table
    ensures !Truthy(receiverId) ==>
      reply == Error("receiverId is required", Some(400)) && push.None? && table.rows == old(table.rows)
    ensures Truthy(receiverId) && !UuidShape(receiverId.value) ==>
      reply == Error("Invalid receiverId format. Expected UUID, got: " + receiverId.value, Some(400))
      && push.None? && table.rows == old(table.rows)
    ensures Truthy(receiverId) && UuidShape(receiverId.value) ==>
      var call := CallRecord(newId, me.id, receiverId.value,
                             if Truthy(callType) then callType.value else "audio",
                             if Truthy(status) then status.value else "missed",
                             if TruthyInt(duration) then duration.value else 0,
                             if TruthyInt(startTime) then startTime.value else now,
                             endTime, now);
      var receiver := FindById(users, receiverId.value);
      table.rows == old(table.rows) + [call]
      && reply == Success("Call logged successfully", Some(call), Some(201))
      && push == if receiver.Some? && Truthy(users[receiver.value].fcmToken)
                 then Some(CallPush(users[receiver.value].fcmToken.value, newId, me, callType)) else None
  {
    push := None;
    if !Truthy(receiverId) {
      return Error("receiverId is required", Some(400)), None;
    }
    if !IsValidUUID(receiverId.value) {
      return Error("Invalid receiverId format. Expected UUID, got: " + receiverId.value, Some(400)), None;
    }
    var call := CallRecord(newId, me.id, receiverId.value, OrElse(callType, "audio"), OrElse(status, "missed"),
                           if TruthyInt(duration) then duration.value else 0,
                           if TruthyInt(startTime) then startTime.value else now, endTime, now);
    table.rows := table.rows + [call];
    var receiver := FindById(users, receiverId.value);
    if receiver.Some? && Truthy(users[receiver.value].fcmToken) {
      push := Some(CallPush(users[receiver.value].fcmToken.value, newId, me, callType));
    }
    reply := Success("Call logged successfully", Some(call), Some(201));
  }

  /** The record after `updateCall`: each field is overwritten only by a
      truthy value, so a zero duration or end time is ignored. */
  function CallUpdated(c: CallRecord, status: Option<string>, duration: Option<int>, endTime: Option<int>): (r: CallRecord)
    ensures r.status == if Truthy(status) then status.value else c.status
    ensures r.duration == if TruthyInt(duration) then duration.value else c.duration
    ensures r.endTime == if TruthyInt(endTime) then endTime else c.endTime
    ensures r.(status := c.status, duration := c.duration, endTime := c.endTime) == c
  {
    var c1 := if Truthy(status) then c.(status := status.value) else c;
    var c2 := if TruthyInt(duration) then c1.(duration := duration.value) else c1;
    if TruthyInt(endTime) then c2.(endTime := endTime) else c2
  }

  /** `updateCall`. */
  method UpdateCall(table: CallTable, id: string, status: Option<string>, duration: Option<int>, endTime: Option<int>)
    returns (reply: Envelope<CallRecord>)
    modifies table
    ensures FindIndex(old(table.rows), (c: CallRecord) => c.id == id).None? ==>
      reply == Error("Call record not found", Some(404)) && table.rows == old(table.rows)
    ensures FindIndex(old(table.rows), (c: CallRecord) => c.id == id).Some? ==>
      var k := FindIndex(old(table.rows), (c: CallRecord) => c.id == id).value;
      var c := CallUpdated(old(table.rows)[k], status, duration, endTime);
      table.rows == old(table.rows)[k := c] && reply == Success("Call updated successfully", Some(c))
  {
    var found := FindIndex(table.rows, (c: CallRecord) => c.id == id);
    if found.None? {
      return Error("Call record not found", Some(404));
    }
    var k := found.value;
    var call := table.rows[k];
    if Truthy(status) {
      call := call.(status := status.value);
    }
    if TruthyInt(duration) {
      call := call.(duration := duration.value);
    }
    if TruthyInt(endTime) {
      call := call.(endTime := endTime);
    }
    table.rows := table.rows[k := call];
    reply := Success("Call updated successfully", Some(call));
  }

  /** A duration of zero cannot be recorded by an update, and an update with
      no truthy field leaves the record as it was. */
  lemma ZeroDurationIgnored(c: CallRecord, status: Option<string>, endTime: Option<int>)
    ensures CallUpdated(c, status, Some(0), endTime).duration == c.duration
    ensures !Truthy(status) && !TruthyInt(endTime) ==> CallUpdated(c, status, Some(0), endTime) == c
  {
  }

  /** `getCallHistory`: the calls the requester made or received, newest
      first. */
  function GetCallHistory(rows: seq<CallRecord>, me: UserId): (r: seq<CallRecord>)
    ensures forall c :: c in r <==> c in rows && (c.callerId == me || c.receiverId == me)
    ensures multiset(r) == multiset(Filter(rows, (c: CallRecord) => c.callerId == me || c.receiverId == me))
    ensures SortedDesc(r, (c: CallRecord) => c.createdAt)
  {
    var mine := Filter(rows, (c: CallRecord) => c.callerId == me || c.receiverId == me);
    var r := SortDesc(mine, (c: CallRecord) => c.createdAt);
    r
  }
}
