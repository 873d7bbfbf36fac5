/** The real-time layer of src/app.js: the registry from user id to socket id
    (`userSocketMap`), presence notices to a user's friends, conversation
    rooms, and the WebRTC signalling relay. Each handler runs to completion
    as one step; the friend lists it awaits from the database are passed in. */
module SocketLayer {
  import opened Common
  import opened SocketEvents

  /** One connection. `userId` is set by `register-user` and never cleared. */
  class Socket {
    const id: string
    var userId: Option<string>

    constructor (id: string)
      ensures this.id == id && userId.None?
    {
      this.id := id;
      userId := None;
    }
  }

  /** The `friends` and `addedBy` ids the database returns for a user: every
      Friend row from or to that user, whatever its status. */
  datatype FriendIds = FriendIds(friends: seq<UserId>, addedBy: seq<UserId>)
  {
    /** `[...friends, ...addedBy]`, with no deduplication. */
    function All(): seq<UserId> { friends + addedBy }
  }

  /** The `data` object of a signalling event. An absent `data` behaves as one
      whose `to` is missing. */
  datatype SignalData = SignalData(to: Option<string>, offer: Option<Json>, answer: Option<Json>,
                                   candidate: Option<Json>, callerName: Option<string>, kind: Option<string>)

  /** The five signalling events a client may send. */
  datatype Signal = CallUserSignal | AnswerSignal | IceSignal | RejectSignal | EndSignal

  /** The event the relay forwards for each signal. */
  function ForwardedEvent(signal: Signal): string {
    match signal
    case CallUserSignal => "call-made"
    case AnswerSignal => "answer-made"
    case IceSignal => "ice-candidate"
    case RejectSignal => "call-rejected"
    case EndSignal => "call-ended"
  }

  /** `data.to` is present and the registry holds a socket for it. */
  predicate Reachable(registry: map<UserId, string>, to: Option<string>) {
    Truthy(to) && to.value in registry
  }

  /** What one signalling handler emits. `sender` is the socket the event came
      in on and `from` that socket's `userId`. */
  function Relay(registry: map<UserId, string>, sender: string, from: Option<string>,
                 signal: Signal, data: SignalData): (r: seq<Emission>)
    // call-user always answers with exactly one event; the others emit at most one
    ensures signal == CallUserSignal ==> |r| == 1
    ensures signal != CallUserSignal ==> (|r| == 1 <==> Reachable(registry, data.to)) && |r| <= 1
    // a reachable target receives the forwarded event, stamped with the sender's registered id
    ensures Reachable(registry, data.to) ==>
              |r| == 1 && r[0].target == ToSocket(registry[data.to.value]) &&
              r[0].event == ForwardedEvent(signal) &&
              r[0].payload.Relayed() && r[0].payload.from == from
    // call-user's two errors go back to the sender
    ensures signal == CallUserSignal && !Truthy(data.to) ==>
              r == [Emission(ToSocket(sender), "call-error", CallError("Recipient ID required"))]
    ensures signal == CallUserSignal && Truthy(data.to) && data.to.value !in registry ==>
              r == [Emission(ToSocket(sender), "call-error", CallError("User is offline"))]
    // defaults of the forwarded call offer
    ensures signal == CallUserSignal && Reachable(registry, data.to) ==>
              r[0].payload == CallMade(data.offer, from, OrElse(data.callerName, "Unknown"), OrElse(data.kind, "audio"))
    ensures signal == AnswerSignal && Reachable(registry, data.to) ==> r[0].payload == AnswerMade(data.answer, from)
    ensures signal == IceSignal && Reachable(registry, data.to) ==> r[0].payload == IceRelay(data.candidate, from)
    ensures signal == RejectSignal && Reachable(registry, data.to) ==> r[0].payload == CallRejected(from)
    ensures signal == EndSignal && Reachable(registry, data.to) ==> r[0].payload == CallEnded(from)
  {
    if !Truthy(data.to) then
      if signal == CallUserSignal
      then [Emission(ToSocket(sender), "call-error", CallError("Recipient ID required"))]
      else []
    else if data.to.value !in registry then
      if signal == CallUserSignal
      then [Emission(ToSocket(sender), "call-error", CallError("User is offline"))]
      else []
    else
      var target := ToSocket(registry[data.to.value]);
      var payload := match signal
        case CallUserSignal => CallMade(data.offer, from, OrElse(data.callerName, "Unknown"), OrElse(data.kind, "audio"))
        case AnswerSignal => AnswerMade(data.answer, from)
        case IceSignal => IceRelay(data.candidate, from)
        case RejectSignal => CallRejected(from)
        case EndSignal => CallEnded(from);
      [Emission(target, ForwardedEvent(signal), payload)]
  }

  /** Every relayed event carries the sender socket's own id as `from`, and
      every event of the relay goes either to the target's socket or, for
      call-user's errors, back to the sender. */
  lemma RelayOnlyToTargetOrSender(registry: map<UserId, string>, sender: string, from: Option<string>,
                                  signal: Signal, data: SignalData, e: Emission)
    requires e in Relay(registry, sender, from, signal, data)
    ensures e.payload.Relayed() ==> e.payload.from == from
    ensures e.payload.Relayed() <==> Reachable(registry, data.to)
    ensures Reachable(registry, data.to) ==> e.target == ToSocket(registry[data.to.value])
    ensures !Reachable(registry, data.to) ==> signal == CallUserSignal && e.target == ToSocket(sender) && e.event == "call-error"
  {
  }

  /** The friend ids, in list order and with repetitions, that have a socket. */
  function Registered(registry: map<UserId, string>, ids: seq<UserId>): (r: seq<UserId>)
    ensures forall f :: f in r ==> f in registry && f in ids
  {
    if ids == [] then []
    else
      var f := ids[|ids| - 1];
      Registered(registry, ids[..|ids| - 1]) + (if f in registry then [f] else [])
  }

  /** Each listed occurrence of a registered friend is kept once; friends
      without a socket are dropped. */
  lemma {:induction false} RegisteredCount(registry: map<UserId, string>, ids: seq<UserId>, f: UserId)
    ensures multiset(Registered(registry, ids))[f] == if f in registry then multiset(ids)[f] else 0
  {
    if ids != [] {
      var init := ids[..|ids| - 1];
      RegisteredCount(registry, init, f);
      assert ids == init + [ids[|ids| - 1]];
    }
  }

  /** The presence notices of `register-user`: for each listed friend id with a
      socket, `user-online {me}` to the friend, then `user-online {friend}`
      back to the registering socket. */
  function OnlineNotices(registry: map<UserId, string>, me: UserId, mySocket: string, ids: seq<UserId>): seq<Emission>
  {
    if ids == [] then []
    else
      var f := ids[|ids| - 1];
      OnlineNotices(registry, me, mySocket, ids[..|ids| - 1]) +
      (if f in registry
       then [Emission(ToSocket(registry[f]), "user-online", UserStatus(me)),
             Emission(ToSocket(mySocket), "user-online", UserStatus(f))]
       else [])
  }

  /** The online notices come in pairs, one pair per registered occurrence. */
  lemma {:induction false} OnlineNoticesPairs(registry: map<UserId, string>, me: UserId, mySocket: string, ids: seq<UserId>)
    ensures var reg := Registered(registry, ids);
            var notices := OnlineNotices(registry, me, mySocket, ids);
            |notices| == 2 * |reg| &&
            forall j :: 0 <= j < |reg| ==>
              notices[2 * j] == Emission(ToSocket(registry[reg[j]]), "user-online", UserStatus(me)) &&
              notices[2 * j + 1] == Emission(ToSocket(mySocket), "user-online", UserStatus(reg[j]))
  {
    if ids != [] {
      OnlineNoticesPairs(registry, me, mySocket, ids[..|ids| - 1]);
    }
  }

  /** The presence notices of `disconnect`: `user-offline {me}` to each listed
      friend id that still has a socket. */
  function OfflineNotices(registry: map<UserId, string>, me: UserId, ids: seq<UserId>): seq<Emission>
  {
    if ids == [] then []
    else
      var f := ids[|ids| - 1];
      OfflineNotices(registry, me, ids[..|ids| - 1]) +
      (if f in registry then [Emission(ToSocket(registry[f]), "user-offline", UserStatus(me))] else [])
  }

  /** One offline notice per registered occurrence, each to that friend's socket. */
  lemma {:induction false} OfflineNoticesEach(registry: map<UserId, string>, me: UserId, ids: seq<UserId>)
    ensures var reg := Registered(registry, ids);
            var notices := OfflineNotices(registry, me, ids);
            |notices| == |reg| &&
            forall j :: 0 <= j < |reg| ==>
              notices[j] == Emission(ToSocket(registry[reg[j]]), "user-offline", UserStatus(me))
  {
    if ids != [] {
      OfflineNoticesEach(registry, me, ids[..|ids| - 1]);
    }
  }

  /** After its own entry is deleted, a departing user is not notified under
      its own id, and its socket gets nothing unless another registry entry
      still names it. */
  lemma OfflineNoticesSkipDeparted(registry: map<UserId, string>, me: UserId, departed: string, ids: seq<UserId>)
    requires forall u :: u in registry && u != me ==> registry[u] != departed
    ensures forall e :: e in OfflineNotices(registry - {me}, me, ids) ==> e.target != ToSocket(departed)
  {
    var after := registry - {me};
    OfflineNoticesEach(after, me, ids);
    var reg := Registered(after, ids);
    forall e | e in OfflineNotices(after, me, ids) ensures e.target != ToSocket(departed) {
      var j :| 0 <= j < |OfflineNotices(after, me, ids)| && OfflineNotices(after, me, ids)[j] == e;
      assert reg[j] in after;
    }
  }

  /** The process-wide socket state. */
  class Server {
    /** `userSocketMap`: user id to the socket that last registered it. */
    var registry: map<UserId, string>
    /** Room membership as (socket id, room) pairs. */
    var memberships: set<(string, string)>
    /** Every event emitted so far, in order. */
    var outbox: seq<Emission>

    constructor ()
      ensures registry == map[] && memberships == {} && outbox == []
    {
      registry := map[];
      memberships := {};
      outbox := [];
    }

    /** The sockets a broadcast to `room` reaches. */
    function RoomMembers(room: string): set<string>
      reads this
    {
      set m | m in memberships && m.1 == room :: m.0
    }

    /** `userSocketMap.get(userId)` */
    function Resolve(userId: UserId): (r: Option<string>)
      reads this
      ensures r.Some? <==> userId in registry
      ensures r.Some? ==> r.value == registry[userId]
    {
      if userId in registry then Some(registry[userId]) else None
    }

    /** `register-user`: a truthy id overwrites that user's entry with this
        socket and stamps the socket; then every listed friend with a socket
        and this socket learn of each other. A falsy id does nothing. */
    method RegisterUser(socket: Socket, userId: Option<string>, graph: Option<FriendIds>)
      modifies this`registry, this`outbox, socket`userId
      ensures !Truthy(userId) ==>
                registry == old(registry) && outbox == old(outbox) && socket.userId == old(socket.userId)
      ensures Truthy(userId) ==>
                registry == old(registry)[userId.value := socket.id] && socket.userId == userId
      ensures Truthy(userId) ==>
                outbox == old(outbox) + (if graph.Some? then OnlineNotices(registry, userId.value, socket.id, graph.value.All()) else [])
    {
      if Truthy(userId) {
        var me := userId.value;
        registry := registry[me := socket.id];
        socket.userId := Some(me);
        if graph.Some? {
          var all := graph.value.All();
          var i := 0;
          while i < |all|
            modifies this`outbox
            invariant 0 <= i <= |all|
            invariant outbox == old(outbox) + OnlineNotices(registry, me, socket.id, all[..i])
          {
            var friendId := all[i];
            assert all[..i + 1][..i] == all[..i];
            if friendId in registry {
              outbox := outbox + [Emission(ToSocket(registry[friendId]), "user-online", UserStatus(me))];
              outbox := outbox + [Emission(ToSocket(socket.id), "user-online", UserStatus(friendId))];
            }
            i := i + 1;
          }
          assert all[..|all|] == all;
        }
      }
    }

    /** `join_conversation`: the socket enters the room named by the id. */
    method JoinConversation(socket: Socket, conversationId: string)
      modifies this`memberships
      ensures memberships == old(memberships) + {(socket.id, conversationId)}
      ensures RoomMembers(conversationId) == old(RoomMembers(conversationId)) + {socket.id}
    {
      memberships := memberships + {(socket.id, conversationId)};
    }

    /** `leave_conversation`: the socket leaves the room; a no-op for a non-member. */
    method LeaveConversation(socket: Socket, conversationId: string)
      modifies this`memberships
      ensures memberships == old(memberships) - {(socket.id, conversationId)}
      ensures RoomMembers(conversationId) == old(RoomMembers(conversationId)) - {socket.id}
    {
      memberships := memberships - {(socket.id, conversationId)};
    }

    /** `call-user` */
    method CallUser(socket: Socket, data: SignalData)
      modifies this`outbox
      ensures outbox == old(outbox) + Relay(registry, socket.id, socket.userId, CallUserSignal, data)
    {
      outbox := outbox + Relay(registry, socket.id, socket.userId, CallUserSignal, data);
    }

    /** `make-answer` */
    method MakeAnswer(socket: Socket, data: SignalData)
      modifies this`outbox
      ensures outbox == old(outbox) + Relay(registry, socket.id, socket.userId, AnswerSignal, data)
    {
      outbox := outbox + Relay(registry, socket.id, socket.userId, AnswerSignal, data);
    }

    /** `ice-candidate` */
    method IceCandidate(socket: Socket, data: SignalData)
      modifies this`outbox
      ensures outbox == old(outbox) + Relay(registry, socket.id, socket.userId, IceSignal, data)
    {
      outbox := outbox + Relay(registry, socket.id, socket.userId, IceSignal, data);
    }

    /** `reject-call` */
    method RejectCall(socket: Socket, data: SignalData)
      modifies this`outbox
      ensures outbox == old(outbox) + Relay(registry, socket.id, socket.userId, RejectSignal, data)
    {
      outbox := outbox + Relay(registry, socket.id, socket.userId, RejectSignal, data);
    }

    /** `end-call` */
    method EndCall(socket: Socket, data: SignalData)
      modifies this`outbox
      ensures outbox == old(outbox) + Relay(registry, socket.id, socket.userId, EndSignal, data)
    {
      outbox := outbox + Relay(registry, socket.id, socket.userId, EndSignal, data);
    }

    /** `disconnect`, as written: a socket stamped with a truthy user id deletes
        that user's entry whichever socket it now names, then tells every
        listed friend that still has a socket. The transport also drops the
        socket from all its rooms. */
    method Disconnect(socket: Socket, graph: Option<FriendIds>)
      modifies this`registry, this`outbox, this`memberships
      ensures memberships == set m | m in old(memberships) && m.0 != socket.id
      ensures !Truthy(socket.userId) ==> registry == old(registry) && outbox == old(outbox)
      ensures Truthy(socket.userId) ==> registry == old(registry) - {socket.userId.value}
      ensures Truthy(socket.userId) ==>
                outbox == old(outbox) + (if graph.Some? then OfflineNotices(registry, socket.userId.value, graph.value.All()) else [])
    {
      memberships := set m | m in memberships && m.0 != socket.id;
      if Truthy(socket.userId) {
        var me := socket.userId.value;
        registry := registry - {me};
        if graph.Some? {
          NotifyOffline(me, graph.value.All());
        }
      }
    }

    /** `disconnect` with compare-and-remove: the entry is deleted, and friends
        told, only when it still names this socket. */
    method DisconnectIfCurrent(socket: Socket, graph: Option<FriendIds>)
      modifies this`registry, this`outbox, this`memberships
      ensures memberships == set m | m in old(memberships) && m.0 != socket.id
      ensures var current := Truthy(socket.userId) && socket.userId.value in old(registry) &&
                             old(registry)[socket.userId.value] == socket.id;
              (!current ==> registry == old(registry) && outbox == old(outbox)) &&
              (current ==> registry == old(registry) - {socket.userId.value} &&
                           outbox == old(outbox) + (if graph.Some? then OfflineNotices(registry, socket.userId.value, graph.value.All()) else []))
    {
      memberships := set m | m in memberships && m.0 != socket.id;
      if Truthy(socket.userId) && socket.userId.value in registry && registry[socket.userId.value] == socket.id {
        var me := socket.userId.value;
        registry := registry - {me};
        if graph.Some? {
          NotifyOffline(me, graph.value.All());
        }
      }
    }

    /** The `forEach` that sends `user-offline` to each listed friend. */
    method NotifyOffline(me: UserId, all: seq<UserId>)
      modifies this`outbox
      ensures outbox == old(outbox) + OfflineNotices(registry, me, all)
    {
      var i := 0;
      while i < |all|
        invariant 0 <= i <= |all|
        invariant outbox == old(outbox) + OfflineNotices(registry, me, all[..i])
      {
        var friendId := all[i];
        assert all[..i + 1][..i] == all[..i];
        if friendId in registry {
          outbox := outbox + [Emission(ToSocket(registry[friendId]), "user-offline", UserStatus(me))];
        }
        i := i + 1;
      }
      assert all[..|all|] == all;
    }
  }

  /** A socket that registered a user and was then superseded by a newer
      socket for the same user still deletes the user's entry when it
      disconnects: the user reads as offline while connected. */
  method StaleDisconnectScenario() returns (resolved: Option<string>)
    ensures resolved == None
  {
    var server := new Server();
    var older := new Socket("s1");
    var newer := new Socket("s2");
    server.RegisterUser(older, Some("alice"), None);
    server.RegisterUser(newer, Some("alice"), None);
    server.Disconnect(older, None);
    resolved := server.Resolve("alice");
  }

  /** The same sequence with compare-and-remove keeps the newer socket. */
  method CurrentDisconnectScenario() returns (resolved: Option<string>)
    ensures resolved == Some("s2")
  {
    var server := new Server();
    var older := new Socket("s1");
    var newer := new Socket("s2");
    server.RegisterUser(older, Some("alice"), None);
    server.RegisterUser(newer, Some("alice"), None);
    server.DisconnectIfCurrent(older, None);
    resolved := server.Resolve("alice");
  }

  /** Two friends come online, place a call, answer it, hang up, and one
      leaves: every event reaches the other side stamped with the sender's
      registered id. */
  method CallScenario() returns (events: seq<Emission>)
    ensures events == [
      Emission(ToSocket("c1"), "user-online", UserStatus("u2")),
      Emission(ToSocket("c2"), "user-online", UserStatus("u1")),
      Emission(ToSocket("c2"), "call-made", CallMade(Some("offer"), Some("u1"), "Unknown", "video")),
      Emission(ToSocket("c1"), "answer-made", AnswerMade(Some("answer"), Some("u2"))),
      Emission(ToSocket("c2"), "call-ended", CallEnded(Some("u1"))),
      Emission(ToSocket("c2"), "user-offline", UserStatus("u1"))
    ]
  {
    var server := new Server();
    var c1 := new Socket("c1");
    var c2 := new Socket("c2");
    var online := [Emission(ToSocket("c1"), "user-online", UserStatus("u2")),
                   Emission(ToSocket("c2"), "user-online", UserStatus("u1"))];
    server.RegisterUser(c1, Some("u1"), Some(FriendIds(["u2"], [])));
    assert server.registry == map["u1" := "c1"] && server.outbox == [];
    server.RegisterUser(c2, Some("u2"), Some(FriendIds([], ["u1"])));
    assert server.registry == map["u1" := "c1", "u2" := "c2"];
    assert server.outbox == online;
    server.CallUser(c1, SignalData(Some("u2"), Some("offer"), None, None, None, Some("video")));
    assert server.outbox == online + [Emission(ToSocket("c2"), "call-made", CallMade(Some("offer"), Some("u1"), "Unknown", "video"))];
    var called := online + [Emission(ToSocket("c2"), "call-made", CallMade(Some("offer"), Some("u1"), "Unknown", "video"))];
    server.MakeAnswer(c2, SignalData(Some("u1"), None, Some("answer"), None, None, None));
    var answered := called + [Emission(ToSocket("c1"), "answer-made", AnswerMade(Some("answer"), Some("u2")))];
    assert server.outbox == answered;
    server.EndCall(c1, SignalData(Some("u2"), None, None, None, None, None));
    var ended := answered + [Emission(ToSocket("c2"), "call-ended", CallEnded(Some("u1")))];
    assert server.outbox == ended;
    assert server.registry == map["u1" := "c1", "u2" := "c2"];
    server.Disconnect(c1, Some(FriendIds(["u2"], [])));
    assert server.registry == map["u2" := "c2"];
    events := server.outbox;
  }
}
