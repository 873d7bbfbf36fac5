/** The events the socket layer emits (src/app.js and the chat broadcast in
    src/controllers/chatController.js). An emission is recorded in an outbox
    instead of being handed to the transport. */
module SocketEvents {
  import opened Common

  /** A JSON value the relay forwards without looking inside (an SDP offer or
      answer, an ICE candidate). */
  type Json = string

  /** `io.to(socketId)` or `socket.emit` address one connection;
      `io.to(room)` addresses every connection in a conversation room. */
  datatype Target = ToSocket(socketId: string) | ToRoom(room: string)

  /** The `sender` object inside a `new_message` event. */
  datatype SenderCard = SenderCard(id: UserId, displayName: Option<string>, avatar: Option<string>)

  datatype Payload =
    | UserStatus(userId: string)
    | CallMade(offer: Option<Json>, from: Option<string>, callerName: string, kind: string)
    | AnswerMade(answer: Option<Json>, from: Option<string>)
    | IceRelay(candidate: Option<Json>, from: Option<string>)
    | CallRejected(from: Option<string>)
    | CallEnded(from: Option<string>)
    | CallError(message: string)
    | NewMessage(id: string, conversationId: string, senderId: UserId, content: string,
                 messageType: string, createdAt: int, sender: SenderCard)
  {
    /** The payloads the signalling relay forwards carry a `from` field. */
    predicate Relayed() {
      CallMade? || AnswerMade? || IceRelay? || CallRejected? || CallEnded?
    }
  }

  /** One `emit(event, payload)` to a target. */
  datatype Emission = Emission(target: Target, event: string, payload: Payload)
}
