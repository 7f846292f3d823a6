/** The basic chat page: received messages are appended to the page's list,
    and sending emits the typed text over the socket and clears the input.
    Emitted events are recorded in `outbox`; the socket and the clock are
    parameters. */
module ChatPage {
  import opened Common

  datatype Message = Message(text: string, senderId: string, timestamp: int)

  /** A connected socket and its id, which may be undefined or "". */
  datatype Socket = Socket(id: Option<string>)

  function SenderIdOf(socket: Socket): (r: string)
    ensures r != ""
    ensures Truthy(socket.id) ==> r == socket.id.value
    ensures !Truthy(socket.id) ==> r == "anonymous"
  {
    if Truthy(socket.id) then socket.id.value else "anonymous"
  }

  /** The send guard: the input is not white space only and there is a
      socket. */
  predicate CanSend(inputText: string, socket: Option<Socket>) {
    Trim(inputText) != "" && socket.Some?
  }

  /** White-space-only input is never sent. */
  lemma BlankInputNotSent(inputText: string, socket: Option<Socket>)
    ensures CanSend(inputText, socket) <==> socket.Some? && exists i :: 0 <= i < |inputText| && !IsSpace(inputText[i])
  {
    TrimEmptyIffBlank(inputText);
  }

  /** A message is drawn as the user's own iff its sender is this socket's
      id. */
  predicate IsOwn(m: Message, socket: Option<Socket>) {
    socket.Some? && socket.value.id.Some? && m.senderId == socket.value.id.value
  }

  /** "You" for the user's own messages, else the first six characters of
      the sender id. */
  function SenderLabel(m: Message, socket: Option<Socket>): (r: string)
    ensures IsOwn(m, socket) ==> r == "You"
    ensures !IsOwn(m, socket) ==> r <= m.senderId && |r| == if |m.senderId| < 6 then |m.senderId| else 6
  {
    if IsOwn(m, socket) then "You"
    else if |m.senderId| < 6 then m.senderId else m.senderId[..6]
  }

  /** A message sent with no socket id goes out as "anonymous", which never
      equals a socket id, so it is not drawn as one's own when it comes
      back. */
  lemma AnonymousNeverOwn(socket: Socket, now: int, text: string)
    requires !Truthy(socket.id)
    ensures !IsOwn(Message(text, SenderIdOf(socket), now), Some(socket))
    ensures SenderLabel(Message(text, SenderIdOf(socket), now), Some(socket)) == "anonym"
  {
  }

  class ChatPage {
    var messages: seq<Message>
    var inputText: string
    var outbox: seq<Message>

    constructor ()
      ensures messages == [] && inputText == "" && outbox == []
    {
      messages, inputText, outbox := [], "", [];
    }

    method ReceiveMessage(m: Message)
      modifies this
      ensures messages == old(messages) + [m]
      ensures inputText == old(inputText) && outbox == old(outbox)
    {
      messages := messages + [m];
    }

    method SendMessage(socket: Option<Socket>, now: int)
      modifies this
      ensures !CanSend(old(inputText), socket) ==> unchanged(this)
      ensures CanSend(old(inputText), socket) ==>
        && outbox == old(outbox) + [Message(old(inputText), SenderIdOf(socket.value), now)]
        && inputText == ""
        && messages == old(messages)
    {
      if Trim(inputText) == "" || socket.None? {
        return;
      }
      var messageData := Message(inputText, SenderIdOf(socket.value), now);
      outbox := outbox + [messageData];
      inputText := "";
    }
  }
}
