/**
 * The values the chat protocol carries and the actions a session can
 * perform. ChatUser keeps only its name and Message only its sender and
 * text; their text format (toString / createFromString) is taken as a
 * parameter.
 */
module Data {
  import opened Wrappers

  /** A chat participant; the name is its identity. */
  datatype ChatUser = ChatUser(name: string)

  /** A chat line. Its display time is receiver-local and is left out. */
  datatype Message = Message(from: string, text: string)

  /**
   * The serialisers and parsers of ChatUser and Message. A parser yields
   * None where the Java code returns null.
   */
  datatype Codec = Codec(
    userToString: ChatUser -> string,
    userFromString: string -> Option<ChatUser>,
    messageToString: Message -> string,
    messageFromString: string -> Option<Message>)

  /**
   * What a session does that can be observed from outside: the six
   * ServerListener callbacks, and a line written to the server.
   */
  datatype Event =
    | PlayerJoined(user: ChatUser)
    | PlayerLeft(user: ChatUser)
    | ChatMessage(message: Message)
    | Disconnected
    | FailedConnection
    | SuccessfulConnection(name: string)
    | Sent(line: string)
  {
    /** The callbacks a message handler may fire. */
    predicate IsRosterCallback() {
      PlayerJoined? || PlayerLeft? || ChatMessage?
    }

    /** The callbacks that report the connection's own life cycle. */
    predicate IsLifecycleCallback() {
      Disconnected? || FailedConnection? || SuccessfulConnection?
    }
  }
}
