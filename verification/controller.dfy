/**
 * The window's controller without its widgets: the roster (the user list
 * view's items), the transcript (the chat list view's items), the
 * two-state connection gate, and the ServerListener callbacks that edit
 * them. Alerts and Platform.runLater hops are left out.
 */
module Controllers {
  import opened Wrappers
  import opened Data
  import opened MessageTypes
  import opened SocketClients

  /**
   * validateAllTextFields: true exactly when no field is the empty
   * string; a null field (None) passes.
   */
  function ValidateAllTextFields(fields: seq<Option<string>>): (ok: bool)
    ensures ok <==> forall i :: 0 <= i < |fields| ==> fields[i] != Some("")
  {
    if fields == [] then true
    else fields[0] != Some("") && ValidateAllTextFields(fields[1..])
  }

  /** The position of the first roster entry with the given name. */
  function FirstNamed(users: seq<ChatUser>, name: string): (k: Option<nat>)
    ensures k.Some? ==> k.value < |users| && users[k.value].name == name
    ensures k.Some? ==> forall j :: 0 <= j < k.value ==> users[j].name != name
    ensures k.None? ==> forall j :: 0 <= j < |users| ==> users[j].name != name
  {
    if users == [] then None
    else if users[0].name == name then Some(0)
    else match FirstNamed(users[1..], name)
      case None => None
      case Some(k) => Some(k + 1)
  }

  /** The roster after a user with the given name leaves. */
  function RemoveFirstNamed(users: seq<ChatUser>, name: string): seq<ChatUser>
  {
    match FirstNamed(users, name)
    case None => users
    case Some(k) => users[..k] + users[k + 1..]
  }

  /** The entries not named `name`, in roster order. */
  function Others(users: seq<ChatUser>, name: string): seq<ChatUser>
  {
    if users == [] then []
    else (if users[0].name == name then [] else [users[0]]) + Others(users[1..], name)
  }

  /** How many entries are named `name`. */
  function CountNamed(users: seq<ChatUser>, name: string): nat
  {
    if users == [] then 0
    else (if users[0].name == name then 1 else 0) + CountNamed(users[1..], name)
  }

  lemma {:induction false} OthersAppend(a: seq<ChatUser>, b: seq<ChatUser>, name: string)
    ensures Others(a + b, name) == Others(a, name) + Others(b, name)
    ensures CountNamed(a + b, name) == CountNamed(a, name) + CountNamed(b, name)
  {
    if a == [] {
      assert a + b == b;
    } else {
      assert (a + b)[1..] == a[1..] + b;
      OthersAppend(a[1..], b, name);
    }
  }

  lemma {:induction false} NoneNamed(users: seq<ChatUser>, name: string)
    requires forall j :: 0 <= j < |users| ==> users[j].name != name
    ensures Others(users, name) == users && CountNamed(users, name) == 0
  {
    if users != [] {
      NoneNamed(users[1..], name);
    }
  }

  /**
   * A leaving user takes out only the first entry with that name: the
   * entries before it are untouched, the entries after it move up by one
   * place, every entry with another name stays
   * in its order, and one entry with that name fewer remains (the roster is
   * unchanged when there is none).
   */
  lemma RemoveFirstNamedSpec(users: seq<ChatUser>, name: string)
    ensures var r := RemoveFirstNamed(users, name);
      && Others(r, name) == Others(users, name)
      && CountNamed(r, name) == (if CountNamed(users, name) == 0 then 0 else CountNamed(users, name) - 1)
      && (CountNamed(users, name) == 0 <==> r == users)
      && |r| == |users| - (if CountNamed(users, name) == 0 then 0 else 1)
      && (FirstNamed(users, name).Some? ==> r[..FirstNamed(users, name).value] == users[..FirstNamed(users, name).value])
      && (FirstNamed(users, name).Some? ==> r[FirstNamed(users, name).value..] == users[FirstNamed(users, name).value + 1..])
  {
    var r := RemoveFirstNamed(users, name);
    match FirstNamed(users, name)
    case None =>
      NoneNamed(users, name);
    case Some(k) =>
      var before, after := users[..k], users[k + 1..];
      var rest := [users[k]] + after;
      assert users == before + rest;
      assert rest[1..] == after;
      NoneNamed(before, name);
      OthersAppend(before, rest, name);
      assert Others(rest, name) == Others(after, name);
      assert CountNamed(rest, name) == 1 + CountNamed(after, name);
      OthersAppend(before, after, name);
      assert r == before + after;
  }

  /** The connection gate. */
  datatype ClientState = NotConnected | Connected

  /** sendClientMessage: a transcript note written by the client itself. */
  function ClientNote(text: string): Message
  {
    Message("Client", text)
  }

  class Controller {
    const codec: Codec
    var clientState: ClientState
    var socketClient: SocketClient?
    /** The user list view's items. */
    var users: seq<ChatUser>
    /** The chat list view's items. */
    var chat: seq<Message>

    /** Only a client this controller created can have reported success. */
    ghost predicate Valid()
      reads this
    {
      clientState == Connected ==> socketClient != null
    }

    constructor (codec: Codec)
      ensures Valid() && this.codec == codec
      ensures clientState == NotConnected && socketClient == null && users == [] && chat == []
    {
      this.codec := codec;
      clientState := NotConnected;
      socketClient := null;
      users := [];
      chat := [];
    }

    /** The disconnect button: stop the client if there is one; the gate closes. */
    method OnDisconnect()
      requires Valid()
      modifies this, socketClient
      ensures Valid() && clientState == NotConnected
      ensures socketClient == old(socketClient) && users == old(users) && chat == old(chat)
      ensures socketClient != null ==>
        && !socketClient.running
        && socketClient.connected == old(socketClient.connected)
        && socketClient.log == old(socketClient.log)
    {
      if socketClient != null {
        socketClient.SetRunning(false);
      }
      clientState := NotConnected;
    }

    /**
     * The connect button: only while not connected and with no empty
     * field, create a fresh client for the user and note the attempt. The
     * client's thread then runs SocketClient.Run on its own.
     */
    method OnConnect(host: string, port: string, user: string)
      requires Valid()
      modifies this
      ensures Valid() && clientState == old(clientState) && users == old(users)
      ensures old(clientState) != NotConnected || host == "" || port == "" || user == "" ==>
        socketClient == old(socketClient) && chat == old(chat)
      ensures old(clientState) == NotConnected && host != "" && port != "" && user != "" ==>
        && socketClient != null && fresh(socketClient)
        && socketClient.codec == codec && socketClient.chatUser == ChatUser(user)
        && socketClient.running && !socketClient.connected && socketClient.log == []
        && chat == old(chat) + [ClientNote("Attempting to connect to server.")]
    {
      if clientState != NotConnected {
        return;  // alert: already connected
      }
      var fields := [Some(host), Some(port), Some(user)];
      assert fields[0] == Some(host) && fields[1] == Some(port) && fields[2] == Some(user);
      if !ValidateAllTextFields(fields) {
        return;  // alert: empty text field
      }
      socketClient := new SocketClient(codec, user);
      chat := chat + [ClientNote("Attempting to connect to server.")];
    }

    /**
     * The send button: only while connected and with a non-empty text,
     * send the MESSAGE-tagged line and add the same message to the
     * transcript.
     */
    method OnSendMessage(text: string)
      requires Valid()
      modifies this, socketClient
      ensures Valid() && clientState == old(clientState) && users == old(users)
      ensures socketClient == old(socketClient)
      ensures socketClient != null ==>
        socketClient.running == old(socketClient.running) && socketClient.connected == old(socketClient.connected)
      ensures old(clientState) != Connected || text == "" ==>
        chat == old(chat) && (socketClient != null ==> socketClient.log == old(socketClient.log))
      ensures old(clientState) == Connected && text != "" ==>
        var m := Message(socketClient.chatUser.name, text);
        && chat == old(chat) + [m]
        && socketClient.log == old(socketClient.log)
             + (if socketClient.connected
                then [Sent(MESSAGE.MessageStart() + socketClient.codec.messageToString(m))]
                else [])
    {
      if clientState == Connected {
        if ValidateAllTextFields([Some(text)]) {
          var m := Message(socketClient.chatUser.name, text);
          socketClient.SendMessageToServer(MESSAGE.MessageStart() + socketClient.codec.messageToString(m));
          chat := chat + [m];
        }
        // else alert: empty message
      }
      // else alert: not connected
    }

    /** A user joined: append it; null changes nothing. */
    method OnPlayerJoined(user: Option<ChatUser>)
      modifies this`users
      ensures users == old(users) + (if user.Some? then [user.value] else [])
    {
      if user.None? {
        return;
      }
      users := users + [user.value];
    }

    /** A user left: remove the first entry with its name; null changes nothing. */
    method OnPlayerLeft(user: Option<ChatUser>)
      modifies this`users
      ensures users == if user.Some? then RemoveFirstNamed(old(users), user.value.name) else old(users)
    {
      if user.None? {
        return;
      }
      users := RemoveFirstNamed(users, user.value.name);
    }

    /** A chat line arrived: append it; null changes nothing. */
    method OnChatMessage(message: Option<Message>)
      modifies this`chat
      ensures chat == old(chat) + (if message.Some? then [message.value] else [])
    {
      if message.None? {
        return;
      }
      chat := chat + [message.value];
    }

    method OnDisconnected()
      modifies this`clientState, this`chat
      ensures clientState == NotConnected
      ensures chat == old(chat) + [ClientNote("Disconnected from server.")]
    {
      clientState := NotConnected;
      chat := chat + [ClientNote("Disconnected from server.")];
    }

    method OnFailedConnection()
      modifies this`clientState, this`chat
      ensures clientState == NotConnected
      ensures chat == old(chat) + [ClientNote("Failed to connect to server.")]
    {
      clientState := NotConnected;
      chat := chat + [ClientNote("Failed to connect to server.")];
    }

    /** The name the client reports is ignored. */
    method OnSuccessfulConnection(name: string)
      requires socketClient != null
      modifies this`clientState, this`chat
      ensures Valid() && clientState == Connected
      ensures chat == old(chat) + [ClientNote("Successfully connected to server.")]
    {
      chat := chat + [ClientNote("Successfully connected to server.")];
      clientState := Connected;
    }
  }
}
