# Socket group chat client — a Dafny model

This project models the core of a small JavaFX chat client: the tagged-line
protocol it speaks with its server, the client that runs one session over a
socket, and the window controller's bookkeeping of the roster and the
transcript.

- `wrappers.dfy` (`Wrappers`): `Option`, which stands for a Java reference
  that may be null.
- `data.dfy` (`Data`): `ChatUser`, `Message`, the `Codec` of their text
  forms, and `Event`. An event is one of the six `ServerListener` callbacks
  or `Sent(line)`, a line written to the server.
- `message_type.dfy` (`MessageTypes`): the enum `MessageType` with its three
  tags `$(DISCONNECTED)`, `$(CONNECTED)`, `$(MESSAGE)` (in that declared
  order, `Values`) and its handlers. It also holds Java's `startsWith`
  (sequence prefix `<=`) and `String.replace(tag, "")` (`RemoveAll`).
- `socket_client.dfy` (`SocketClients`): dispatch of inbound lines, the
  event log of a whole session (`Session`), and the class `SocketClient`.
  The class has the `running` flag, `connected` (standing for
  `dataOut != null`) and the event log. `Run` takes three inputs: whether
  the socket opens, the finite sequence of inbound lines, and the number
  of lines read before `setRunning(false)` is observed.
- `controller.dfy` (`Controllers`): `validateAllTextFields` and the class
  `Controller`. The class holds the `NOT_CONNECTED`/`CONNECTED` gate, the
  roster, the transcript and the button handlers and listener callbacks
  that edit them.

Points of the code that the model keeps as written:

- A handler receives `line.replace(tag, "")` (`SocketClient.java:61`),
  which removes every occurrence of the tag, not only the leading one.
  The model does the same. The lemma `RemainderOfFramedLine` shows what
  this means. The handler gets exactly the payload `p` of `tag + p` if and
  only if the tag does not occur inside `p`. If it does occur, part of the
  payload is lost.
- `ServerListener.java:18` declares `onSuccessfulConnection(String name)`,
  and `SocketClient.java:42` passes the user's name, but
  `Controller.java:245` declares the callback with no parameter. The event
  carries the name and the controller ignores it.
- After the poll loop sees the cleared flag (`SocketClient.java:50-52`),
  it still calls `readUTF` (`SocketClient.java:55`) and dispatches the
  line it gets. So one more line is read and dispatched before the loop
  ends, when such a line arrives. In the event log this looks the same as
  a stop that lands one line later, and `Run`'s `stopAfter` parameter
  stands for either. The case where no further line arrives is under
  "## Left out".
- The end of `inbound` stands for a `readUTF` that throws (a truncated
  frame or a socket error). The loop then ends with `running` still set,
  and the shutdown sequence runs as usual.

## Model

| member | source | states |
|---|---|---|
| MessageTypes.MessageType.MessageStart | src/dev/stevenposterick/data/message/MessageType.java:36-43 | each constant's tag starts with `$(`, and `$` appears nowhere else in it |
| MessageTypes.MessageType.Handle | src/dev/stevenposterick/data/message/MessageType.java:6-31 | a handler fires at most one callback, and only a roster callback. If the parse yields a user or message, it fires exactly one `onPlayerLeft` / `onPlayerJoined` / `onChatMessage` carrying the parsed value. If the parse yields null, it fires nothing |
| MessageTypes.ValuesTable | src/dev/stevenposterick/data/message/MessageType.java:5-31 | `values()` lists the three constants, each once, with tags `$(DISCONNECTED)`, `$(CONNECTED)`, `$(MESSAGE)` in that order |
| MessageTypes.TagsPrefixFree | src/dev/stevenposterick/data/message/MessageType.java:6-24 | no tag is a prefix of another tag |
| MessageTypes.AtMostOneTag | src/dev/stevenposterick/utils/client/SocketClient.java:59-64 | at most one tag starts any given line |
| MessageTypes.FirstMatch | src/dev/stevenposterick/utils/client/SocketClient.java:59-65 | the match it finds is in the table and starts the line. It finds none only when no tag in the table starts the line |
| MessageTypes.FirstMatchOrderIrrelevant | src/dev/stevenposterick/utils/client/SocketClient.java:59-64 | first-match dispatch gives the same result for any ordering of the table |
| MessageTypes.RemoveAll | src/dev/stevenposterick/utils/client/SocketClient.java:61 | `replace(tag, "")` never lengthens the line |
| MessageTypes.RemoveAllNoMatch | src/dev/stevenposterick/utils/client/SocketClient.java:61 | if the tag does not occur in the line, `replace` returns the line unchanged |
| MessageTypes.RemoveAllShrinks | src/dev/stevenposterick/utils/client/SocketClient.java:61 | if the tag occurs in the line, `replace` returns a strictly shorter string |
| MessageTypes.RemoveAllIdentity | src/dev/stevenposterick/utils/client/SocketClient.java:61 | `replace` leaves the line unchanged if and only if the tag does not occur in it |
| MessageTypes.NoStraddle | src/dev/stevenposterick/data/message/MessageType.java:6-24 | a tag cannot occur across the boundary between itself and the payload after it |
| MessageTypes.RemainderOfFramedLine | src/dev/stevenposterick/utils/client/SocketClient.java:61 | the remainder of `tag + p` equals the remainder of `p`. It is `p` itself if and only if the tag does not occur in `p` |
| SocketClients.Dispatch | src/dev/stevenposterick/utils/client/SocketClient.java:59-65 | one inbound line fires at most one callback, and only a roster callback. A line that starts with no tag fires nothing |
| SocketClients.DispatchAll | src/dev/stevenposterick/utils/client/SocketClient.java:48-67 | the events of the read loop over a run of lines, one line after another. No contract of its own: `DispatchAllRosterOnly`, `DispatchAllAppend` and `UnknownLineDropped` state its properties, and `ReadLoop` is proved against it |
| SocketClients.DispatchTagged | src/dev/stevenposterick/utils/client/SocketClient.java:59-64 | a line that starts with tag T goes, once, to T's handler, with every occurrence of T removed from it |
| SocketClients.DispatchFramed | src/dev/stevenposterick/utils/client/SocketClient.java:59-64 | T's handler receives exactly `p` from `T + p` whenever `p` does not contain T |
| SocketClients.DispatchAllRosterOnly | src/dev/stevenposterick/utils/client/SocketClient.java:48-67 | the read loop fires at most one callback per line, and only roster callbacks: never a life-cycle callback, never a send |
| SocketClients.DispatchAllAppend | src/dev/stevenposterick/utils/client/SocketClient.java:48-67 | lines are handled independently: the events of `a + b` are those of `a` followed by those of `b` |
| SocketClients.UnknownLineDropped | src/dev/stevenposterick/utils/client/SocketClient.java:59-65 | a line that starts with no tag leaves no trace, and the lines after it are still handled |
| SocketClients.Announcement | src/dev/stevenposterick/utils/client/SocketClient.java:45 | the line sent on connect (line 45, CONNECTED tag) and on shutdown (line 73, DISCONNECTED tag): the tag followed by the text form of the user. No contract of its own: `SessionOrder` places both in the session |
| SocketClients.Session | src/dev/stevenposterick/utils/client/SocketClient.java:32-76 | the whole event sequence of `run()` for a connect outcome and the lines read. No contract of its own: `SessionOrder` and `SessionLifecycleOnce` state its properties, and `Run` is proved against it |
| SocketClients.SessionOrder | src/dev/stevenposterick/utils/client/SocketClient.java:42-76 | in a successful session the order of the read thread's own events is: `onSuccessfulConnection(name)`, then the CONNECTED announcement, before any inbound line is handled. Only roster callbacks follow, and the session ends with the DISCONNECTED announcement and then `onDisconnected` |
| SocketClients.SessionLifecycleOnce | src/dev/stevenposterick/utils/client/SocketClient.java:32-76 | a failed connect logs `onFailedConnection` and nothing else: no send, no other callback. A successful session fires `onSuccessfulConnection` first and `onDisconnected` last, and no life-cycle callback anywhere else, so each fires exactly once |
| SocketClients.Identify | src/dev/stevenposterick/utils/client/SocketClient.java:59-65 | the `for` loop over `values()` with `break` returns the first tag that starts the line, or none when no tag does |
| SocketClients.SocketClient.constructor | src/dev/stevenposterick/utils/client/SocketClient.java:23-28 | a new client holds `ChatUser(user)` (what `getChatUser` returns). It is running, has no output stream and has logged nothing |
| SocketClients.SocketClient.IsRunning | src/dev/stevenposterick/utils/client/SocketClient.java:79-81 | returns the flag; `ReadLoop` reads the flag only through it, as the loop at lines 48-50 does |
| SocketClients.SocketClient.SetRunning | src/dev/stevenposterick/utils/client/SocketClient.java:83-85 | sets the flag and changes nothing else, so calling it again with the same value changes nothing |
| SocketClients.SocketClient.SendMessageToServer | src/dev/stevenposterick/utils/client/SocketClient.java:87-96 | logs `Sent(line)` when the output stream is open. Before a connect, or after a failed one, it logs nothing |
| SocketClients.SocketClient.HandleLine | src/dev/stevenposterick/utils/client/SocketClient.java:59-65 | appends to the log exactly what `Dispatch` gives for the line |
| SocketClients.SocketClient.ReadLoop | src/dev/stevenposterick/utils/client/SocketClient.java:47-70 | handles the inbound lines in order until the stop point or the end of input. The flag stays set only when the input ran out first |
| SocketClients.SocketClient.Run | src/dev/stevenposterick/utils/client/SocketClient.java:30-77 | the log grows by exactly the `Session` of the lines handled. A failed connect clears the flag and leaves the stream unopened. A successful one opens it |
| Controllers.ValidateAllTextFields | src/dev/stevenposterick/core/Controller.java:188-192 | true if and only if no field equals `""`. A null field passes |
| Controllers.FirstNamed | src/dev/stevenposterick/core/Controller.java:210-212 | finds the first roster entry with the name, or reports that none has it |
| Controllers.RemoveFirstNamed | src/dev/stevenposterick/core/Controller.java:210-213 | the roster after the filter / `findFirst` / `remove` chain. No contract of its own: `RemoveFirstNamedSpec` states what it keeps and what it drops |
| Controllers.RemoveFirstNamedSpec | src/dev/stevenposterick/core/Controller.java:205-215 | removing by name drops only the first entry with that name. Entries before it are untouched, entries after it move up one place, and other names keep their order. The count with that name drops by one. With no match the roster is unchanged |
| Controllers.ClientNote | src/dev/stevenposterick/core/Controller.java:175-178 | `sendClientMessage`: a transcript entry from "Client" with the given text. No contract of its own: the `ensures` of `OnConnect`, `OnDisconnected`, `OnFailedConnection` and `OnSuccessfulConnection` say which notes are appended |
| Controllers.Controller.constructor | src/dev/stevenposterick/core/Controller.java:42-46 | starts `NOT_CONNECTED`, with no client and an empty roster and transcript |
| Controllers.Controller.OnDisconnect | src/dev/stevenposterick/core/Controller.java:87-95 | clears the client's flag when a client exists, and sets `NOT_CONNECTED` |
| Controllers.Controller.OnConnect | src/dev/stevenposterick/core/Controller.java:98-126 | creates no client when already connected or when host, port or user is empty. Otherwise it creates a fresh running client for the user and notes the attempt in the transcript |
| Controllers.Controller.OnSendMessage | src/dev/stevenposterick/core/Controller.java:144-173 | sends only when `CONNECTED` and the text is non-empty. The line sent is `$(MESSAGE)` + the message's text form, and the same message is appended to the transcript. Otherwise nothing is sent or appended |
| Controllers.Controller.OnPlayerJoined | src/dev/stevenposterick/core/Controller.java:196-202 | appends the user at the end of the roster; null leaves the roster unchanged |
| Controllers.Controller.OnPlayerLeft | src/dev/stevenposterick/core/Controller.java:205-215 | the roster becomes `RemoveFirstNamed` of the old roster; null leaves it unchanged |
| Controllers.Controller.OnChatMessage | src/dev/stevenposterick/core/Controller.java:218-223 | appends the message to the transcript; null leaves it unchanged |
| Controllers.Controller.OnDisconnected | src/dev/stevenposterick/core/Controller.java:226-231 | sets `NOT_CONNECTED` and notes "Disconnected from server." |
| Controllers.Controller.OnFailedConnection | src/dev/stevenposterick/core/Controller.java:234-242 | sets `NOT_CONNECTED` and notes "Failed to connect to server." |
| Controllers.Controller.OnSuccessfulConnection | src/dev/stevenposterick/core/Controller.java:245-248 | notes "Successfully connected to server." and sets `CONNECTED` |

## Left out

- Sockets and streams: `Socket`, `DataInputStream.readUTF` / `DataOutputStream.writeUTF` framing and `available()`. They are replaced by `connectOk`, the `inbound` sequence and `Sent` events.
- Polling with `Thread.sleep(50)`, the second thread, `synchronized` and `volatile`. `Run` is sequential, and another thread's `setRunning(false)` is a cut-off point in the inbound sequence.
- A `writeUTF` that throws is swallowed in the source. The model logs every write to an open stream as `Sent`.
- `ChatUser` and `Message` keep only their fields: `name`, and `from` plus `text`. The message timestamp and its `DateTimeFormatter` are left out. `toString` and `createFromString` are `Codec` parameters, so no parse/serialise round trip is claimed.
- `remove(chatUser)` at `Controller.java:213` goes through `ChatUser.equals`, which the model takes to be equality of the `name` field. Identity would remove the same entry: the entry removed is the first one with that name, and no earlier entry is equal to it under either reading.
- Host and port are not carried by the client: the socket is abstracted into `connectOk`. `Integer.parseInt(port)` and its exception are not modelled.
- `Thread.start()`: `OnConnect` creates the client, and the session is `SocketClient.Run`, called separately.
- JavaFX: alerts, cell factories, FXML fields, clearing the message box, and `Main.java`. The `Platform.runLater` hops are not modelled; the callbacks edit the controller's state at once.
- Console logging (`println`, `printStackTrace`).
- `EmptyTextField`: an exception type that is never thrown.
- Controllers.Controller.OnSuccessfulConnection: requires a client to exist. This callback only ever comes from the controller's own client. The requirement keeps the invariant that `CONNECTED` implies a client, which the source relies on in `onSendMessage`.
- SocketClients.SocketClient.Run: describes only sessions that end. After the poll loop breaks on a cleared flag, `readUTF` (`SocketClient.java:55`) blocks; if the server stays open and sends nothing, `run()` never returns, and neither the DISCONNECTED announcement nor `onDisconnected` happens. The model has no such outcome.
- SocketClients.SocketClient.ReadLoop: end of stream is not modelled as its own case. At end of stream `available()` returns 0, so the loop at `SocketClient.java:49-54` keeps sleeping until a stop; a closed server therefore does not end a running session. In the model the end of `inbound` is a `readUTF` that throws, which needs a truncated frame or a socket error.
- SocketClients.SessionOrder: covers only the events of the thread running `run()`. While the loop runs, the UI thread's `sendMessageToServer` calls (`Controller.java:158-160`) write on the same client; their `Sent` lines interleave with the session in the source but are never part of `Session`.
- SocketClients.SocketClient.Run: `connectOk` has two outcomes, but the connect step has three. A port that `Integer.parseInt` accepts but that lies outside 0..65535 (for example "70000" or "-1") makes `new Socket(ip, port)` (`SocketClient.java:33`) throw `IllegalArgumentException`. That exception is unchecked, so `catch (IOException e)` (`SocketClient.java:36`) does not catch it: the thread dies with no callback at all, and the controller keeps only the "Attempting to connect to server." note. The model sends this case to `FailedConnection`.
