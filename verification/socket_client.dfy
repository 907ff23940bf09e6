/**
 * The network client: inbound dispatch of tagged lines, the send guard and
 * the order of events in one session. Sockets and streams are replaced by
 * a flag `connected` (the output stream has been opened), a finite
 * sequence of inbound lines, and a log of observable events.
 */
module SocketClients {
  import opened Wrappers
  import opened Data
  import opened MessageTypes

  /**
   * What one inbound line causes: the handler of the first tag that starts
   * the line, applied to the line with every occurrence of that tag removed.
   */
  function Dispatch(codec: Codec, line: string): (events: seq<Event>)
    ensures |events| <= 1
    ensures forall e :: e in events ==> e.IsRosterCallback()
    ensures (forall t: MessageType :: !(t.MessageStart() <= line)) ==> events == []
  {
    match FirstMatch(Values, line)
    case None => []
    case Some(t) => t.Handle(codec, RemoveAll(line, t.MessageStart()))
  }

  /** A line that starts with tag `t` goes to t's handler, whatever the other tags. */
  lemma DispatchTagged(codec: Codec, t: MessageType, line: string)
    requires t.MessageStart() <= line
    ensures Dispatch(codec, line) == t.Handle(codec, RemoveAll(line, t.MessageStart()))
  {
    ValuesTable();
    var found := FirstMatch(Values, line);
    if found.Some? {
      AtMostOneTag(line, t, found.value);
    }
  }

  /**
   * A framed line `tag + p` hands its handler exactly `p`, provided the
   * tag does not occur again inside p.
   */
  lemma DispatchFramed(codec: Codec, t: MessageType, p: string)
    requires !Contains(p, t.MessageStart())
    ensures Dispatch(codec, t.MessageStart() + p) == t.Handle(codec, p)
  {
    assert t.MessageStart() <= t.MessageStart() + p;
    DispatchTagged(codec, t, t.MessageStart() + p);
    RemainderOfFramedLine(t, p);
  }

  /** The events of a run of inbound lines, one line after another. */
  function DispatchAll(codec: Codec, lines: seq<string>): (events: seq<Event>)
  {
    if lines == [] then []
    else DispatchAll(codec, lines[..|lines| - 1]) + Dispatch(codec, lines[|lines| - 1])
  }

  /** Inbound lines only ever fire roster callbacks, at most one each. */
  lemma {:induction false} DispatchAllRosterOnly(codec: Codec, lines: seq<string>)
    ensures |DispatchAll(codec, lines)| <= |lines|
    ensures forall e :: e in DispatchAll(codec, lines) ==> e.IsRosterCallback()
  {
    if lines != [] {
      DispatchAllRosterOnly(codec, lines[..|lines| - 1]);
    }
  }

  /**
   * Lines are handled independently: a line that is dropped (unknown tag,
   * failed parse) does not disturb the lines after it.
   */
  lemma {:induction false} DispatchAllAppend(codec: Codec, a: seq<string>, b: seq<string>)
    ensures DispatchAll(codec, a + b) == DispatchAll(codec, a) + DispatchAll(codec, b)
    decreases |b|
  {
    if b != [] {
      var b' := b[..|b| - 1];
      assert (a + b)[..|a + b| - 1] == a + b';
      DispatchAllAppend(codec, a, b');
    } else {
      assert a + b == a;
    }
  }

  /**
   * A line that starts with no tag is dropped without a trace, and the
   * lines after it are handled as if it had never arrived.
   */
  lemma UnknownLineDropped(codec: Codec, a: seq<string>, line: string, b: seq<string>)
    requires forall t: MessageType :: !(t.MessageStart() <= line)
    ensures DispatchAll(codec, a + [line] + b) == DispatchAll(codec, a + b)
  {
    var one := [line];
    assert one[..|one| - 1] == [];
    assert DispatchAll(codec, one) == Dispatch(codec, line) == [];
    DispatchAllAppend(codec, a + one, b);
    DispatchAllAppend(codec, a, one);
    DispatchAllAppend(codec, a, b);
  }

  /** Handling one more line extends the events by that line's. */
  lemma DispatchAllSnoc(codec: Codec, inbound: seq<string>, i: nat)
    requires i < |inbound|
    ensures DispatchAll(codec, inbound[..i + 1]) == DispatchAll(codec, inbound[..i]) + Dispatch(codec, inbound[i])
  {
    assert inbound[..i + 1][..i] == inbound[..i];
  }

  /** Regrouping a concatenation, stated once so that `Run`'s proof stays small. */
  lemma AppendAssoc<T>(a: seq<T>, b: seq<T>, c: seq<T>, d: seq<T>)
    ensures a + (b + c + d) == a + b + c + d
  {
  }

  /** The announcement a client sends on connect and on shutdown. */
  function Announcement(codec: Codec, t: MessageType, user: ChatUser): string
  {
    t.MessageStart() + codec.userToString(user)
  }

  /**
   * The whole event log of a session whose connect attempt succeeds or not
   * and which processes the inbound `lines` before its loop ends.
   */
  function Session(codec: Codec, user: ChatUser, connectOk: bool, lines: seq<string>): seq<Event>
  {
    if !connectOk then [FailedConnection]
    else
      [SuccessfulConnection(user.name), Sent(Announcement(codec, CONNECTED, user))]
      + DispatchAll(codec, lines)
      + [Sent(Announcement(codec, DISCONNECTED, user)), Disconnected]
  }

  /**
   * A successful session announces itself before any inbound line is
   * handled, and ends with the DISCONNECTED announcement followed by
   * onDisconnected; everything in between is a roster callback.
   */
  lemma SessionOrder(codec: Codec, user: ChatUser, lines: seq<string>)
    ensures var s := Session(codec, user, true, lines);
      && |s| >= 4
      && s[0] == SuccessfulConnection(user.name)
      && s[1] == Sent(Announcement(codec, CONNECTED, user))
      && s[|s| - 2] == Sent(Announcement(codec, DISCONNECTED, user))
      && s[|s| - 1] == Disconnected
      && forall k :: 2 <= k < |s| - 2 ==> s[k].IsRosterCallback()
  {
    var d := DispatchAll(codec, lines);
    DispatchAllRosterOnly(codec, lines);
    var s := Session(codec, user, true, lines);
    forall k | 2 <= k < |s| - 2 ensures s[k].IsRosterCallback() {
      assert s[k] == d[k - 2];
    }
  }

  /**
   * Each life-cycle callback fires at most once per session. A failed
   * connect fires onFailedConnection and nothing else, and sends nothing.
   * A successful one fires onSuccessfulConnection first and onDisconnected
   * last, and no other life-cycle callback anywhere.
   */
  lemma SessionLifecycleOnce(codec: Codec, user: ChatUser, connectOk: bool, lines: seq<string>)
    ensures var s := Session(codec, user, connectOk, lines);
      && (!connectOk ==> s == [FailedConnection])
      && (connectOk ==>
            && |s| >= 4
            && s[0] == SuccessfulConnection(user.name)
            && s[|s| - 1] == Disconnected
            && forall k :: 0 <= k < |s| && s[k].IsLifecycleCallback() ==> k == 0 || k == |s| - 1)
  {
    if connectOk {
      SessionOrder(codec, user, lines);
    }
  }

  /**
   * The loop in run() that scans MessageType.values() in declared order
   * and stops at the first tag that starts the line.
   */
  method Identify(line: string) returns (found: Option<MessageType>)
    ensures found == FirstMatch(Values, line)
    ensures found.Some? ==> found.value.MessageStart() <= line
    ensures found.None? ==> forall t: MessageType :: !(t.MessageStart() <= line)
  {
    ValuesTable();
    found := None;
    for i := 0 to |Values|
      invariant found == None
      invariant FirstMatch(Values, line) == FirstMatch(Values[i..], line)
    {
      assert Values[i..][1..] == Values[i + 1..];
      if Values[i].MessageStart() <= line {
        found := Some(Values[i]);
        break;
      }
    }
  }

  /** How many inbound lines a run handles before its loop ends. */
  function Processed(wasRunning: bool, inbound: seq<string>, stopAfter: nat): (n: nat)
    ensures n <= |inbound|
  {
    if !wasRunning then 0
    else if stopAfter < |inbound| then stopAfter
    else |inbound|
  }

  class SocketClient {
    const codec: Codec
    /** The local user, as getChatUser returns it. */
    const chatUser: ChatUser
    /** The life-cycle flag; true from construction until cleared. */
    var running: bool
    /** Stands for `dataOut != null`: the output stream has been opened. */
    var connected: bool
    /** Every observable action so far, oldest first. */
    var log: seq<Event>

    constructor (codec: Codec, user: string)
      ensures this.codec == codec && chatUser == ChatUser(user)
      ensures running && !connected && log == []
    {
      this.codec := codec;
      chatUser := ChatUser(user);
      running := true;
      connected := false;
      log := [];
    }

    method IsRunning() returns (r: bool)
      ensures r == running
    {
      r := running;
    }

    /** Changes the flag and nothing else, so repeating a call changes nothing more. */
    method SetRunning(running: bool)
      modifies this`running
      ensures this.running == running
    {
      this.running := running;
    }

    /** Writes one line, or nothing while the output stream is not open. */
    method SendMessageToServer(message: string)
      modifies this`log
      ensures log == old(log) + (if connected then [Sent(message)] else [])
    {
      if connected {
        log := log + [Sent(message)];
      }
    }

    /** One pass of the read loop's body, for a line that has been read. */
    method HandleLine(line: string)
      modifies this`log
      ensures log == old(log) + Dispatch(codec, line)
    {
      var found := Identify(line);
      if found.Some? {
        var t := found.value;
        log := log + t.Handle(codec, RemoveAll(line, t.MessageStart()));
      }
    }

    /**
     * The read loop of run(): while the flag is set, read a line and
     * dispatch it. The end of `inbound` stands for a read that fails;
     * `stopAfter` is the number of lines read before another thread's
     * setRunning(false) is observed.
     */
    method ReadLoop(inbound: seq<string>, stopAfter: nat)
      modifies this`running, this`log
      ensures log == old(log) + DispatchAll(codec, inbound[..Processed(old(running), inbound, stopAfter)])
      ensures running == (old(running) && stopAfter > |inbound|)
    {
      ghost var wasRunning := running;
      var i := 0;
      if i == stopAfter {
        SetRunning(false);
      }
      var r := IsRunning();
      while r
        invariant r == running
        invariant i <= |inbound|
        invariant running == (wasRunning && i < stopAfter)
        invariant wasRunning ==> i <= stopAfter
        invariant !wasRunning ==> i == 0
        invariant log == old(log) + DispatchAll(codec, inbound[..i])
        decreases |inbound| - i
      {
        if i == |inbound| {
          break;  // readUTF fails: the connection is gone
        }
        HandleLine(inbound[i]);
        DispatchAllSnoc(codec, inbound, i);
        assert old(log) + DispatchAll(codec, inbound[..i]) + Dispatch(codec, inbound[i])
            == old(log) + (DispatchAll(codec, inbound[..i]) + Dispatch(codec, inbound[i]));
        i := i + 1;
        if i == stopAfter {
          SetRunning(false);
        }
        r := IsRunning();
      }
      assert i == Processed(wasRunning, inbound, stopAfter);
    }

    /**
     * run(): connect; on failure clear the flag and report it; on success
     * report it, announce the user, run the read loop, then announce the
     * disconnect and notify. `connectOk` is whether the socket could be
     * opened.
     */
    method Run(connectOk: bool, inbound: seq<string>, stopAfter: nat)
      modifies this`running, this`connected, this`log
      ensures log == old(log) + Session(codec, chatUser, connectOk,
                                        inbound[..Processed(old(running), inbound, stopAfter)])
      ensures !connectOk ==> !running && connected == old(connected)
      ensures connectOk ==> connected && running == (old(running) && stopAfter > |inbound|)
    {
      if !connectOk {
        SetRunning(false);
        log := log + [FailedConnection];
        return;
      }
      ghost var lines := inbound[..Processed(running, inbound, stopAfter)];
      ghost var opening := [SuccessfulConnection(chatUser.name), Sent(Announcement(codec, CONNECTED, chatUser))];
      ghost var closing := [Sent(Announcement(codec, DISCONNECTED, chatUser)), Disconnected];
      ghost var d := DispatchAll(codec, lines);
      assert Session(codec, chatUser, true, lines) == opening + d + closing;

      connected := true;
      log := log + [SuccessfulConnection(chatUser.name)];
      SendMessageToServer(Announcement(codec, CONNECTED, chatUser));
      assert log == old(log) + opening;
      ReadLoop(inbound, stopAfter);
      assert log == old(log) + opening + d;
      SendMessageToServer(Announcement(codec, DISCONNECTED, chatUser));
      log := log + [Disconnected];
      assert log == old(log) + opening + d + closing;
      AppendAssoc(old(log), opening, d, closing);
    }
  }
}
