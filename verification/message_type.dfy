/**
 * The wire-tag table: three tags, each bound to a handler that parses the
 * rest of the line and fires at most one listener callback. Also the
 * string operations dispatch relies on: prefix matching (`<=` on sequences
 * is Java's startsWith) and Java's String.replace(tag, "").
 */
module MessageTypes {
  import opened Wrappers
  import opened Data

  /** The enum constants, in their declared order. */
  datatype MessageType = DISCONNECTED | CONNECTED | MESSAGE
  {
    /** getMessageStart: the tag the constant was declared with. */
    function MessageStart(): (tag: string)
      ensures |tag| > 2 && tag[0] == '$' && tag[1] == '('
      ensures forall k :: 0 < k < |tag| ==> tag[k] != '$'
    {
      match this
      case DISCONNECTED => "$(DISCONNECTED)"
      case CONNECTED => "$(CONNECTED)"
      case MESSAGE => "$(MESSAGE)"
    }

    /**
     * getHandler().sendMessage(listener, line): parse the payload; on
     * success fire exactly one callback carrying the parsed value, on
     * failure (null) fire nothing. Never a life-cycle callback, never a send.
     */
    function Handle(codec: Codec, line: string): (events: seq<Event>)
      ensures |events| <= 1
      ensures forall e :: e in events ==> e.IsRosterCallback()
      ensures this == DISCONNECTED ==>
        match codec.userFromString(line)
        case Some(u) => events == [PlayerLeft(u)]
        case None => events == []
      ensures this == CONNECTED ==>
        match codec.userFromString(line)
        case Some(u) => events == [PlayerJoined(u)]
        case None => events == []
      ensures this == MESSAGE ==>
        match codec.messageFromString(line)
        case Some(m) => events == [ChatMessage(m)]
        case None => events == []
    {
      match this
      case DISCONNECTED =>
        (match codec.userFromString(line)
         case Some(u) => [PlayerLeft(u)]
         case None => [])
      case CONNECTED =>
        (match codec.userFromString(line)
         case Some(u) => [PlayerJoined(u)]
         case None => [])
      case MESSAGE =>
        (match codec.messageFromString(line)
         case Some(m) => [ChatMessage(m)]
         case None => [])
    }
  }

  /** MessageType.values(): the table, in declared order; it never changes. */
  const Values: seq<MessageType> := [DISCONNECTED, CONNECTED, MESSAGE]

  /** The table lists every constant exactly once, with these tags. */
  lemma ValuesTable()
    ensures forall t: MessageType :: t in Values
    ensures |Values| == 3 && Values[0] != Values[1] && Values[1] != Values[2] && Values[0] != Values[2]
    ensures Values[0].MessageStart() == "$(DISCONNECTED)"
    ensures Values[1].MessageStart() == "$(CONNECTED)"
    ensures Values[2].MessageStart() == "$(MESSAGE)"
  {
    forall t: MessageType ensures t in Values {
      match t
      case DISCONNECTED => assert Values[0] == t;
      case CONNECTED => assert Values[1] == t;
      case MESSAGE => assert Values[2] == t;
    }
  }

  /** No tag is a prefix of another tag. */
  lemma TagsPrefixFree(a: MessageType, b: MessageType)
    requires a != b
    ensures !(a.MessageStart() <= b.MessageStart())
  {
    var ta, tb := a.MessageStart(), b.MessageStart();
    // Every pair differs at index 2 or 3, both within the shorter tag.
    match (a, b)
    case (DISCONNECTED, CONNECTED) => assert ta[2] != tb[2];
    case (DISCONNECTED, MESSAGE) => assert ta[2] != tb[2];
    case (CONNECTED, DISCONNECTED) => assert ta[2] != tb[2];
    case (CONNECTED, MESSAGE) => assert ta[2] != tb[2];
    case (MESSAGE, DISCONNECTED) => assert ta[2] != tb[2];
    case (MESSAGE, CONNECTED) => assert ta[2] != tb[2];
  }

  /** At most one tag is a prefix of any line. */
  lemma AtMostOneTag(line: string, a: MessageType, b: MessageType)
    requires a.MessageStart() <= line && b.MessageStart() <= line
    ensures a == b
  {
    var ta, tb := a.MessageStart(), b.MessageStart();
    if a != b {
      if |ta| <= |tb| {
        assert ta == line[..|ta|] == tb[..|ta|];
        assert ta <= tb;
        TagsPrefixFree(a, b);
      } else {
        assert tb == line[..|tb|] == ta[..|tb|];
        assert tb <= ta;
        TagsPrefixFree(b, a);
      }
    }
  }

  /** The first entry of `types` whose tag starts `line`, if any. */
  function FirstMatch(types: seq<MessageType>, line: string): (found: Option<MessageType>)
    ensures found.Some? ==> found.value in types && found.value.MessageStart() <= line
    ensures found.None? ==> forall t :: t in types ==> !(t.MessageStart() <= line)
  {
    if types == [] then None
    else if types[0].MessageStart() <= line then Some(types[0])
    else FirstMatch(types[1..], line)
  }

  /**
   * Since the tags are prefix-free, first-match dispatch picks the same
   * entry whatever order the table lists the constants in.
   */
  lemma FirstMatchOrderIrrelevant(types: seq<MessageType>, line: string)
    requires forall t: MessageType :: t in types
    ensures FirstMatch(types, line) == FirstMatch(Values, line)
  {
    ValuesTable();
    var x, y := FirstMatch(types, line), FirstMatch(Values, line);
    if x.Some? {
      assert x.value in Values;
      AtMostOneTag(line, x.value, y.value);
    }
  }

  /** s[i..] begins with t. */
  predicate OccursAt(s: string, t: string, i: nat) {
    i + |t| <= |s| && s[i..i + |t|] == t
  }

  /** t occurs somewhere in s. */
  predicate Contains(s: string, t: string) {
    exists i: nat | i <= |s| :: OccursAt(s, t, i)
  }

  /**
   * Java's s.replace(target, ""): scanning left to right, every
   * non-overlapping occurrence of target is dropped. With an empty target
   * Java returns s unchanged.
   */
  function RemoveAll(s: string, target: string): (r: string)
    ensures |r| <= |s|
    decreases |s|
  {
    if |target| == 0 || |s| < |target| then s
    else if target <= s then RemoveAll(s[|target|..], target)
    else [s[0]] + RemoveAll(s[1..], target)
  }

  /** An occurrence inside s[1..] is an occurrence inside s, one further on. */
  lemma OccursInTail(s: string, t: string, i: nat)
    requires |s| > 0
    ensures OccursAt(s[1..], t, i) <==> OccursAt(s, t, i + 1)
  {
  }

  /** Where the target does not occur, replace changes nothing. */
  lemma {:induction false} RemoveAllNoMatch(s: string, t: string)
    requires |t| > 0 && !Contains(s, t)
    ensures RemoveAll(s, t) == s
  {
    if |s| >= |t| {
      assert !OccursAt(s, t, 0);
      assert s[..|t|] == s[0..0 + |t|];
      forall i: nat ensures !OccursAt(s[1..], t, i) {
        OccursInTail(s, t, i);
      }
      RemoveAllNoMatch(s[1..], t);
      assert [s[0]] + s[1..] == s;
    }
  }

  /** Where the target occurs, replace makes the string strictly shorter. */
  lemma {:induction false} RemoveAllShrinks(s: string, t: string)
    requires |t| > 0 && Contains(s, t)
    ensures |RemoveAll(s, t)| < |s|
  {
    var i: nat :| OccursAt(s, t, i);
    if !(t <= s) {
      assert s[0..|t|] == s[..|t|];
      assert i > 0;
      OccursInTail(s, t, i - 1);
      RemoveAllShrinks(s[1..], t);
    }
  }

  /** Both directions: replace is the identity exactly when the target is absent. */
  lemma RemoveAllIdentity(s: string, t: string)
    requires |t| > 0
    ensures RemoveAll(s, t) == s <==> !Contains(s, t)
  {
    if Contains(s, t) {
      RemoveAllShrinks(s, t);
    } else {
      RemoveAllNoMatch(s, t);
    }
  }

  /**
   * A tag cannot occur straddling its own end and the payload after it:
   * every tag starts with '$' and holds no other '$'. So in `tag + p`
   * every occurrence of the tag other than the leading one lies wholly
   * inside p, whether or not replace consumes the leading tag first.
   * RemainderOfFramedLine below does not depend on this: replace consumes
   * the leading tag and scans on from its end.
   */
  lemma NoStraddle(m: MessageType, p: string, i: nat)
    requires 0 < i < |m.MessageStart()|
    ensures !OccursAt(m.MessageStart() + p, m.MessageStart(), i)
  {
  }

  /**
   * The remainder handed to a handler for `tag + p` is `p` exactly when
   * the tag does not occur in p; otherwise part of the payload is lost.
   */
  lemma RemainderOfFramedLine(m: MessageType, p: string)
    ensures RemoveAll(m.MessageStart() + p, m.MessageStart()) == RemoveAll(p, m.MessageStart())
    ensures RemoveAll(m.MessageStart() + p, m.MessageStart()) == p <==> !Contains(p, m.MessageStart())
  {
    var tag := m.MessageStart();
    assert tag <= tag + p;
    assert (tag + p)[|tag|..] == p;
    RemoveAllIdentity(p, tag);
  }
}
