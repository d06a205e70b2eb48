/**
 * The binary-protocol server: the in-memory account, session and
 * conversation stores, and what the per-connection handler does with each
 * decoded request frame. Request fields are read with the codec's unpack
 * functions; every reply is one encoded frame.
 */
module ServerCustom {
  import opened Wrappers
  import opened Bytes
  import opened Seqs
  import opened Pairs
  import opened PyText
  import opened DataStore
  import opened ProtocolCustom
  import opened ClientCustom

  /** Usernames, as the UTF-8 bytes the client packed. */
  type Name = seq<byte>

  /** Stands for a connection object; `active_users` maps a name to one. */
  type ConnId = nat

  /** An undelivered message in a user's inbox: `(sender, message)`. */
  type Pending = (Name, seq<byte>)

  /** `users[name]`: the password hash and the inbox. */
  datatype Account = Account(password: seq<byte>, messages: seq<Pending>)

  /** One entry of a conversation history. */
  datatype ConvEntry = ConvEntry(sender: Name, message: seq<byte>, timestamp: string)

  /** A frame handed to `sendall` on connection `conn`. */
  datatype Frame = Frame(conn: ConnId, cmd: byte, payload: seq<byte>)

  /**
   * How a handler step ends: keep serving, wait for the client's
   * acknowledgement frame after a read, leave the loop on `CMD_CLOSE`, or
   * leave it because an exception was raised (the connection is closed).
   */
  datatype Status = Continue | AwaitAck | Close | Raised

  const STAR: byte := 42
  const QUESTION: byte := 63
  const COMMA: byte := 44

  const USERNAME_MISSING := Ascii("Username does not exist")
  const INCORRECT_PASSWORD := Ascii("Incorrect password")
  const LOGIN_OK := Ascii("Login successful. Unread messages: ")
  const USERNAME_TAKEN := Ascii("Username already exists")
  const ACCOUNT_CREATED := Ascii("Account created")
  const RECIPIENT_MISSING := Ascii("Recipient not found")
  const MESSAGE_SENT := Ascii("Message sent")
  const NO_MESSAGES := Ascii("NO_MESSAGES")
  const END_OF_MESSAGES := Ascii("END_OF_MESSAGES")
  const USER_NOT_FOUND := Ascii("User not found")
  const MESSAGES_DELETED := Ascii("Specified messages deleted")
  const NO_MATCHING_USERS := Ascii("No matching users")
  const USER_MISSING := Ascii("User does not exist")
  const UNDELIVERED := Ascii("Undelivered messages exist")
  const ACCOUNT_DELETED := Ascii("Account deleted")
  const LOGGED_OFF := Ascii("User logged off")
  const UNKNOWN_COMMAND := Ascii("Unknown command")

  /** The message text one decimal number long: `f"...{n}"`. */
  function DecimalBytes(n: nat): (r: seq<byte>)
    ensures |r| == |Decimal(n)|
  {
    var d := Decimal(n);
    assert forall i :: 0 <= i < |d| ==> IsDigit(d[i]);
    Ascii(d)
  }

  /** A reply whose payload is one short string. */
  function ShortFrame(conn: ConnId, cmd: byte, text: seq<byte>): (f: Frame)
    requires |text| <= 255
    ensures |f.payload| <= 65535
  {
    Frame(conn, cmd, PackShortString(text).value)
  }

  /** A reply whose payload is one long string. */
  function LongFrame(conn: ConnId, cmd: byte, text: seq<byte>): (f: Frame)
    requires |text| <= 65533
    ensures |f.payload| <= 65535
  {
    Frame(conn, cmd, PackLongString(text).value)
  }

  /** Every frame fits the 2-byte length field, so `encode_message` accepts it. */
  predicate Encodable(frames: seq<Frame>)
  {
    forall i :: 0 <= i < |frames| ==> |frames[i].payload| <= 65535
  }

  /** The login and create payload: a username and a password, both short strings. */
  function ParseTwoShort(payload: seq<byte>): (r: Result<(Name, seq<byte>), CodecError>)
    ensures r.Ok? <==> |payload| > 0 && 1 + payload[0] < |payload|
    ensures r.Ok? ==> |r.value.0| <= 255 && |r.value.1| <= 255
  {
    match UnpackShortString(payload, 0)
    case Err(e) => Err(e)
    case Ok((a, offset)) =>
      match UnpackShortString(payload, offset)
      case Err(e) => Err(e)
      case Ok((b, _)) => Ok((a, b))
  }

  /** The send payload: sender and recipient as short strings, the message as a long string. */
  function ParseSend(payload: seq<byte>): (r: Result<(Name, Name, seq<byte>), CodecError>)
    ensures r.Ok? ==> |r.value.0| <= 255 && |r.value.1| <= 255 && |r.value.2| <= 65535
    ensures r.Ok? <==> ParseTwoShort(payload).Ok? && 2 + payload[0] + payload[1 + payload[0]] + 2 <= |payload|
  {
    match UnpackShortString(payload, 0)
    case Err(e) => Err(e)
    case Ok((sender, o1)) =>
      match UnpackShortString(payload, o1)
      case Err(e) => Err(e)
      case Ok((recipient, o2)) =>
        match UnpackLongString(payload, o2)
        case Err(e) => Err(e)
        case Ok((message, _)) => Ok((sender, recipient, message))
  }

  /**
   * The read payload: the username, then the limit byte when one is present
   * right after the declared username; without it the limit is 0.
   */
  function ParseRead(payload: seq<byte>): (r: Result<(Name, byte), CodecError>)
    ensures r.Ok? <==> |payload| > 0
    ensures r.Ok? ==> r.value.1 == if 1 + payload[0] < |payload| then payload[1 + payload[0]] else 0
  {
    match UnpackShortString(payload, 0)
    case Err(e) => Err(e)
    case Ok((username, offset)) =>
      Ok((username, if offset < |payload| then payload[offset] else 0))
  }

  /**
   * The delete payload: the username, a count byte, then that many index
   * bytes. Every one of those count bytes must be present.
   */
  function DeleteMsgRequest(payload: seq<byte>): (r: Result<(Name, seq<byte>), CodecError>)
    ensures r.Ok? <==> |payload| > 0 && 1 + payload[0] < |payload| && 2 + payload[0] + payload[1 + payload[0]] <= |payload|
    ensures r.Ok? ==> |r.value.1| == payload[1 + payload[0]]
    ensures r.Ok? ==> r.value.1 == payload[2 + payload[0]..2 + payload[0] + |r.value.1|]
  {
    match UnpackShortString(payload, 0)
    case Err(e) => Err(e)
    case Ok((username, offset)) =>
      if offset >= |payload| then Err(BufferTooShort)
      else
        var count := payload[offset];
        if offset + 1 + count > |payload| then Err(BufferTooShort)
        else Ok((username, payload[offset + 1..offset + 1 + count]))
  }

  /** The delete branch's loop: read one index byte per declared entry. */
  method ParseDeleteMsg(payload: seq<byte>) returns (r: Result<(Name, seq<byte>), CodecError>)
    ensures r == DeleteMsgRequest(payload)
  {
    var head := UnpackShortString(payload, 0);
    if head.Err? {
      return Err(head.error);
    }
    var username := head.value.0;
    var start := head.value.1;
    if start >= |payload| {
      return Err(BufferTooShort);
    }
    var count := payload[start];
    var offset := start + 1;
    var indices: seq<byte> := [];
    for i := 0 to count
      invariant offset == start + 1 + i && offset <= |payload|
      invariant indices == payload[start + 1..offset]
    {
      if offset >= |payload| {
        return Err(BufferTooShort);
      }
      indices := indices + [payload[offset]];
      offset := offset + 1;
    }
    return Ok((username, indices));
  }

  /**
   * The payload that carries one stored message to a client: the sender as
   * a short string, then the text as a long string; `None` where packing or
   * `encode_message` raises.
   */
  function MessagePayload(m: Pending): (r: Option<seq<byte>>)
    ensures r.Some? <==> |m.0| <= 255 && 3 + |m.0| + |m.1| <= 65535
    ensures r.Some? ==> |r.value| == 3 + |m.0| + |m.1|
  {
    var p := Append(PackShortString(m.0), PackLongString(m.1));
    if p.Ok? && |p.value| <= 65535 then Some(p.value) else None
  }

  /**
   * The frames the read loop sends for `msgs`: one per message, in order,
   * up to the first one that cannot be sent.
   */
  function MessageFrames(conn: ConnId, msgs: seq<Pending>): (r: seq<Frame>)
    ensures Encodable(r)
  {
    if msgs == [] then []
    else
      match MessagePayload(msgs[0])
      case None => []
      case Some(p) => [Frame(conn, CMD_READ, p)] + MessageFrames(conn, msgs[1..])
  }

  /**
   * The read loop's frames are the messages in inbox order, one frame each,
   * stopping exactly at the first message that cannot be sent.
   */
  lemma {:induction false} MessageFramesInOrder(conn: ConnId, msgs: seq<Pending>)
    ensures |MessageFrames(conn, msgs)| <= |msgs|
    ensures forall i :: 0 <= i < |MessageFrames(conn, msgs)| ==>
      MessagePayload(msgs[i]).Some? && MessageFrames(conn, msgs)[i] == Frame(conn, CMD_READ, MessagePayload(msgs[i]).value)
    ensures |MessageFrames(conn, msgs)| < |msgs| ==> MessagePayload(msgs[|MessageFrames(conn, msgs)|]).None?
    ensures |MessageFrames(conn, msgs)| == |msgs| <==> AllDeliverable(msgs)
  {
    MessageFramesPrefix(conn, msgs);
    if |MessageFrames(conn, msgs)| < |msgs| {
      assert !AllDeliverable(msgs) by {
        assert MessagePayload(msgs[|MessageFrames(conn, msgs)|]).None?;
      }
    }
  }

  /** The frames stand for the first messages, one each, up to the first that cannot be sent. */
  lemma {:induction false} MessageFramesPrefix(conn: ConnId, msgs: seq<Pending>)
    ensures |MessageFrames(conn, msgs)| <= |msgs|
    ensures forall i :: 0 <= i < |MessageFrames(conn, msgs)| ==>
      MessagePayload(msgs[i]).Some? && MessageFrames(conn, msgs)[i] == Frame(conn, CMD_READ, MessagePayload(msgs[i]).value)
    ensures |MessageFrames(conn, msgs)| < |msgs| ==> MessagePayload(msgs[|MessageFrames(conn, msgs)|]).None?
  {
    if msgs != [] && MessagePayload(msgs[0]).Some? {
      MessageFramesPrefix(conn, msgs[1..]);
      assert forall i :: 1 <= i < |msgs| ==> msgs[i] == msgs[1..][i - 1];
    }
  }

  predicate AllDeliverable(msgs: seq<Pending>)
  {
    forall i :: 0 <= i < |msgs| ==> MessagePayload(msgs[i]).Some?
  }

  /**
   * `for sender, msg_text in msgs_to_send: conn.sendall(...)`: the frames
   * sent before the loop ends, and whether it ended without raising.
   */
  method SendMessages(conn: ConnId, msgs: seq<Pending>) returns (frames: seq<Frame>, complete: bool)
    ensures frames == MessageFrames(conn, msgs)
    ensures complete <==> AllDeliverable(msgs)
  {
    frames := [];
    for k := 0 to |msgs|
      invariant AllDeliverable(msgs[..k])
      invariant frames + MessageFrames(conn, msgs[k..]) == MessageFrames(conn, msgs)
    {
      var p := MessagePayload(msgs[k]);
      MessageFramesFrom(conn, msgs, k);
      if p.None? {
        assert frames + [] == frames;
        assert !AllDeliverable(msgs) by {
          assert MessagePayload(msgs[k]).None?;
        }
        return frames, false;
      }
      assert msgs[..k + 1] == msgs[..k] + [msgs[k]];
      frames := frames + [Frame(conn, CMD_READ, p.value)];
    }
    assert msgs[..|msgs|] == msgs;
    return frames, true;
  }

  /** One step of `MessageFrames` at position `k`. */
  lemma MessageFramesFrom(conn: ConnId, msgs: seq<Pending>, k: nat)
    requires k < |msgs|
    ensures MessagePayload(msgs[k]).None? ==> MessageFrames(conn, msgs[k..]) == []
    ensures MessagePayload(msgs[k]).Some? ==>
      MessageFrames(conn, msgs[k..]) == [Frame(conn, CMD_READ, MessagePayload(msgs[k]).value)] + MessageFrames(conn, msgs[k + 1..])
  {
    assert msgs[k..][0] == msgs[k];
    assert msgs[k..][1..] == msgs[k + 1..];
  }

  /** `msgs[:limit]` and what stays in the inbox: a limit of 0 takes everything. */
  function TakeMessages(msgs: seq<Pending>, limit: byte): (r: (seq<Pending>, seq<Pending>))
    ensures r.0 + r.1 == msgs
    ensures limit == 0 ==> r.1 == []
    ensures limit > 0 ==> |r.0| == Min(limit, |msgs|)
  {
    if limit > 0 then (msgs[..Min(limit, |msgs|)], msgs[Min(limit, |msgs|)..]) else (msgs, [])
  }

  /** The text of the search reply: the matches joined by commas, or a fixed notice. */
  function SearchText(matches: seq<Name>): (r: seq<byte>)
    ensures matches == [] ==> r == NO_MATCHING_USERS
    ensures matches != [] ==> Split(r, COMMA) == matches || exists k :: 0 <= k < |matches| && COMMA in matches[k]
  {
    if matches == [] then NO_MATCHING_USERS
    else
      var r := Join(matches, COMMA);
      if forall k :: 0 <= k < |matches| ==> COMMA !in matches[k] then
        SplitOfJoin(matches, COMMA);
        r
      else r
  }

  /** What the handlers read and change: the fields of the server module, as one value. */
  datatype Store = Store(names: seq<Name>, users: map<Name, Account>, activeUsers: map<Name, ConnId>,
                         conversations: map<(Name, Name), seq<ConvEntry>>)

  class CustomServer {
    /** `hashlib.sha256(password).hexdigest()`, as bytes. */
    const hash: seq<byte> -> seq<byte>
    /** `str(conv)`: the printed form of a conversation history, as bytes. */
    const render: seq<ConvEntry> -> seq<byte>

    /** The keys of `users`, in insertion order. */
    var names: seq<Name>
    var users: map<Name, Account>
    var activeUsers: map<Name, ConnId>
    var conversations: map<(Name, Name), seq<ConvEntry>>

    ghost predicate Valid()
      reads this
    {
      && Distinct(names)
      && (forall n :: n in names <==> n in users)
      && activeUsers.Keys <= users.Keys
      && (forall k :: k in conversations ==> LexLe(k.0, k.1, ByteRank))
    }

    /** The current contents of the stores. */
    function Snap(): Store
      reads this
    {
      Store(names, users, activeUsers, conversations)
    }

    constructor (hash: seq<byte> -> seq<byte>, render: seq<ConvEntry> -> seq<byte>)
      ensures Valid()
      ensures this.hash == hash && this.render == render
      ensures Snap() == Store([], map[], map[], map[])
    {
      this.hash := hash;
      this.render := render;
      names := [];
      users := map[];
      activeUsers := map[];
      conversations := map[];
    }

    /**
     * `CMD_LOGIN` from `s0` to `s1`: unknown name, wrong password, or the
     * connection becomes the user's session and the reply reports the
     * number of unread messages. A second login simply replaces the
     * session. A payload without both strings raises.
     */
    predicate LoginSpec(s0: Store, s1: Store, conn: ConnId, payload: seq<byte>, st: Status, sent: seq<Frame>)
    {
      match ParseTwoShort(payload)
      case Err(_) => st == Raised && sent == [] && s1 == s0
      case Ok((u, pw)) =>
        if u !in s0.users then
          st == Continue && sent == [ShortFrame(conn, CMD_LOGIN, USERNAME_MISSING)] && s1 == s0
        else if s0.users[u].password != hash(pw) then
          st == Continue && sent == [ShortFrame(conn, CMD_LOGIN, INCORRECT_PASSWORD)] && s1 == s0
        else
          var text := LOGIN_OK + DecimalBytes(|s0.users[u].messages|);
          && s1 == s0.(activeUsers := s0.activeUsers[u := conn])
          && (|text| <= 255 ==> st == Continue && sent == [ShortFrame(conn, CMD_LOGIN, text)])
          && (|text| > 255 ==> st == Raised && sent == [])
    }

    method Login(conn: ConnId, payload: seq<byte>) returns (st: Status, sent: seq<Frame>)
      requires Valid()
      modifies this
      ensures Valid() && Encodable(sent)
      ensures LoginSpec(old(Snap()), Snap(), conn, payload, st, sent)
    {
      var p := ParseTwoShort(payload);
      if p.Err? {
        return Raised, [];
      }
      var (u, pw) := p.value;
      if u !in users {
        return Continue, [ShortFrame(conn, CMD_LOGIN, USERNAME_MISSING)];
      }
      if users[u].password != hash(pw) {
        return Continue, [ShortFrame(conn, CMD_LOGIN, INCORRECT_PASSWORD)];
      }
      activeUsers := activeUsers[u := conn];
      var text := LOGIN_OK + DecimalBytes(|users[u].messages|);
      if |text| > 255 {
        return Raised, [];
      }
      return Continue, [ShortFrame(conn, CMD_LOGIN, text)];
    }

    /** `CMD_CREATE`: a new name gets an account with the hashed password and an empty inbox; a taken one is refused. */
    predicate CreateSpec(s0: Store, s1: Store, conn: ConnId, payload: seq<byte>, st: Status, sent: seq<Frame>)
    {
      match ParseTwoShort(payload)
      case Err(_) => st == Raised && sent == [] && s1 == s0
      case Ok((u, pw)) =>
        && st == Continue
        && if u in s0.users then sent == [ShortFrame(conn, CMD_CREATE, USERNAME_TAKEN)] && s1 == s0
           else
             && sent == [ShortFrame(conn, CMD_CREATE, ACCOUNT_CREATED)]
             && s1 == s0.(names := s0.names + [u], users := s0.users[u := Account(hash(pw), [])])
    }

    method Create(conn: ConnId, payload: seq<byte>) returns (st: Status, sent: seq<Frame>)
      requires Valid()
      modifies this
      ensures Valid() && Encodable(sent)
      ensures CreateSpec(old(Snap()), Snap(), conn, payload, st, sent)
    {
      var p := ParseTwoShort(payload);
      if p.Err? {
        return Raised, [];
      }
      var (u, pw) := p.value;
      if u in users {
        return Continue, [ShortFrame(conn, CMD_CREATE, USERNAME_TAKEN)];
      }
      users := users[u := Account(hash(pw), [])];
      names := names + [u];
      return Continue, [ShortFrame(conn, CMD_CREATE, ACCOUNT_CREATED)];
    }

    /**
     * `CMD_SEND`: the message is appended to the conversation of the two
     * names first, whether or not the recipient exists. A logged-in
     * recipient gets it pushed as a read frame; when that push cannot be
     * encoded or `pushFails` (its `sendall` raised), and when the recipient
     * is not logged in, it goes to the recipient's inbox instead.
     */
    predicate SendSpec(s0: Store, s1: Store, conn: ConnId, payload: seq<byte>, timestamp: string, pushFails: bool,
                       st: Status, sent: seq<Frame>)
    {
      match ParseSend(payload)
      case Err(_) => st == Raised && sent == [] && s1 == s0
      case Ok((sender, recipient, message)) =>
        var key := SortedPair(sender, recipient, ByteRank);
        var history := if key in s0.conversations then s0.conversations[key] else [];
        var recorded := s0.(conversations := s0.conversations[key := history + [ConvEntry(sender, message, timestamp)]]);
        var push := MessagePayload((sender, message));
        && st == Continue
        && if recipient !in s0.users then sent == [ShortFrame(conn, CMD_SEND, RECIPIENT_MISSING)] && s1 == recorded
           else if recipient in s0.activeUsers && push.Some? && !pushFails then
             && sent == [Frame(s0.activeUsers[recipient], CMD_READ, push.value), ShortFrame(conn, CMD_SEND, MESSAGE_SENT)]
             && s1 == recorded
           else
             var inbox := s0.users[recipient].messages + [(sender, message)];
             && sent == [ShortFrame(conn, CMD_SEND, MESSAGE_SENT)]
             && s1 == recorded.(users := s0.users[recipient := s0.users[recipient].(messages := inbox)])
    }

    method Send(conn: ConnId, payload: seq<byte>, timestamp: string, pushFails: bool) returns (st: Status, sent: seq<Frame>)
      requires Valid()
      modifies this
      ensures Valid() && Encodable(sent)
      ensures SendSpec(old(Snap()), Snap(), conn, payload, timestamp, pushFails, st, sent)
    {
      var p := ParseSend(payload);
      if p.Err? {
        return Raised, [];
      }
      var (sender, recipient, message) := p.value;
      Record(sender, recipient, ConvEntry(sender, message, timestamp));
      if recipient !in users {
        return Continue, [ShortFrame(conn, CMD_SEND, RECIPIENT_MISSING)];
      }
      sent := Deliver(recipient, (sender, message), pushFails);
      return Continue, sent + [ShortFrame(conn, CMD_SEND, MESSAGE_SENT)];
    }

    /** The entry goes at the end of the conversation of the two names, which starts empty. */
    method Record(a: Name, b: Name, e: ConvEntry)
      requires Valid()
      modifies this`conversations
      ensures Valid()
      ensures var key := SortedPair(a, b, ByteRank);
        conversations == old(conversations)[key := (if key in old(conversations) then old(conversations)[key] else []) + [e]]
    {
      ghost var ns, us, active := names, users, activeUsers;
      assert Distinct(ns) && (forall n :: n in ns <==> n in us) && active.Keys <= us.Keys;
      var key := SortedPair(a, b, ByteRank);
      var history := if key in conversations then conversations[key] else [];
      conversations := conversations[key := history + [e]];
      assert names == ns && users == us && activeUsers == active;
    }

    /** A message for a registered recipient: pushed to its connection when it is logged in and the push goes out, queued in its inbox otherwise. */
    method Deliver(recipient: Name, m: Pending, pushFails: bool) returns (sent: seq<Frame>)
      requires Valid() && recipient in users
      modifies this`users
      ensures Valid() && Encodable(sent)
      ensures var push := MessagePayload(m);
        if recipient in activeUsers && push.Some? && !pushFails then
          sent == [Frame(activeUsers[recipient], CMD_READ, push.value)] && users == old(users)
        else
          sent == [] && users == old(users)[recipient := old(users)[recipient].(messages := old(users)[recipient].messages + [m])]
    {
      if recipient in activeUsers {
        var push := MessagePayload(m);
        if push.Some? && !pushFails {
          return [Frame(activeUsers[recipient], CMD_READ, push.value)];
        }
      }
      users := users[recipient := users[recipient].(messages := users[recipient].messages + [m])];
      return [];
    }

    /**
     * `CMD_READ`: take `limit` messages from the inbox (all of them for 0)
     * and send them one frame each, then an end marker; with nothing to
     * send, a single "NO_MESSAGES" frame. The handler then waits for the
     * client's acknowledgement. An unknown name raises `KeyError` before
     * anything is sent; a message that cannot be encoded raises after the
     * frames before it.
     */
    predicate ReadSpec(s0: Store, s1: Store, conn: ConnId, payload: seq<byte>, st: Status, sent: seq<Frame>)
    {
      match ParseRead(payload)
      case Err(_) => st == Raised && sent == [] && s1 == s0
      case Ok((u, limit)) =>
        if u !in s0.users then st == Raised && sent == [] && s1 == s0
        else
          var (toSend, keep) := TakeMessages(s0.users[u].messages, limit);
          && s1 == s0.(users := s0.users[u := s0.users[u].(messages := keep)])
          && if toSend == [] then st == AwaitAck && sent == [LongFrame(conn, CMD_READ, NO_MESSAGES)]
             else if AllDeliverable(toSend) then
               st == AwaitAck && sent == MessageFrames(conn, toSend) + [LongFrame(conn, CMD_READ, END_OF_MESSAGES)]
             else st == Raised && sent == MessageFrames(conn, toSend)
    }

    method Read(conn: ConnId, payload: seq<byte>) returns (st: Status, sent: seq<Frame>)
      requires Valid()
      modifies this
      ensures Valid() && Encodable(sent)
      ensures ReadSpec(old(Snap()), Snap(), conn, payload, st, sent)
    {
      var p := ParseRead(payload);
      if p.Err? {
        return Raised, [];
      }
      var (u, limit) := p.value;
      if u !in users {
        return Raised, [];
      }
      var (toSend, keep) := TakeMessages(users[u].messages, limit);
      users := users[u := users[u].(messages := keep)];
      if toSend == [] {
        return AwaitAck, [LongFrame(conn, CMD_READ, NO_MESSAGES)];
      }
      var frames, complete := SendMessages(conn, toSend);
      if !complete {
        return Raised, frames;
      }
      return AwaitAck, frames + [LongFrame(conn, CMD_READ, END_OF_MESSAGES)];
    }

    /**
     * `CMD_VIEW_CONV` in state `s0`: the printed conversation of the two
     * names, or "User not found" when the other name is unknown. A history
     * whose printed form does not fit a long string in one frame raises.
     */
    predicate ViewConvSpec(s0: Store, conn: ConnId, payload: seq<byte>, st: Status, sent: seq<Frame>)
    {
      match ParseTwoShort(payload)
      case Err(_) => st == Raised && sent == []
      case Ok((u, other)) =>
        var key := SortedPair(u, other, ByteRank);
        var text := render(if key in s0.conversations then s0.conversations[key] else []);
        if other !in s0.users then st == Continue && sent == [ShortFrame(conn, CMD_VIEW_CONV, USER_NOT_FOUND)]
        else if |text| <= 65533 then st == Continue && sent == [LongFrame(conn, CMD_VIEW_CONV, text)]
        else st == Raised && sent == []
    }

    method ViewConv(conn: ConnId, payload: seq<byte>) returns (st: Status, sent: seq<Frame>)
      requires Valid()
      modifies {}
      ensures Encodable(sent)
      ensures ViewConvSpec(Snap(), conn, payload, st, sent)
    {
      var p := ParseTwoShort(payload);
      if p.Err? {
        return Raised, [];
      }
      var (u, other) := p.value;
      if other !in users {
        return Continue, [ShortFrame(conn, CMD_VIEW_CONV, USER_NOT_FOUND)];
      }
      var key := SortedPair(u, other, ByteRank);
      var text := render(if key in conversations then conversations[key] else []);
      if |text| > 65533 {
        return Raised, [];
      }
      return Continue, [LongFrame(conn, CMD_VIEW_CONV, text)];
    }

    /**
     * `CMD_DELETE_MSG`: drop the inbox messages at the listed positions; an
     * unknown name changes nothing. The reply is the same either way.
     */
    predicate DeleteMsgSpec(s0: Store, s1: Store, conn: ConnId, payload: seq<byte>, st: Status, sent: seq<Frame>)
    {
      match DeleteMsgRequest(payload)
      case Err(_) => st == Raised && sent == [] && s1 == s0
      case Ok((u, indices)) =>
        && st == Continue && sent == [ShortFrame(conn, CMD_DELETE_MSG, MESSAGES_DELETED)]
        && s1 == if u in s0.users then s0.(users := s0.users[u := s0.users[u].(messages := DropPositions(s0.users[u].messages, indices))])
                 else s0
    }

    method DeleteMsg(conn: ConnId, payload: seq<byte>) returns (st: Status, sent: seq<Frame>)
      requires Valid()
      modifies this
      ensures Valid() && Encodable(sent)
      ensures DeleteMsgSpec(old(Snap()), Snap(), conn, payload, st, sent)
    {
      var p := ParseDeleteMsg(payload);
      if p.Err? {
        return Raised, [];
      }
      var (u, indices) := p.value;
      if u in users {
        users := users[u := users[u].(messages := DropPositions(users[u].messages, indices))];
      }
      return Continue, [ShortFrame(conn, CMD_DELETE_MSG, MESSAGES_DELETED)];
    }

    /** `get_matching_users(wildcard)`: the registered names the pattern matches, in registration order. */
    function MatchingNames(wildcard: seq<byte>): (r: seq<Name>)
      reads this
      requires Valid()
      ensures forall i :: 0 <= i < |r| ==> r[i] in users && GlobMatch(wildcard, r[i], STAR, QUESTION)
      ensures forall n :: n in users && GlobMatch(wildcard, n, STAR, QUESTION) ==> n in r
      ensures IsSubsequence(r, names) && Distinct(r)
    {
      var r := MatchingUsers(names, wildcard, STAR, QUESTION);
      SubsequenceDistinct(r, names);
      r
    }

    /** `CMD_SEARCH_USERS` in state `s0`: the matching names joined by commas, or "No matching users". */
    predicate SearchUsersSpec(s0: Store, conn: ConnId, payload: seq<byte>, st: Status, sent: seq<Frame>)
    {
      match UnpackShortString(payload, 0)
      case Err(_) => st == Raised && sent == []
      case Ok((wildcard, _)) =>
        var text := SearchText(MatchingUsers(s0.names, wildcard, STAR, QUESTION));
        if |text| <= 65533 then st == Continue && sent == [LongFrame(conn, CMD_SEARCH_USERS, text)]
        else st == Raised && sent == []
    }

    method SearchUsers(conn: ConnId, payload: seq<byte>) returns (st: Status, sent: seq<Frame>)
      requires Valid()
      modifies {}
      ensures Encodable(sent)
      ensures SearchUsersSpec(Snap(), conn, payload, st, sent)
    {
      var p := UnpackShortString(payload, 0);
      if p.Err? {
        return Raised, [];
      }
      var text := SearchText(MatchingNames(p.value.0));
      if |text| > 65533 {
        return Raised, [];
      }
      return Continue, [LongFrame(conn, CMD_SEARCH_USERS, text)];
    }

    /**
     * `CMD_DELETE_ACC`: refused for an unknown name and while the inbox holds
     * undelivered messages; otherwise the account and its session go.
     * Conversation histories stay.
     */
    predicate DeleteAccountSpec(s0: Store, s1: Store, conn: ConnId, payload: seq<byte>, st: Status, sent: seq<Frame>)
    {
      match UnpackShortString(payload, 0)
      case Err(_) => st == Raised && sent == [] && s1 == s0
      case Ok((u, _)) =>
        && st == Continue
        && if u !in s0.users then sent == [ShortFrame(conn, CMD_DELETE_ACC, USER_MISSING)] && s1 == s0
           else if |s0.users[u].messages| > 0 then sent == [ShortFrame(conn, CMD_DELETE_ACC, UNDELIVERED)] && s1 == s0
           else
             && sent == [ShortFrame(conn, CMD_DELETE_ACC, ACCOUNT_DELETED)]
             && s1 == s0.(names := Remove(s0.names, u), users := s0.users - {u}, activeUsers := s0.activeUsers - {u})
    }

    method DeleteAccount(conn: ConnId, payload: seq<byte>) returns (st: Status, sent: seq<Frame>)
      requires Valid()
      modifies this
      ensures Valid() && Encodable(sent)
      ensures DeleteAccountSpec(old(Snap()), Snap(), conn, payload, st, sent)
    {
      var p := UnpackShortString(payload, 0);
      if p.Err? {
        return Raised, [];
      }
      var u := p.value.0;
      if u !in users {
        return Continue, [ShortFrame(conn, CMD_DELETE_ACC, USER_MISSING)];
      }
      if |users[u].messages| > 0 {
        return Continue, [ShortFrame(conn, CMD_DELETE_ACC, UNDELIVERED)];
      }
      Unregister(u);
      return Continue, [ShortFrame(conn, CMD_DELETE_ACC, ACCOUNT_DELETED)];
    }

    /** The name leaves the list, the accounts and the sessions; the conversations stay. */
    method Unregister(u: Name)
      requires Valid() && u in users
      modifies this`names, this`users, this`activeUsers
      ensures Valid()
      ensures Snap() == Store(Remove(old(names), u), old(users) - {u}, old(activeUsers) - {u}, conversations)
    {
      ghost var convs := conversations;
      assert forall k :: k in convs ==> LexLe(k.0, k.1, ByteRank);
      RemoveKey(names, users, u);
      names, users, activeUsers := Remove(names, u), users - {u}, activeUsers - {u};
      assert conversations == convs;
    }

    /** `CMD_LOGOFF`: the name's session ends, if it has one; the reply is the same either way. */
    predicate LogoffSpec(s0: Store, s1: Store, conn: ConnId, payload: seq<byte>, st: Status, sent: seq<Frame>)
    {
      match UnpackShortString(payload, 0)
      case Err(_) => st == Raised && sent == [] && s1 == s0
      case Ok((u, _)) =>
        st == Continue && sent == [ShortFrame(conn, CMD_LOGOFF, LOGGED_OFF)] && s1 == s0.(activeUsers := s0.activeUsers - {u})
    }

    method Logoff(conn: ConnId, payload: seq<byte>) returns (st: Status, sent: seq<Frame>)
      requires Valid()
      modifies this
      ensures Valid() && Encodable(sent)
      ensures LogoffSpec(old(Snap()), Snap(), conn, payload, st, sent)
    {
      var p := UnpackShortString(payload, 0);
      if p.Err? {
        return Raised, [];
      }
      activeUsers := activeUsers - {p.value.0};
      return Continue, [ShortFrame(conn, CMD_LOGOFF, LOGGED_OFF)];
    }

    /**
     * One decoded frame from `s0` to `s1`: the command code picks the
     * branch, whose own predicate then holds; `CMD_CLOSE` leaves the loop
     * and any other code, `CMD_READ_ACK` among them, gets an "Unknown
     * command" frame with command code 0, both without a change.
     */
    predicate StepSpec(s0: Store, s1: Store, conn: ConnId, cmd: byte, payload: seq<byte>, timestamp: string, pushFails: bool,
                       st: Status, sent: seq<Frame>)
    {
      if cmd == CMD_LOGIN then LoginSpec(s0, s1, conn, payload, st, sent)
      else if cmd == CMD_CREATE then CreateSpec(s0, s1, conn, payload, st, sent)
      else if cmd == CMD_SEND then SendSpec(s0, s1, conn, payload, timestamp, pushFails, st, sent)
      else if cmd == CMD_READ then ReadSpec(s0, s1, conn, payload, st, sent)
      else if cmd == CMD_VIEW_CONV then s1 == s0 && ViewConvSpec(s0, conn, payload, st, sent)
      else if cmd == CMD_DELETE_MSG then DeleteMsgSpec(s0, s1, conn, payload, st, sent)
      else if cmd == CMD_SEARCH_USERS then s1 == s0 && SearchUsersSpec(s0, conn, payload, st, sent)
      else if cmd == CMD_DELETE_ACC then DeleteAccountSpec(s0, s1, conn, payload, st, sent)
      else if cmd == CMD_LOGOFF then LogoffSpec(s0, s1, conn, payload, st, sent)
      else if cmd == CMD_CLOSE then st == Close && sent == [] && s1 == s0
      else st == Continue && sent == [ShortFrame(conn, 0, UNKNOWN_COMMAND)] && s1 == s0
    }

    /** One pass of the handler loop for a decoded frame. Only a read waits for an acknowledgement. */
    method Handle(conn: ConnId, cmd: byte, payload: seq<byte>, timestamp: string, pushFails: bool)
      returns (st: Status, sent: seq<Frame>)
      requires Valid()
      modifies this
      ensures Valid() && Encodable(sent)
      ensures StepSpec(old(Snap()), Snap(), conn, cmd, payload, timestamp, pushFails, st, sent)
      ensures st == AwaitAck ==> cmd == CMD_READ
    {
      if cmd == CMD_LOGIN {
        st, sent := Login(conn, payload);
      } else if cmd == CMD_CREATE {
        st, sent := Create(conn, payload);
      } else if cmd == CMD_SEND {
        st, sent := Send(conn, payload, timestamp, pushFails);
      } else if cmd == CMD_READ {
        st, sent := Read(conn, payload);
      } else if cmd == CMD_VIEW_CONV {
        st, sent := ViewConv(conn, payload);
      } else if cmd == CMD_DELETE_MSG {
        st, sent := DeleteMsg(conn, payload);
      } else if cmd == CMD_SEARCH_USERS {
        st, sent := SearchUsers(conn, payload);
      } else if cmd == CMD_DELETE_ACC {
        st, sent := DeleteAccount(conn, payload);
      } else if cmd == CMD_LOGOFF {
        st, sent := Logoff(conn, payload);
      } else if cmd == CMD_CLOSE {
        st, sent := Close, [];
      } else {
        st, sent := Continue, [ShortFrame(conn, 0, UNKNOWN_COMMAND)];
      }
    }

    /** `Handle` as a relation on request positions, with `clock(j)` and `pushFails(j)` for the `j`-th request. */
    ghost function Rule(conn: ConnId, clock: nat -> string, pushFails: nat -> bool): StepRule
    {
      (s0: Store, j: nat, cmd: byte, payload: seq<byte>, st: Status, out: seq<Frame>, s1: Store) =>
        StepSpec(s0, s1, conn, cmd, payload, clock(j), pushFails(j), st, out)
    }

    /**
     * One pass of the loop of `handle_client`: decode the next request,
     * handle it and, when it was a read, take the next frame off the
     * connection as the acknowledgement, if there is one. `ok` is false
     * when no request could be decoded; `goOn` says whether the loop goes on.
     */
    method Serve(conn: ConnId, rest: seq<Chunk>, k: nat, clock: nat -> string, pushFails: nat -> bool)
      returns (ok: bool, goOn: bool, out: seq<Frame>, rest': seq<Chunk>, ghost t: Turn)
      requires Valid()
      modifies this
      ensures Valid() && Encodable(out)
      ensures ok <==> FramesIn(Concat(rest)) != []
      ensures !ok ==> !goOn && out == [] && Snap() == old(Snap())
      ensures ok ==> t.before == old(Snap()) && t.after == Snap() && t.out == out && TurnDone(t, k, Rule(conn, clock, pushFails))
      ensures ok ==> FramesIn(Concat(rest)) == [t.request] + (Acked(t) + FramesIn(Concat(rest')))
      ensures ok ==> (goOn <==> GoesOn(t)) && (goOn ==> |Concat(rest')| < |Concat(rest)|)
      ensures ok && t.st == AwaitAck && t.ack.None? ==> FramesIn(Concat(rest')) == []
    {
      var request;
      ok, request, rest' := NextRequest(rest);
      if !ok {
        t := Turn(Snap(), request, Close, [], None, Snap());
        return false, false, [], [], t;
      }
      ghost var before := Snap();
      var st;
      st, out := Handle(conn, request.0, request.1, clock(k), pushFails(k));
      var ack: Option<(byte, seq<byte>)> := None;
      ghost var pending := FramesIn(Concat(rest'));
      if st == AwaitAck {
        var got, frame;
        got, frame, rest' := NextRequest(rest');
        if got {
          ack := Some(frame);
        } else {
          assert Concat(rest') == [];
        }
      }
      t := Turn(before, request, st, out, ack, Snap());
      assert pending == Acked(t) + FramesIn(Concat(rest'));
      goOn := st == Continue || (st == AwaitAck && ack.Some?);
    }

    /**
     * `handle_client`: decode frames from the connection and handle each,
     * until `CMD_CLOSE`, an exception, or the peer closes. After a read the
     * next frame is taken as the acknowledgement, whatever its code.
     * `clock(j)` and `pushFails(j)` are the timestamp and the push outcome
     * of the `j`-th request. The ghost `turns` record each handled request.
     */
    method HandleClient(conn: ConnId, stream: seq<Chunk>, clock: nat -> string, pushFails: nat -> bool)
      returns (sent: seq<Frame>, ghost turns: seq<Turn>)
      requires Valid()
      modifies this
      ensures Valid() && Encodable(sent)
      ensures Served(old(Snap()), FramesIn(Concat(stream)), turns, Snap(), Rule(conn, clock, pushFails))
      ensures sent == Sent(turns)
      ensures FramesIn(Concat(stream)) == [] ==> sent == [] && Snap() == old(Snap())
    {
      ghost var s0 := Snap();
      ghost var frames := FramesIn(Concat(stream));
      ghost var step := Rule(conn, clock, pushFails);
      var rest := stream;
      var k := 0;
      sent, turns := [], [];
      while true
        invariant Valid() && Encodable(sent)
        invariant k == |turns| && sent == Sent(turns)
        invariant Progress(s0, frames, turns, Snap(), FramesIn(Concat(rest)), step)
        decreases |Concat(rest)|
      {
        ghost var before := Snap();
        var ok, goOn, out;
        ghost var t;
        ok, goOn, out, rest, t := Serve(conn, rest, k, clock, pushFails);
        if !ok {
          ProgressEnd(s0, frames, turns, Snap(), step);
          return;
        }
        ghost var done := turns;
        ProgressTurn(s0, frames, done, before, t, FramesIn(Concat(rest)), step);
        sent, turns, k := sent + out, turns + [t], k + 1;
        if !goOn {
          ProgressStop(s0, frames, done, before, t, FramesIn(Concat(rest)), step);
          return;
        }
      }
    }
  }

  /**
   * One `decode_message(conn)` inside the handler loop: the next frame the
   * connection holds, and what is pending after it; when the peer closes
   * too early nothing more is pending.
   */
  method NextRequest(rest: seq<Chunk>) returns (ok: bool, frame: (byte, seq<byte>), rest': seq<Chunk>)
    ensures ok <==> FramesIn(Concat(rest)) != []
    ensures ok ==> FramesIn(Concat(rest)) == [frame] + FramesIn(Concat(rest')) && |Concat(rest')| < |Concat(rest)|
    ensures !ok ==> rest' == []
  {
    var r;
    r, rest' := DecodeMessage(rest);
    if r.Err? {
      return false, (0, []), [];
    }
    FramesInOfEncoded(r.value.0, r.value.1, Concat(rest'));
    return true, r.value, rest';
  }

  /**
   * One handled request: the state before and after, the request frame,
   * how the handler ended and what it sent, and the acknowledgement frame
   * taken after a read, if the connection held one.
   */
  datatype Turn = Turn(before: Store, request: (byte, seq<byte>), st: Status, out: seq<Frame>,
                       ack: Option<(byte, seq<byte>)>, after: Store)

  /** What one request does: state before, request position, command, payload, status, frames sent, state after. */
  type StepRule = (Store, nat, byte, seq<byte>, Status, seq<Frame>, Store) -> bool

  /** The acknowledgement frame a turn took off the connection, if any. */
  function Acked(t: Turn): (r: seq<(byte, seq<byte>)>)
    ensures |r| <= 1 && (r != [] <==> t.ack.Some?)
  {
    if t.ack.Some? then [t.ack.value] else []
  }

  /** The frames the turns took off the connection, in order: each request and its acknowledgement. */
  function Consumed(turns: seq<Turn>): (r: seq<(byte, seq<byte>)>)
    ensures |r| >= |turns|
  {
    if turns == [] then []
    else
      var t := turns[|turns| - 1];
      Consumed(turns[..|turns| - 1]) + [t.request] + Acked(t)
  }

  /** Everything the turns sent, in order. */
  function Sent(turns: seq<Turn>): (r: seq<Frame>)
    ensures turns == [] ==> r == []
  {
    if turns == [] then [] else Sent(turns[..|turns| - 1]) + turns[|turns| - 1].out
  }

  /** The loop goes on after a turn that continued, or after a read whose acknowledgement arrived. */
  predicate GoesOn(t: Turn)
  {
    t.st == Continue || (t.st == AwaitAck && t.ack.Some?)
  }

  /** A turn does what `step` says for its request, and only a read takes an acknowledgement. */
  ghost predicate TurnDone(t: Turn, j: nat, step: StepRule)
  {
    && step(t.before, j, t.request.0, t.request.1, t.st, t.out, t.after)
    && (t.ack.Some? ==> t.st == AwaitAck)
  }

  /**
   * The turns run from `s0` to `s1`, each from the state the previous one
   * left, each doing what `step` says, and every turn but the last goes on.
   */
  ghost predicate Chained(s0: Store, turns: seq<Turn>, s1: Store, step: StepRule)
  {
    && (forall j :: 0 <= j < |turns| ==> TurnDone(turns[j], j, step))
    && (forall j :: 0 <= j < |turns| - 1 ==> GoesOn(turns[j]) && turns[j].after == turns[j + 1].before)
    && (if turns == [] then s1 == s0 else turns[0].before == s0 && turns[|turns| - 1].after == s1)
  }

  /**
   * A connection whose decodable frames are `frames`, served from `s0` to
   * `s1`: the turns took a prefix of the frames in order, and only a last
   * turn that closed or raised leaves frames untaken.
   */
  ghost predicate Served(s0: Store, frames: seq<(byte, seq<byte>)>, turns: seq<Turn>, s1: Store, step: StepRule)
  {
    && Chained(s0, turns, s1, step)
    && Consumed(turns) <= frames
    && (|Consumed(turns)| < |frames| ==> turns != [] && turns[|turns| - 1].st in {Close, Raised})
  }

  /** One more turn, from the state the last one left, after a turn that went on. */
  lemma ChainedAppend(s0: Store, turns: seq<Turn>, s1: Store, t: Turn, step: StepRule)
    requires Chained(s0, turns, s1, step) && (turns != [] ==> GoesOn(turns[|turns| - 1]))
    requires t.before == s1 && TurnDone(t, |turns|, step)
    ensures Chained(s0, turns + [t], t.after, step)
  {
    var ts := turns + [t];
    assert forall j :: 0 <= j < |turns| ==> ts[j] == turns[j];
  }

  /** One more turn takes its request and its acknowledgement, and sends its frames, after the earlier ones. */
  lemma TurnAppend(turns: seq<Turn>, t: Turn)
    ensures Consumed(turns + [t]) == Consumed(turns) + ([t.request] + Acked(t))
    ensures Sent(turns + [t]) == Sent(turns) + t.out
  {
    assert (turns + [t])[..|turns|] == turns;
  }

  /**
   * One more turn `t` takes its request and its acknowledgement from the
   * front of what was left, and sends its frames after the earlier ones.
   */
  lemma FramesTaken(frames: seq<(byte, seq<byte>)>, turns: seq<Turn>, t: Turn, after: seq<(byte, seq<byte>)>)
    requires frames == Consumed(turns) + ([t.request] + (Acked(t) + after))
    ensures frames == Consumed(turns + [t]) + after
    ensures Sent(turns + [t]) == Sent(turns) + t.out
  {
    TurnAppend(turns, t);
    var done := Consumed(turns);
    assert done + ([t.request] + (Acked(t) + after)) == (done + ([t.request] + Acked(t))) + after;
  }

  /**
   * The loop of `handle_client` so far: the turns are chained from `s0` to
   * `s1`, the last of them went on, and they took the decodable frames
   * before `left`.
   */
  ghost predicate Progress(s0: Store, frames: seq<(byte, seq<byte>)>, turns: seq<Turn>, s1: Store,
                           left: seq<(byte, seq<byte>)>, step: StepRule)
  {
    && Chained(s0, turns, s1, step)
    && (turns != [] ==> GoesOn(turns[|turns| - 1]))
    && frames == Consumed(turns) + left
  }

  /** One more turn `t` for the request at the front of `left`; the loop goes on if `t` did. */
  lemma ProgressTurn(s0: Store, frames: seq<(byte, seq<byte>)>, turns: seq<Turn>, s1: Store, t: Turn,
                     after: seq<(byte, seq<byte>)>, step: StepRule)
    requires Progress(s0, frames, turns, s1, [t.request] + (Acked(t) + after), step)
    requires t.before == s1 && TurnDone(t, |turns|, step)
    ensures frames != [] && Sent(turns + [t]) == Sent(turns) + t.out
    ensures GoesOn(t) ==> Progress(s0, frames, turns + [t], t.after, after, step)
  {
    ChainedAppend(s0, turns, s1, t, step);
    FramesTaken(frames, turns, t, after);
  }

  /**
   * A last turn `t` that did not go on: the connection is served, provided
   * a read that found no acknowledgement left nothing behind it.
   */
  lemma ProgressStop(s0: Store, frames: seq<(byte, seq<byte>)>, turns: seq<Turn>, s1: Store, t: Turn,
                     after: seq<(byte, seq<byte>)>, step: StepRule)
    requires Progress(s0, frames, turns, s1, [t.request] + (Acked(t) + after), step)
    requires t.before == s1 && TurnDone(t, |turns|, step)
    requires !GoesOn(t) && (t.st == AwaitAck ==> after == [])
    ensures Served(s0, frames, turns + [t], t.after, step)
  {
    ChainedAppend(s0, turns, s1, t, step);
    FramesTaken(frames, turns, t, after);
    ServedAt(s0, frames, turns + [t], t.after, step, after);
  }

  /** Where the loop ends, the frames not taken are `left`; the turns then serve the connection. */
  lemma ServedAt(s0: Store, frames: seq<(byte, seq<byte>)>, turns: seq<Turn>, s1: Store, step: StepRule,
                 left: seq<(byte, seq<byte>)>)
    requires Chained(s0, turns, s1, step) && frames == Consumed(turns) + left
    requires left != [] ==> turns != [] && turns[|turns| - 1].st in {Close, Raised}
    ensures Served(s0, frames, turns, s1, step)
  {
  }

  /** The loop ends when no frame is left; the turns then serve the connection. */
  lemma ProgressEnd(s0: Store, frames: seq<(byte, seq<byte>)>, turns: seq<Turn>, s1: Store, step: StepRule)
    requires Progress(s0, frames, turns, s1, [], step)
    ensures Served(s0, frames, turns, s1, step)
    ensures frames == [] ==> turns == [] && s1 == s0 && Sent(turns) == []
  {
    assert Consumed(turns) + [] == Consumed(turns);
  }
}
