/**
 * The JSON-line chat server with message ids (`ChatServer` in `server.py`):
 * accounts in registration order, sessions, conversation histories keyed by
 * the sorted pair of names, and a global counter that gives every sent
 * message a fresh id. Inboxes and histories hold the same message entries,
 * so deleting by id removes a message from both.
 */
module ServerPy {
  import opened Wrappers
  import opened Seqs
  import opened Pairs
  import opened PyText
  import opened DataStore
  import opened JsonRequest
  import opened LineFraming
  import opened Maps
  import opened Sessions

  type Name = string

  /** A message entry: `{"id", "sender", "message", "timestamp"}`. */
  datatype Entry = Entry(id: nat, sender: Name, message: Value, timestamp: string)

  /** `users[name]`: the password hash and the undelivered messages. */
  datatype Account = Account(passwordHash: string, messages: seq<Entry>)

  /**
   * The `body` of a reply: plain text, or the JSON list of entries that
   * `json.dumps` prints (read replies leave the timestamps out).
   */
  datatype Body = Text(s: string) | Listing(entries: seq<Entry>, withTimestamps: bool)

  /** `create_msg(cmd, src, to, body, err)` sent on connection `conn`. */
  datatype Reply = Reply(conn: ConnId, cmd: string, src: string, to: string, body: Body, err: bool)

  function Answer(conn: ConnId, cmd: string, text: string): Reply
  {
    Reply(conn, cmd, "", "", Text(text), false)
  }

  function Fail(conn: ConnId, cmd: string, text: string): Reply
  {
    Reply(conn, cmd, "", "", Text(text), true)
  }

  /** Message ids strictly increase along the sequence, so none repeats. */
  predicate Increasing(es: seq<Entry>)
  {
    forall i, j :: 0 <= i < j < |es| ==> es[i].id < es[j].id
  }

  /** Every id was handed out before the counter reached `n`. */
  predicate Below(es: seq<Entry>, n: nat)
  {
    forall i :: 0 <= i < |es| ==> es[i].id < n
  }

  /** Every inbox holds entries in id order, each with an id handed out before `n`. */
  predicate Inboxes(users: map<Name, Account>, n: nat)
  {
    forall u :: u in users ==> Increasing(users[u].messages) && Below(users[u].messages, n)
  }

  /** Every history is under its sorted key and holds entries in id order, each with an id handed out before `n`. */
  predicate Histories(conversations: map<(Name, Name), seq<Entry>>, n: nat)
  {
    forall k :: k in conversations ==> LexLe(k.0, k.1, CharRank) && Increasing(conversations[k]) && Below(conversations[k], n)
  }

  /** Dropping an account keeps the other inboxes as they were. */
  lemma InboxesWithout(users: map<Name, Account>, u: Name, n: nat)
    requires Inboxes(users, n)
    ensures Inboxes(users - {u}, n)
  {
  }

  /** Removing entries keeps the ids in increasing order. */
  lemma {:induction false} FilterIncreasing(es: seq<Entry>, keep: Entry -> bool)
    requires Increasing(es)
    ensures Increasing(Filter(es, keep))
  {
    if es != [] {
      var t := Filter(es[1..], keep);
      FilterIncreasing(es[1..], keep);
      FilterAbove(es[1..], keep, es[0].id);
      if keep(es[0]) {
        IncreasingCons(es[0], t);
      }
    }
  }

  /** Removing entries keeps every remaining id above a bound that held for all of them. */
  lemma {:induction false} FilterAbove(es: seq<Entry>, keep: Entry -> bool, n: nat)
    requires forall i :: 0 <= i < |es| ==> n < es[i].id
    ensures forall i :: 0 <= i < |Filter(es, keep)| ==> n < Filter(es, keep)[i].id
  {
    if es != [] {
      FilterAbove(es[1..], keep, n);
    }
  }

  /** Removing entries keeps every remaining id below a bound that held for all of them. */
  lemma {:induction false} FilterBelow(es: seq<Entry>, keep: Entry -> bool, n: nat)
    requires Below(es, n)
    ensures Below(Filter(es, keep), n)
  {
    if es != [] {
      FilterBelow(es[1..], keep, n);
    }
  }

  /** A filtered inbox or history keeps the invariant of the server state. */
  lemma FilterKeepsOrder(es: seq<Entry>, keep: Entry -> bool, n: nat)
    requires Increasing(es) && Below(es, n)
    ensures Increasing(Filter(es, keep)) && Below(Filter(es, keep), n)
  {
    FilterIncreasing(es, keep);
    FilterBelow(es, keep, n);
  }

  lemma IncreasingCons(e: Entry, t: seq<Entry>)
    requires Increasing(t) && forall i :: 0 <= i < |t| ==> e.id < t[i].id
    ensures Increasing([e] + t)
  {
    var r := [e] + t;
    forall i, j | 0 <= i < j < |r|
      ensures r[i].id < r[j].id
    {
      assert r[j] == t[j - 1];
      if i > 0 {
        assert r[i] == t[i - 1];
      }
    }
  }

  /** An entry with an id above all others can be appended without breaking the order. */
  lemma AppendFresh(es: seq<Entry>, e: Entry)
    requires Increasing(es) && Below(es, e.id)
    ensures Increasing(es + [e]) && Below(es + [e], e.id + 1)
  {
  }

  /** `[msg for msg in es if msg["id"] not in ids]`. */
  function WithoutIds(es: seq<Entry>, ids: seq<nat>): (r: seq<Entry>)
    ensures |r| <= |es|
    ensures forall i :: 0 <= i < |r| ==> r[i] in es && r[i].id !in ids
    ensures forall i :: 0 <= i < |es| && es[i].id !in ids ==> es[i] in r
  {
    Filter(es, (e: Entry) => e.id !in ids)
  }

  /** `[msg for msg in es if msg["sender"] != other]`. */
  function NotFrom(es: seq<Entry>, other: Name): (r: seq<Entry>)
    ensures |r| <= |es|
    ensures forall i :: 0 <= i < |r| ==> r[i] in es && r[i].sender != other
    ensures forall i :: 0 <= i < |es| && es[i].sender != other ==> es[i] in r
  {
    Filter(es, (e: Entry) => e.sender != other)
  }

  /**
   * The read split of `server.py`: a positive limit takes that many
   * messages from the front and leaves the rest; anything else takes all.
   */
  function TakePositive<T>(msgs: seq<T>, limit: Option<int>): (r: (seq<T>, seq<T>))
    ensures r.0 + r.1 == msgs
    ensures (limit.Some? && limit.value > 0) ==> |r.0| == Min(limit.value, |msgs|)
    ensures !(limit.Some? && limit.value > 0) ==> r.1 == []
  {
    if limit.Some? && limit.value > 0 then (SliceTo(msgs, limit.value), SliceFrom(msgs, limit.value))
    else (msgs, [])
  }

  /** Every conversation that mentions `u` without the listed ids; the others as they were. */
  function PurgedIds(convs: map<(Name, Name), seq<Entry>>, u: Name, ids: seq<nat>): (r: map<(Name, Name), seq<Entry>>)
    ensures r.Keys == convs.Keys
  {
    map k | k in convs :: if InPair(u, k) then WithoutIds(convs[k], ids) else convs[k]
  }

  /**
   * `list`: the registered names in `names` that match the wildcard (`*`
   * when the body is missing), in registration order and comma-joined; a
   * body that is not a string raises instead and nothing is sent.
   */
  function ListAnswer(conn: ConnId, cmd: string, names: seq<Name>, body: Value): (r: (Outcome, seq<Reply>))
    ensures r.0 == Raised <==> ListPattern(body).None?
    ensures r.0 == Raised ==> r.1 == []
    ensures r.0 != Raised ==> r.0 == Continue
    ensures r.0 != Raised ==> r.1 == [Answer(conn, cmd, Join(MatchingUsers(names, ListPattern(body).value, '*', '?'), ','))]
  {
    match ListPattern(body)
    case None => (Raised, [])
    case Some(pattern) => (Continue, [Answer(conn, cmd, Join(MatchingUsers(names, pattern, '*', '?'), ','))])
  }

  /** A snapshot of the server's mutable state. */
  datatype Store = Store(names: seq<Name>, users: map<Name, Account>, activeUsers: map<Name, ConnId>,
                         conversations: map<(Name, Name), seq<Entry>>, nextMsgId: nat)

  class ChatServer {
    /** `hash_password`: the SHA-256 hex digest of the password. */
    const hash: string -> string

    /** The keys of the `OrderedDict` of users, in insertion order. */
    var names: seq<Name>
    var users: map<Name, Account>
    var activeUsers: map<Name, ConnId>
    var conversations: map<(Name, Name), seq<Entry>>
    var nextMsgId: nat

    ghost predicate Valid()
      reads this
    {
      && Distinct(names)
      && (forall n :: n in names <==> n in users)
      && activeUsers.Keys <= users.Keys
      && nextMsgId >= 1
      && Inboxes(users, nextMsgId)
      && Histories(conversations, nextMsgId)
    }

    function Snap(): Store
      reads this
    {
      Store(names, users, activeUsers, conversations, nextMsgId)
    }

    constructor (hash: string -> string)
      ensures Valid() && this.hash == hash
      ensures names == [] && users == map[] && activeUsers == map[] && conversations == map[] && nextMsgId == 1
    {
      this.hash := hash;
      names := [];
      users := map[];
      activeUsers := map[];
      conversations := map[];
      nextMsgId := 1;
    }

    /**
     * `login` from state `s0` to `s1`: unknown name, wrong password, a
     * session already open, or the connection becomes the user's session
     * and the reply counts the unread messages.
     */
    predicate LoginSpec(s0: Store, s1: Store, conn: ConnId, req: Request, sent: seq<Reply>)
    {
      var u := req.from;
      && s1 == s0.(activeUsers := s1.activeUsers)
      && if u !in s0.users then sent == [Fail(conn, req.cmd, "Username does not exist")] && s1 == s0
         else if s0.users[u].passwordHash != hash(req.password) then sent == [Fail(conn, req.cmd, "Incorrect password")] && s1 == s0
         else if u in s0.activeUsers then sent == [Fail(conn, req.cmd, "Already logged in elsewhere")] && s1 == s0
         else
           && s1.activeUsers == s0.activeUsers[u := conn]
           && sent == [Reply(conn, req.cmd, "", u, Text("Login successful. Unread messages: " + Decimal(|s0.users[u].messages|)), false)]
    }

    method Login(conn: ConnId, req: Request) returns (sent: seq<Reply>)
      requires Valid()
      modifies this`activeUsers
      ensures Valid()
      ensures LoginSpec(old(Snap()), Snap(), conn, req, sent)
    {
      var u := req.from;
      if u !in users {
        return [Fail(conn, req.cmd, "Username does not exist")];
      }
      if users[u].passwordHash != hash(req.password) {
        return [Fail(conn, req.cmd, "Incorrect password")];
      }
      if u in activeUsers {
        return [Fail(conn, req.cmd, "Already logged in elsewhere")];
      }
      activeUsers := activeUsers[u := conn];
      return [Reply(conn, req.cmd, "", u, Text("Login successful. Unread messages: " + Decimal(|users[u].messages|)), false)];
    }

    /** `create`: a name not taken yet gets an account with the hashed password and an empty inbox. */
    predicate CreateSpec(s0: Store, s1: Store, conn: ConnId, req: Request, sent: seq<Reply>)
    {
      var u := req.from;
      if u in s0.users then sent == [Fail(conn, req.cmd, "Username already exists")] && s1 == s0
      else
        && sent == [Reply(conn, req.cmd, "", u, Text("Account created"), false)]
        && s1 == s0.(names := s0.names + [u], users := s0.users[u := Account(hash(req.password), [])])
    }

    method Create(conn: ConnId, req: Request) returns (sent: seq<Reply>)
      requires Valid()
      modifies this`names, this`users
      ensures Valid()
      ensures CreateSpec(old(Snap()), Snap(), conn, req, sent)
    {
      var u := req.from;
      if u in users {
        return [Fail(conn, req.cmd, "Username already exists")];
      }
      users := users[u := Account(hash(req.password), [])];
      names := names + [u];
      return [Reply(conn, req.cmd, "", u, Text("Account created"), false)];
    }

    /** `list`: the registered names matching the wildcard (`*` when missing), comma-joined. */
    method List(conn: ConnId, req: Request) returns (st: Outcome, sent: seq<Reply>)
      requires Valid()
      ensures (st, sent) == ListAnswer(conn, req.cmd, names, req.body)
    {
      st, sent := ListAnswer(conn, req.cmd, names, req.body).0, ListAnswer(conn, req.cmd, names, req.body).1;
    }

    /**
     * `send`: the message gets the next id and is appended to the
     * conversation of the two names, whether or not the recipient exists.
     * A logged-in recipient gets it pushed as a `chat` frame; if that push
     * fails, and when the recipient is not logged in, the entry goes to the
     * recipient's inbox. A missing `to` makes `sorted` raise.
     */
    predicate SendSpec(s0: Store, s1: Store, conn: ConnId, req: Request, timestamp: string, pushFails: bool, st: Outcome, sent: seq<Reply>)
    {
      && s1 == s0.(users := s1.users, conversations := s1.conversations, nextMsgId := s1.nextMsgId)
      && if req.to.None? then st == Raised && sent == [] && s1 == s0
         else
           var (u, r) := (req.from, req.to.value);
           var key := SortedPair(u, r, CharRank);
           var entry := Entry(s0.nextMsgId, u, req.body, timestamp);
           var history := if key in s0.conversations then s0.conversations[key] else [];
           && st == Continue
           && s1.nextMsgId == s0.nextMsgId + 1
           && s1.conversations == s0.conversations[key := history + [entry]]
           && if r !in s0.users then sent == [Fail(conn, req.cmd, "Recipient not found")] && s1.users == s0.users
              else if r in s0.activeUsers && !pushFails then
                && sent == [Reply(s0.activeUsers[r], "chat", u, "", Listing([entry], true), false), Answer(conn, req.cmd, "Message sent")]
                && s1.users == s0.users
              else
                && sent == [Answer(conn, req.cmd, "Message sent")]
                && s1.users == s0.users[r := s0.users[r].(messages := s0.users[r].messages + [entry])]
    }

    method Send(conn: ConnId, req: Request, timestamp: string, pushFails: bool) returns (st: Outcome, sent: seq<Reply>)
      requires Valid()
      modifies this`users, this`conversations, this`nextMsgId
      ensures Valid()
      ensures SendSpec(old(Snap()), Snap(), conn, req, timestamp, pushFails, st, sent)
    {
      if req.to.None? {
        return Raised, [];
      }
      var (u, r) := (req.from, req.to.value);
      var entry := Record(SortedPair(u, r, CharRank), u, req.body, timestamp);
      if r !in users {
        return Continue, [Fail(conn, req.cmd, "Recipient not found")];
      }
      sent := [];
      if r in activeUsers && !pushFails {
        sent := [Reply(activeUsers[r], "chat", u, "", Listing([entry], true), false)];
      } else {
        Queue(r, entry);
      }
      return Continue, sent + [Answer(conn, req.cmd, "Message sent")];
    }

    /** Give the message the next id and append it to the conversation under `key`. */
    method Record(key: (Name, Name), sender: Name, message: Value, timestamp: string) returns (entry: Entry)
      requires Valid() && LexLe(key.0, key.1, CharRank)
      modifies this`conversations, this`nextMsgId
      ensures Valid()
      ensures entry == Entry(old(nextMsgId), sender, message, timestamp) && nextMsgId == old(nextMsgId) + 1
      ensures conversations == old(conversations)[key := (if key in old(conversations) then old(conversations)[key] else []) + [entry]]
    {
      var history := if key in conversations then conversations[key] else [];
      entry := Entry(nextMsgId, sender, message, timestamp);
      AppendFresh(history, entry);
      nextMsgId := nextMsgId + 1;
      conversations := conversations[key := history + [entry]];
    }

    /** Append an entry newer than everything in the inbox to the recipient's inbox. */
    method Queue(r: Name, entry: Entry)
      requires Valid() && r in users && entry.id < nextMsgId && Below(users[r].messages, entry.id)
      modifies this`users
      ensures Valid()
      ensures users == old(users)[r := old(users)[r].(messages := old(users)[r].messages + [entry])]
    {
      AppendFresh(users[r].messages, entry);
      users := users[r := users[r].(messages := users[r].messages + [entry])];
    }

    /**
     * `read`: a positive limit takes that many messages from the front of
     * the inbox, anything else takes all of them; they are sent as one list,
     * empty when the inbox is, and leave the inbox. A non-empty list as
     * body makes `int` raise.
     */
    predicate ReadSpec(s0: Store, s1: Store, conn: ConnId, req: Request, st: Outcome, sent: seq<Reply>)
    {
      var u := req.from;
      && s1 == s0.(users := s1.users)
      && if u !in s0.users then st == Continue && sent == [Fail(conn, req.cmd, "User not found")] && s1 == s0
         else if ReadLimit(req.body).Err? then st == Raised && sent == [] && s1 == s0
         else
           var (view, keep) := TakePositive(s0.users[u].messages, ReadLimit(req.body).value);
           && st == Continue
           && s1.users == s0.users[u := s0.users[u].(messages := keep)]
           && sent == [Answer(conn, req.cmd, "").(body := Listing(view, false))]
    }

    method Read(conn: ConnId, req: Request) returns (st: Outcome, sent: seq<Reply>)
      requires Valid()
      modifies this`users
      ensures Valid()
      ensures ReadSpec(old(Snap()), Snap(), conn, req, st, sent)
    {
      var u := req.from;
      if u !in users {
        return Continue, [Fail(conn, req.cmd, "User not found")];
      }
      var limit := ReadLimit(req.body);
      if limit.Err? {
        return Raised, [];
      }
      var (view, keep) := TakePositive(users[u].messages, limit.value);
      users := users[u := users[u].(messages := keep)];
      return Continue, [Answer(conn, req.cmd, "").(body := Listing(view, false))];
    }

    /**
     * The loop over every conversation key that mentions `u`, keeping only
     * the entries whose id is not listed.
     */
    method PurgeConversations(u: Name, ids: seq<nat>)
      requires Valid()
      modifies this`conversations
      ensures Valid()
      ensures conversations == PurgedIds(old(conversations), u, ids)
    {
      ghost var inboxes, next := users, nextMsgId;
      assert Inboxes(inboxes, next);
      var r := UpdateWhere(conversations, k => InPair(u, k), es => WithoutIds(es, ids));
      assert r == PurgedIds(conversations, u, ids);
      forall k | k in r
        ensures LexLe(k.0, k.1, CharRank) && Increasing(r[k]) && Below(r[k], nextMsgId)
      {
        if InPair(u, k) {
          FilterKeepsOrder(conversations[k], (e: Entry) => e.id !in ids, nextMsgId);
        }
      }
      conversations := r;
      assert users == inboxes && nextMsgId == next;
    }

    /**
     * `delete_msg`: the comma-separated ids in the body leave the user's
     * inbox and every conversation of the user, wherever they appear. A
     * body that is not a string, `null` included, is answered "Invalid
     * message IDs".
     */
    predicate DeleteMsgSpec(s0: Store, s1: Store, conn: ConnId, req: Request, sent: seq<Reply>)
    {
      var u := req.from;
      && s1 == s0.(users := s1.users, conversations := s1.conversations)
      && if u !in s0.users then sent == [Fail(conn, req.cmd, "User not found")] && s1 == s0
         else if CommaIdList(req.body).None? then sent == [Fail(conn, req.cmd, "Invalid message IDs")] && s1 == s0
         else
           var ids := CommaIdList(req.body).value;
           && s1.users == s0.users[u := s0.users[u].(messages := WithoutIds(s0.users[u].messages, ids))]
           && s1.conversations == PurgedIds(s0.conversations, u, ids)
           && sent == [Answer(conn, req.cmd, "Specified messages deleted")]
    }

    method DeleteMsg(conn: ConnId, req: Request) returns (sent: seq<Reply>)
      requires Valid()
      modifies this`users, this`conversations
      ensures Valid()
      ensures DeleteMsgSpec(old(Snap()), Snap(), conn, req, sent)
    {
      var u := req.from;
      if u !in users {
        return [Fail(conn, req.cmd, "User not found")];
      }
      var ids := CommaIdList(req.body);
      if ids.None? {
        return [Fail(conn, req.cmd, "Invalid message IDs")];
      }
      FilterKeepsOrder(users[u].messages, (e: Entry) => e.id !in ids.value, nextMsgId);
      users := users[u := users[u].(messages := WithoutIds(users[u].messages, ids.value))];
      PurgeConversations(u, ids.value);
      return [Answer(conn, req.cmd, "Specified messages deleted")];
    }

    /**
     * `view_conv`: the history with the other user (`to`, `""` when
     * missing); the user's unread messages from that user count as read
     * and leave the inbox.
     */
    predicate ViewConvSpec(s0: Store, s1: Store, conn: ConnId, req: Request, sent: seq<Reply>)
    {
      var (u, other) := (req.from, if req.to.Some? then req.to.value else "");
      var key := SortedPair(u, other, CharRank);
      var history := if key in s0.conversations then s0.conversations[key] else [];
      && s1 == s0.(users := s1.users)
      && if other !in s0.users then sent == [Fail(conn, req.cmd, "User not found")] && s1 == s0
         else
           && s1.users == (if u in s0.users then s0.users[u := s0.users[u].(messages := NotFrom(s0.users[u].messages, other))] else s0.users)
           && sent == [if history == [] then Answer(conn, req.cmd, "No conversation history found")
                       else Reply(conn, req.cmd, "", other, Listing(history, true), false)]
    }

    method ViewConv(conn: ConnId, req: Request) returns (sent: seq<Reply>)
      requires Valid()
      modifies this`users
      ensures Valid()
      ensures ViewConvSpec(old(Snap()), Snap(), conn, req, sent)
    {
      var u := req.from;
      var other := if req.to.Some? then req.to.value else "";
      if other !in users {
        return [Fail(conn, req.cmd, "User not found")];
      }
      var key := SortedPair(u, other, CharRank);
      var history := if key in conversations then conversations[key] else [];
      if u in users {
        FilterKeepsOrder(users[u].messages, (e: Entry) => e.sender != other, nextMsgId);
        users := users[u := users[u].(messages := NotFrom(users[u].messages, other))];
      }
      if history == [] {
        return [Answer(conn, req.cmd, "No conversation history found")];
      }
      return [Reply(conn, req.cmd, "", other, Listing(history, true), false)];
    }

    /** The loop that deletes every conversation whose key mentions `u`. */
    method DropConversationsOf(u: Name)
      requires Valid()
      modifies this`conversations
      ensures Valid()
      ensures conversations == map k | k in old(conversations) && !InPair(u, k) :: old(conversations)[k]
    {
      conversations := RemoveWhere(conversations, k => InPair(u, k));
    }

    /**
     * `delete`: an existing account goes with its session and every
     * conversation that mentions it, whatever is still in its inbox.
     */
    predicate DeleteSpec(s0: Store, s1: Store, conn: ConnId, req: Request, sent: seq<Reply>)
    {
      var u := req.from;
      if u !in s0.users then sent == [Fail(conn, req.cmd, "User does not exist")] && s1 == s0
      else
        && sent == [Answer(conn, req.cmd, "Account deleted")]
        && s1 == Store(Remove(s0.names, u), s0.users - {u}, s0.activeUsers - {u},
                       map k | k in s0.conversations && !InPair(u, k) :: s0.conversations[k], s0.nextMsgId)
    }

    method Delete(conn: ConnId, req: Request) returns (sent: seq<Reply>)
      requires Valid()
      modifies this`names, this`users, this`activeUsers, this`conversations
      ensures Valid()
      ensures DeleteSpec(old(Snap()), Snap(), conn, req, sent)
    {
      var u := req.from;
      if u !in users {
        return [Fail(conn, req.cmd, "User does not exist")];
      }
      Unregister(u);
      DropConversationsOf(u);
      return [Answer(conn, req.cmd, "Account deleted")];
    }

    /** The account `u` and its session go; the order of the other names is kept. */
    method Unregister(u: Name)
      requires Valid() && u in users
      modifies this`names, this`users, this`activeUsers
      ensures Valid()
      ensures names == Remove(old(names), u) && users == old(users) - {u} && activeUsers == old(activeUsers) - {u}
    {
      ghost var convs, next := conversations, nextMsgId;
      assert Histories(convs, next);
      RemoveKey(names, users, u);
      InboxesWithout(users, u, nextMsgId);
      names, users, activeUsers := Remove(names, u), users - {u}, activeUsers - {u};
      assert conversations == convs && nextMsgId == next;
    }

    /** `logoff`: the session ends, if there is one. */
    method Logoff(conn: ConnId, req: Request) returns (sent: seq<Reply>)
      requires Valid()
      modifies this`activeUsers
      ensures Valid()
      ensures activeUsers == old(activeUsers) - {req.from}
      ensures sent == [Answer(conn, req.cmd, "User logged off")]
    {
      activeUsers := activeUsers - {req.from};
      return [Answer(conn, req.cmd, "User logged off")];
    }

    /**
     * One request from `s0` to `s1`: the `cmd` field picks the handler;
     * `close` ends the connection and anything else is answered
     * "Unknown command".
     */
    predicate StepSpec(s0: Store, s1: Store, conn: ConnId, req: Request, timestamp: string, pushFails: bool, st: Outcome, sent: seq<Reply>)
    {
      match req.cmd
      case "login" => st == Continue && LoginSpec(s0, s1, conn, req, sent)
      case "create" => st == Continue && CreateSpec(s0, s1, conn, req, sent)
      case "list" => s1 == s0 && (st, sent) == ListAnswer(conn, req.cmd, s0.names, req.body)
      case "send" => SendSpec(s0, s1, conn, req, timestamp, pushFails, st, sent)
      case "read" => ReadSpec(s0, s1, conn, req, st, sent)
      case "delete_msg" => st == Continue && DeleteMsgSpec(s0, s1, conn, req, sent)
      case "view_conv" => st == Continue && ViewConvSpec(s0, s1, conn, req, sent)
      case "delete" => st == Continue && DeleteSpec(s0, s1, conn, req, sent)
      case "logoff" =>
        && st == Continue && sent == [Answer(conn, req.cmd, "User logged off")]
        && s1 == s0.(activeUsers := s0.activeUsers - {req.from})
      case "close" => st == Close && sent == [] && s1 == s0
      case _ => st == Continue && sent == [Fail(conn, "error", "Unknown command")] && s1 == s0
    }

    method Handle(conn: ConnId, req: Request, timestamp: string, pushFails: bool) returns (st: Outcome, sent: seq<Reply>)
      requires Valid()
      modifies this
      ensures Valid()
      ensures StepSpec(old(Snap()), Snap(), conn, req, timestamp, pushFails, st, sent)
      ensures forall i :: 0 <= i < |sent| ==> sent[i].conn == conn || sent[i].cmd == "chat"
    {
      st := Continue;
      if req.cmd == "login" {
        sent := Login(conn, req);
      } else if req.cmd == "create" {
        sent := Create(conn, req);
      } else if req.cmd == "list" {
        st, sent := List(conn, req);
      } else if req.cmd == "send" {
        st, sent := Send(conn, req, timestamp, pushFails);
      } else if req.cmd == "read" {
        st, sent := Read(conn, req);
      } else if req.cmd == "delete_msg" {
        sent := DeleteMsg(conn, req);
      } else if req.cmd == "view_conv" {
        sent := ViewConv(conn, req);
      } else if req.cmd == "delete" {
        sent := Delete(conn, req);
      } else if req.cmd == "logoff" {
        sent := Logoff(conn, req);
      } else if req.cmd == "close" {
        st, sent := Close, [];
      } else {
        sent := [Fail(conn, "error", "Unknown command")];
      }
      StepReplies(old(Snap()), Snap(), conn, req, timestamp, pushFails, st, sent);
    }

    /** Every reply of a request goes back on its connection, except a `chat` frame pushed to the recipient. */
    lemma StepReplies(s0: Store, s1: Store, conn: ConnId, req: Request, timestamp: string, pushFails: bool, st: Outcome, sent: seq<Reply>)
      requires StepSpec(s0, s1, conn, req, timestamp, pushFails, st, sent)
      ensures forall i :: 0 <= i < |sent| ==> sent[i].conn == conn || sent[i].cmd == "chat"
    {
      match req.cmd
      case "login" => assert LoginSpec(s0, s1, conn, req, sent);
      case "create" => assert CreateSpec(s0, s1, conn, req, sent);
      case "list" =>
      case "send" => assert SendSpec(s0, s1, conn, req, timestamp, pushFails, st, sent);
      case "read" => assert ReadSpec(s0, s1, conn, req, st, sent);
      case "delete_msg" => assert DeleteMsgSpec(s0, s1, conn, req, sent);
      case "view_conv" => assert ViewConvSpec(s0, s1, conn, req, sent);
      case "delete" => assert DeleteSpec(s0, s1, conn, req, sent);
      case "logoff" =>
      case "close" =>
      case _ =>
    }

    /**
     * `Handle` as a relation on line positions, with `clock(i)` and
     * `pushFails(i)` for the timestamp and the push outcome of the `i`-th
     * line.
     */
    ghost function Rule(conn: ConnId, clock: nat -> string, pushFails: nat -> bool): (Store, nat, Request, Outcome, seq<Reply>, Store) -> bool
    {
      (s0: Store, i: nat, req: Request, st: Outcome, sent: seq<Reply>, s1: Store) => StepSpec(s0, s1, conn, req, clock(i), pushFails(i), st, sent)
    }

    /**
     * One pass of the loop of `handle_client`, for line `i`: a blank line is
     * skipped, a line that is not JSON gets "Invalid JSON", JSON that is not
     * an object stops the loop, and a request is handled by `Handle`, which
     * stops the loop unless it continued. `turns` grow by the turn taken.
     */
    method HandleLine(conn: ConnId, lines: seq<string>, i: nat, parse: string -> Parsed, clock: nat -> string, pushFails: nat -> bool,
                      ghost s0: Store, ghost turns: seq<Turn<Store, Reply>>)
      returns (stop: bool, out: seq<Reply>, ghost turns': seq<Turn<Store, Reply>>)
      requires Valid() && i < |lines|
      requires Served(lines, parse, i, s0, turns, Snap(), Rule(conn, clock, pushFails), Fail(conn, "error", "Invalid JSON"))
      modifies this
      ensures Valid()
      ensures Outputs(turns') == Outputs(turns) + out
      ensures !stop ==> Served(lines, parse, i + 1, s0, turns', Snap(), Rule(conn, clock, pushFails), Fail(conn, "error", "Invalid JSON"))
      ensures stop ==> Session(s0, Script(lines, parse), turns', Snap(), Rule(conn, clock, pushFails), Fail(conn, "error", "Invalid JSON"))
    {
      ghost var step := Rule(conn, clock, pushFails);
      ghost var invalid := Fail(conn, "error", "Invalid JSON");
      stop, out, turns' := false, [], turns;
      if lines[i] == "" {
        ServedBlank(lines, parse, i, s0, turns, Snap(), step, invalid);
        return;
      }
      match parse(lines[i])
      case Malformed =>
        var t := Turn(Snap(), NotJson(i), Continue, [invalid], Snap());
        ServedItem(lines, parse, i, s0, turns, Snap(), t, step, invalid);
        out, turns' := [Fail(conn, "error", "Invalid JSON")], turns + [t];
      case NotAnObject =>
        ServedStop(lines, parse, i, s0, turns, Snap(), step, invalid);
        stop := true;
      case Object(req) =>
        ghost var before := Snap();
        var st;
        st, out := Handle(conn, req, clock(i), pushFails(i));
        var t := Turn(before, Command(i, req), st, out, Snap());
        ServedItem(lines, parse, i, s0, turns, before, t, step, invalid);
        turns' := turns + [t];
        stop := st != Continue;
    }

    /**
     * `handle_client`: every complete line is one request, handled in
     * order; blank lines are skipped, a line that is not JSON gets an
     * "Invalid JSON" error, and JSON that is not an object, an exception or
     * `close` ends the loop. `parse` stands for `json.loads`. The ghost
     * `turns` record the state before and after every handled item.
     */
    method HandleClient(conn: ConnId, stream: seq<TextChunk>, parse: string -> Parsed, clock: nat -> string, pushFails: nat -> bool)
      returns (sent: seq<Reply>, ghost turns: seq<Turn<Store, Reply>>)
      requires Valid()
      modifies this
      ensures Valid()
      ensures Session(old(Snap()), Script(Lines(stream), parse), turns, Snap(), Rule(conn, clock, pushFails), Fail(conn, "error", "Invalid JSON"))
      ensures sent == Outputs(turns)
      ensures Script(Lines(stream), parse) == [] ==> sent == [] && Snap() == old(Snap())
    {
      var lines, rest := ReadMessages(stream);
      assert lines == Lines(stream);
      ghost var s0 := Snap();
      sent, turns := [], [];
      ServedStart(lines, parse, s0, Rule(conn, clock, pushFails), Fail(conn, "error", "Invalid JSON"));
      for i := 0 to |lines|
        invariant Valid()
        invariant Served(lines, parse, i, s0, turns, Snap(), Rule(conn, clock, pushFails), Fail(conn, "error", "Invalid JSON"))
        invariant sent == Outputs(turns)
      {
        var stop, out;
        stop, out, turns := HandleLine(conn, lines, i, parse, clock, pushFails, s0, turns);
        sent := sent + out;
        if stop {
          return;
        }
      }
      ServedEnd(lines, parse, s0, turns, Snap(), Rule(conn, clock, pushFails), Fail(conn, "error", "Invalid JSON"));
    }
  }

  /**
   * Two messages exchanged while both users are offline: each gets the next
   * id, and the history the first user then views holds both in send order,
   * whatever was read before. Viewing also clears the viewer's unread
   * message from the other user.
   */
  method ConversationScenario(hash: string -> string, t1: string, t2: string)
    returns (sent: seq<Reply>, unread: seq<Entry>)
    ensures sent == [Reply(0, "view_conv", "", "bob",
                           Listing([Entry(1, "alice", Str("hi"), t1), Entry(2, "bob", Str("yo"), t2)], true), false)]
    ensures unread == []
  {
    var s := Exchange(hash, t1, t2);
    sent := s.ViewConv(0, Request("view_conv", "alice", Some("bob"), Absent, ""));
    unread := s.users["alice"].messages;
  }

  /** The set-up of the scenario: two accounts, one message each way, then the second user reads. */
  method Exchange(hash: string -> string, t1: string, t2: string) returns (s: ChatServer)
    ensures fresh(s) && s.Valid() && "alice" in s.users && "bob" in s.users
    ensures s.users["alice"].messages == [Entry(2, "bob", Str("yo"), t2)]
    ensures ("alice", "bob") in s.conversations
    ensures s.conversations[("alice", "bob")] == [Entry(1, "alice", Str("hi"), t1), Entry(2, "bob", Str("yo"), t2)]
  {
    s := Replied(hash, t1, t2);
    ghost var convs := s.conversations;
    ghost var inbox := s.users["alice"].messages;
    var _, _ := s.Read(1, Request("read", "bob", None, Absent, ""));
    assert s.conversations == convs && s.users["alice"].messages == inbox;
  }

  /** The two accounts after alice wrote to bob and bob answered. */
  method Replied(hash: string -> string, t1: string, t2: string) returns (s: ChatServer)
    ensures fresh(s) && s.Valid() && "alice" in s.users && "bob" in s.users
    ensures s.users["alice"].messages == [Entry(2, "bob", Str("yo"), t2)]
    ensures ("alice", "bob") in s.conversations
    ensures s.conversations[("alice", "bob")] == [Entry(1, "alice", Str("hi"), t1), Entry(2, "bob", Str("yo"), t2)]
  {
    s := Wrote(hash, t1);
    assert SortedPair("bob", "alice", CharRank) == ("alice", "bob");
    ghost var s0 := s.Snap();
    var entry := Entry(2, "bob", Str("yo"), t2);
    var _, _ := s.Send(1, Request("send", "bob", Some("alice"), Str("yo"), ""), t2, false);
    assert s.users["alice"].messages == s0.users["alice"].messages + [entry];
    assert s.conversations[("alice", "bob")] == s0.conversations[("alice", "bob")] + [entry];
  }

  /** The two accounts after alice wrote to bob. */
  method Wrote(hash: string -> string, t1: string) returns (s: ChatServer)
    ensures fresh(s) && s.Valid() && "alice" in s.users && "bob" in s.users
    ensures s.users["alice"].messages == [] && s.activeUsers == map[] && s.nextMsgId == 2
    ensures ("alice", "bob") in s.conversations && s.conversations[("alice", "bob")] == [Entry(1, "alice", Str("hi"), t1)]
  {
    s := Accounts(hash);
    assert SortedPair("alice", "bob", CharRank) == ("alice", "bob");
    var _, _ := s.Send(0, Request("send", "alice", Some("bob"), Str("hi"), ""), t1, false);
  }

  /** A fresh server with the accounts of alice and bob. */
  method Accounts(hash: string -> string) returns (s: ChatServer)
    ensures fresh(s) && s.Valid()
    ensures s.users.Keys == {"alice", "bob"} && s.users["alice"].messages == [] && s.users["bob"].messages == []
    ensures s.activeUsers == map[] && s.conversations == map[] && s.nextMsgId == 1
  {
    s := new ChatServer(hash);
    var _ := s.Create(0, Request("create", "alice", None, Absent, "pw"));
    var _ := s.Create(1, Request("create", "bob", None, Absent, "pw"));
  }
}
