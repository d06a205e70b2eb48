/**
 * The request handlers of the modular JSON server (`Server/handlers.py`)
 * and the state they work on: the account table and the sessions, which
 * are module globals of `Server/data_store.py`, and the conversation
 * histories, which the handlers reach as `server.conversations`. An
 * attribute that was never assigned is `None` here; the handlers that touch
 * it then raise `AttributeError`.
 */
module Handlers {
  import opened Wrappers
  import opened Seqs
  import opened Pairs
  import opened PyText
  import opened DataStore
  import opened JsonRequest

  type Name = string

  /** `users[name]`: the password hash and the undelivered `(sender, message)` pairs. */
  datatype Account = Account(passwordHash: string, messages: seq<Pending>)

  /** An entry of a conversation history: `{"from", "to", "message"}`. */
  datatype ConvEntry = ConvEntry(from: Name, to: Name, message: Value)

  type History = map<(Name, Name), seq<ConvEntry>>

  /** A snapshot of the state the handlers change. */
  datatype Store = Store(names: seq<Name>, users: map<Name, Account>, activeUsers: map<Name, ConnId>, conversations: Option<History>)

  class ChatState {
    /** `server.hash_password`: the SHA-256 hex digest of the password. */
    const hash: string -> string
    /** `json.dumps(conversation, indent=2)`. */
    const render: seq<ConvEntry> -> string

    /** The keys of the `OrderedDict` `users`, in insertion order. */
    var names: seq<Name>
    var users: map<Name, Account>
    var activeUsers: map<Name, ConnId>
    /** `server.conversations`, or `None` when the server never set it. */
    var conversations: Option<History>

    ghost predicate Valid()
      reads this
    {
      && Distinct(names)
      && (forall n :: n in names <==> n in users)
      && activeUsers.Keys <= users.Keys
      && (conversations.Some? ==> forall k :: k in conversations.value ==> LexLe(k.0, k.1, CharRank))
    }

    function Snap(): Store
      reads this
    {
      Store(names, users, activeUsers, conversations)
    }

    /** The state as `chat_server.py` starts it: empty tables and no `conversations` attribute. */
    constructor AsWritten(hash: string -> string, render: seq<ConvEntry> -> string)
      ensures Valid() && this.hash == hash && this.render == render
      ensures names == [] && users == map[] && activeUsers == map[] && conversations == None
    {
      this.hash := hash;
      this.render := render;
      names := [];
      users := map[];
      activeUsers := map[];
      conversations := None;
    }

    /** The state with `self.conversations = {}` set at start-up, as the handlers expect. */
    constructor Corrected(hash: string -> string, render: seq<ConvEntry> -> string)
      ensures Valid() && this.hash == hash && this.render == render
      ensures names == [] && users == map[] && activeUsers == map[] && conversations == Some(map[])
    {
      this.hash := hash;
      this.render := render;
      names := [];
      users := map[];
      activeUsers := map[];
      conversations := Some(map[]);
    }

    /**
     * `handle_login` from state `s0` to `s1`: unknown name, wrong
     * password, a session already open, or the connection becomes the
     * user's session and the reply counts the undelivered messages.
     */
    predicate LoginSpec(s0: Store, s1: Store, conn: ConnId, req: Request, sent: seq<Message>)
    {
      var u := req.from;
      && s1 == s0.(activeUsers := s1.activeUsers)
      && if u !in s0.users then sent == [Refusal(conn, req.cmd, "Invalid or incorrect username")] && s1 == s0
         else if s0.users[u].passwordHash != hash(req.password) then
           sent == [Refusal(conn, req.cmd, "Invalid or incorrect password")] && s1 == s0
         else if u in s0.activeUsers then
           sent == [Refusal(conn, req.cmd, "You are already logged in!")] && s1 == s0
         else
           && s1.activeUsers == s0.activeUsers[u := conn]
           && sent == [Notice(conn, req.cmd, "Login successful! You have " + Decimal(|s0.users[u].messages|) + " messages").(to := u)]
    }

    method Login(conn: ConnId, req: Request) returns (sent: seq<Message>)
      requires Valid()
      modifies this`activeUsers
      ensures Valid()
      ensures LoginSpec(old(Snap()), Snap(), conn, req, sent)
    {
      var u := req.from;
      if u !in users {
        return [Refusal(conn, req.cmd, "Invalid or incorrect username")];
      }
      if users[u].passwordHash != hash(req.password) {
        return [Refusal(conn, req.cmd, "Invalid or incorrect password")];
      }
      if u in activeUsers {
        return [Refusal(conn, req.cmd, "You are already logged in!")];
      }
      activeUsers := activeUsers[u := conn];
      return [Notice(conn, req.cmd, "Login successful! You have " + Decimal(|users[u].messages|) + " messages").(to := u)];
    }

    /**
     * `handle_delete`: only an existing account with an empty inbox goes,
     * together with its session; success sends nothing back.
     */
    predicate DeleteSpec(s0: Store, s1: Store, conn: ConnId, req: Request, sent: seq<Message>)
    {
      var u := req.from;
      if u !in s0.users then sent == [Refusal(conn, req.cmd, "The user does not exist")] && s1 == s0
      else if s0.users[u].messages != [] then sent == [Refusal(conn, req.cmd, "Undelivered messages still exist")] && s1 == s0
      else
        && sent == []
        && s1 == Store(Remove(s0.names, u), s0.users - {u}, s0.activeUsers - {u}, s0.conversations)
    }

    method Delete(conn: ConnId, req: Request) returns (sent: seq<Message>)
      requires Valid()
      modifies this`names, this`users, this`activeUsers
      ensures Valid()
      ensures DeleteSpec(old(Snap()), Snap(), conn, req, sent)
    {
      var u := req.from;
      if u !in users {
        return [Refusal(conn, req.cmd, "The user does not exist")];
      }
      if users[u].messages != [] {
        return [Refusal(conn, req.cmd, "Undelivered messages still exist")];
      }
      Unregister(u);
      return [];
    }

    /** The account `u` and its session go; the order of the other names is kept. */
    method Unregister(u: Name)
      requires Valid() && u in users
      modifies this`names, this`users, this`activeUsers
      ensures Valid()
      ensures Snap() == Store(Remove(old(names), u), old(users) - {u}, old(activeUsers) - {u}, conversations)
    {
      RemoveKey(names, users, u);
      names, users, activeUsers := Remove(names, u), users - {u}, activeUsers - {u};
    }

    /** `handle_logoff`: the session ends, if there is one; nothing is sent back. */
    method Logoff(req: Request)
      requires Valid()
      modifies this`activeUsers
      ensures Valid()
      ensures activeUsers == old(activeUsers) - {req.from}
    {
      activeUsers := activeUsers - {req.from};
    }

    /**
     * `handle_delete_msg`: the listed positions leave the user's inbox. A
     * list body is taken as it is; a string is read as comma-separated
     * numbers; a number or `null` has no `split` and is answered "Invalid
     * indices".
     */
    predicate DeleteMsgSpec(s0: Store, s1: Store, conn: ConnId, req: Request, sent: seq<Message>)
    {
      var u := req.from;
      && s1 == s0.(users := s1.users)
      && if u !in s0.users then sent == [Refusal(conn, req.cmd, "User not found")] && s1 == s0
         else if IndexList(req.body).None? then sent == [Refusal(conn, req.cmd, "Invalid indices")] && s1 == s0
         else
           && s1.users == s0.users[u := s0.users[u].(messages := DropPositions(s0.users[u].messages, IndexList(req.body).value))]
           && sent == [Notice(conn, req.cmd, "Specified messages deleted")]
    }

    method DeleteMsg(conn: ConnId, req: Request) returns (sent: seq<Message>)
      requires Valid()
      modifies this`users
      ensures Valid()
      ensures DeleteMsgSpec(old(Snap()), Snap(), conn, req, sent)
    {
      var u := req.from;
      if u !in users {
        return [Refusal(conn, req.cmd, "User not found")];
      }
      var indices := IndexList(req.body);
      if indices.None? {
        return [Refusal(conn, req.cmd, "Invalid indices")];
      }
      users := users[u := users[u].(messages := DropPositions(users[u].messages, indices.value))];
      return [Notice(conn, req.cmd, "Specified messages deleted")];
    }

    /**
     * `handle_read`: with a limit, `messages[:limit]` is sent and
     * `messages[limit:]` stays (Python slices); without one, everything is
     * sent. Each message is its own `read` frame. A non-empty list as body
     * makes `int` raise.
     */
    predicate ReadSpec(s0: Store, s1: Store, conn: ConnId, req: Request, st: Outcome, sent: seq<Message>)
    {
      var u := req.from;
      && s1 == s0.(users := s1.users)
      && if u !in s0.users then st == Continue && sent == [Refusal(conn, req.cmd, "User not found")] && s1 == s0
         else if ReadLimit(req.body).Err? then st == Raised && sent == [] && s1 == s0
         else
           var (view, keep) := TakeSlice(s0.users[u].messages, ReadLimit(req.body).value);
           && st == Continue
           && s1.users == s0.users[u := s0.users[u].(messages := keep)]
           && |sent| == |view|
           && forall i :: 0 <= i < |view| ==> sent[i] == Message(conn, "read", view[i].0, "", view[i].1, false)
    }

    method Read(conn: ConnId, req: Request) returns (st: Outcome, sent: seq<Message>)
      requires Valid()
      modifies this`users
      ensures Valid()
      ensures ReadSpec(old(Snap()), Snap(), conn, req, st, sent)
    {
      var u := req.from;
      if u !in users {
        return Continue, [Refusal(conn, req.cmd, "User not found")];
      }
      var limit := ReadLimit(req.body);
      if limit.Err? {
        return Raised, [];
      }
      var (view, keep) := TakeSlice(users[u].messages, limit.value);
      sent := ReadOut(conn, view);
      users := users[u := users[u].(messages := keep)];
      return Continue, sent;
    }

    /** `handle_create`: a name not taken yet gets an account with the hashed password and an empty inbox. */
    predicate CreateSpec(s0: Store, s1: Store, conn: ConnId, req: Request, sent: seq<Message>)
    {
      var u := req.from;
      if u in s0.users then sent == [Refusal(conn, req.cmd, "This username already exists")] && s1 == s0
      else
        && sent == [Notice(conn, req.cmd, "Account has been created!").(to := u)]
        && s1 == s0.(names := s0.names + [u], users := s0.users[u := Account(hash(req.password), [])])
    }

    method Create(conn: ConnId, req: Request) returns (sent: seq<Message>)
      requires Valid()
      modifies this`names, this`users
      ensures Valid()
      ensures CreateSpec(old(Snap()), Snap(), conn, req, sent)
    {
      var u := req.from;
      if u in users {
        return [Refusal(conn, req.cmd, "This username already exists")];
      }
      users := users[u := Account(hash(req.password), [])];
      names := names + [u];
      return [Notice(conn, req.cmd, "Account has been created!").(to := u)];
    }

    /** `handle_list`: `get_matching_users` of the wildcard (`*` when missing), comma-joined. */
    method List(conn: ConnId, req: Request) returns (st: Outcome, sent: seq<Message>)
      requires Valid()
      ensures (st, sent) == ListReply(conn, req.cmd, names, req.body)
    {
      st, sent := ListReply(conn, req.cmd, names, req.body).0, ListReply(conn, req.cmd, names, req.body).1;
    }

    /**
     * `handle_send`: a missing or unknown recipient is refused. Otherwise
     * the message is appended to the history of the sorted pair of names
     * (which raises when there is no `conversations` attribute) and then
     * pushed to a logged-in recipient as a `read` frame; if that push fails,
     * and when the recipient is not logged in, the pair goes to the
     * recipient's inbox.
     */
    predicate SendSpec(s0: Store, s1: Store, conn: ConnId, req: Request, pushFails: bool, st: Outcome, sent: seq<Message>)
    {
      && s1 == s0.(users := s1.users, conversations := s1.conversations)
      && if req.to.None? || req.to.value !in s0.users then
           st == Continue && sent == [Refusal(conn, req.cmd, "User not found")] && s1 == s0
         else if s0.conversations.None? then st == Raised && sent == [] && s1 == s0
         else
           var (u, r) := (req.from, req.to.value);
           var key := SortedPair(u, r, CharRank);
           var convs := s0.conversations.value;
           var history := if key in convs then convs[key] else [];
           && st == Continue
           && s1.conversations == Some(convs[key := history + [ConvEntry(u, r, req.body)]])
           && if r in s0.activeUsers && !pushFails then
                && sent == [Message(s0.activeUsers[r], "read", u, "", req.body, false), Notice(conn, req.cmd, "Your message has been sent")]
                && s1.users == s0.users
              else
                && sent == [Notice(conn, req.cmd, "Your message has been sent")]
                && s1.users == s0.users[r := s0.users[r].(messages := s0.users[r].messages + [(u, req.body)])]
    }

    method Send(conn: ConnId, req: Request, pushFails: bool) returns (st: Outcome, sent: seq<Message>)
      requires Valid()
      modifies this`users, this`conversations
      ensures Valid()
      ensures SendSpec(old(Snap()), Snap(), conn, req, pushFails, st, sent)
    {
      if req.to.None? || req.to.value !in users {
        return Continue, [Refusal(conn, req.cmd, "User not found")];
      }
      var (u, r) := (req.from, req.to.value);
      var key := SortedPair(u, r, CharRank);
      if conversations.None? {
        return Raised, [];
      }
      var convs := conversations.value;
      var history := if key in convs then convs[key] else [];
      conversations := Some(convs[key := history + [ConvEntry(u, r, req.body)]]);
      sent := [];
      if r in activeUsers && !pushFails {
        sent := [Message(activeUsers[r], "read", u, "", req.body, false)];
      } else {
        users := users[r := users[r].(messages := users[r].messages + [(u, req.body)])];
      }
      return Continue, sent + [Notice(conn, req.cmd, "Your message has been sent")];
    }

    /**
     * `handle_view_conv`: the history with the other user (`to`, `""` when
     * missing), rendered as JSON, or "No conversation history found"; an
     * unknown other user is refused. Nothing changes.
     */
    predicate ViewConvSpec(s0: Store, conn: ConnId, req: Request, st: Outcome, sent: seq<Message>)
    {
      var (u, other) := (req.from, if req.to.Some? then req.to.value else "");
      var key := SortedPair(u, other, CharRank);
      if other !in s0.users then st == Continue && sent == [Refusal(conn, req.cmd, "User not found")]
      else if s0.conversations.None? then st == Raised && sent == []
      else
        var history := if key in s0.conversations.value then s0.conversations.value[key] else [];
        && st == Continue
        && sent == [if history == [] then Notice(conn, req.cmd, "No conversation history found")
                    else Message(conn, req.cmd, "", other, Str(render(history)), false)]
    }

    method ViewConv(conn: ConnId, req: Request) returns (st: Outcome, sent: seq<Message>)
      requires Valid()
      ensures ViewConvSpec(Snap(), conn, req, st, sent)
    {
      var u := req.from;
      var other := if req.to.Some? then req.to.value else "";
      if other !in users {
        return Continue, [Refusal(conn, req.cmd, "User not found")];
      }
      var key := SortedPair(u, other, CharRank);
      if conversations.None? {
        return Raised, [];
      }
      var history := if key in conversations.value then conversations.value[key] else [];
      if history == [] {
        return Continue, [Notice(conn, req.cmd, "No conversation history found")];
      }
      return Continue, [Message(conn, req.cmd, "", other, Str(render(history)), false)];
    }
  }
}
