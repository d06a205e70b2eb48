/**
 * The JSON-line chat server without message ids (`ChatServer` in
 * `JSON_impl/server.py`): accounts in registration order, each with a
 * password hash and a list of undelivered `(sender, message)` pairs, and the
 * connections of the users who are logged in. There are no conversation
 * histories; `read` sends one frame per message.
 */
module JsonServer {
  import opened Wrappers
  import opened Seqs
  import opened PyText
  import opened DataStore
  import opened JsonRequest
  import opened LineFraming
  import opened Sessions

  type Name = string

  /** `users[name]`: the password hash and the undelivered messages. */
  datatype Account = Account(passwordHash: string, messages: seq<Pending>)

  /** A snapshot of the server's mutable state. */
  datatype Store = Store(names: seq<Name>, users: map<Name, Account>, activeUsers: map<Name, ConnId>)

  class ChatServer {
    /** `hash_password`: the SHA-256 hex digest of the password. */
    const hash: string -> string

    /** The keys of the `OrderedDict` of users, in insertion order. */
    var names: seq<Name>
    var users: map<Name, Account>
    var activeUsers: map<Name, ConnId>

    ghost predicate Valid()
      reads this
    {
      && Distinct(names)
      && (forall n :: n in names <==> n in users)
      && activeUsers.Keys <= users.Keys
    }

    function Snap(): Store
      reads this
    {
      Store(names, users, activeUsers)
    }

    constructor (hash: string -> string)
      ensures Valid() && this.hash == hash
      ensures names == [] && users == map[] && activeUsers == map[]
    {
      this.hash := hash;
      names := [];
      users := map[];
      activeUsers := map[];
    }

    /**
     * `login` from state `s0` to `s1`: unknown name, wrong password, a
     * session already open, or the connection becomes the user's session
     * and the reply counts the undelivered messages.
     */
    predicate LoginSpec(s0: Store, s1: Store, conn: ConnId, req: Request, sent: seq<Message>)
    {
      var u := req.from;
      && s1.names == s0.names && s1.users == s0.users
      && if u !in s0.users then sent == [Refusal(conn, req.cmd, "Invalid or incorrect username")] && s1.activeUsers == s0.activeUsers
         else if s0.users[u].passwordHash != hash(req.password) then
           sent == [Refusal(conn, req.cmd, "Invalid or incorrect password")] && s1.activeUsers == s0.activeUsers
         else if u in s0.activeUsers then
           sent == [Refusal(conn, req.cmd, "You are already logged in!")] && s1.activeUsers == s0.activeUsers
         else
           && s1.activeUsers == s0.activeUsers[u := conn]
           && sent == [Notice(conn, req.cmd, "Login successful! You have " + Decimal(|s0.users[u].messages|) + " messages").(to := u)]
    }

    method Login(conn: ConnId, req: Request) returns (sent: seq<Message>)
      requires Valid()
      modifies this`activeUsers
      ensures Valid()
      ensures LoginSpec(old(Snap()), Snap(), conn, req, sent)
    {
      var u := req.from;
      if u !in users {
        return [Refusal(conn, req.cmd, "Invalid or incorrect username")];
      }
      if users[u].passwordHash != hash(req.password) {
        return [Refusal(conn, req.cmd, "Invalid or incorrect password")];
      }
      if u in activeUsers {
        return [Refusal(conn, req.cmd, "You are already logged in!")];
      }
      activeUsers := activeUsers[u := conn];
      return [Notice(conn, req.cmd, "Login successful! You have " + Decimal(|users[u].messages|) + " messages").(to := u)];
    }

    /** `create`: a name not taken yet gets an account with the hashed password and an empty inbox. */
    predicate CreateSpec(s0: Store, s1: Store, conn: ConnId, req: Request, sent: seq<Message>)
    {
      var u := req.from;
      && s1.activeUsers == s0.activeUsers
      && if u in s0.users then
           sent == [Refusal(conn, req.cmd, "This username already exists")] && s1.names == s0.names && s1.users == s0.users
         else
           && sent == [Notice(conn, req.cmd, "Account has been created!").(to := u)]
           && s1.names == s0.names + [u]
           && s1.users == s0.users[u := Account(hash(req.password), [])]
    }

    method Create(conn: ConnId, req: Request) returns (sent: seq<Message>)
      requires Valid()
      modifies this`names, this`users
      ensures Valid()
      ensures CreateSpec(old(Snap()), Snap(), conn, req, sent)
    {
      var u := req.from;
      if u in users {
        return [Refusal(conn, req.cmd, "This username already exists")];
      }
      users := users[u := Account(hash(req.password), [])];
      names := names + [u];
      return [Notice(conn, req.cmd, "Account has been created!").(to := u)];
    }

    /** `list`: the registered names matching the wildcard (`*` when missing), comma-joined. */
    method List(conn: ConnId, req: Request) returns (st: Outcome, sent: seq<Message>)
      requires Valid()
      ensures (st, sent) == ListReply(conn, req.cmd, names, req.body)
    {
      st, sent := ListReply(conn, req.cmd, names, req.body).0, ListReply(conn, req.cmd, names, req.body).1;
    }

    /**
     * `send`: a missing or unknown recipient is refused. A logged-in
     * recipient gets the message pushed as a `read` frame; if that push
     * fails, and when the recipient is not logged in, the pair goes to the
     * recipient's inbox.
     */
    predicate SendSpec(s0: Store, s1: Store, conn: ConnId, req: Request, pushFails: bool, sent: seq<Message>)
    {
      && s1.names == s0.names && s1.activeUsers == s0.activeUsers
      && if req.to.None? || req.to.value !in s0.users then
           sent == [Refusal(conn, req.cmd, "User not found")] && s1.users == s0.users
         else
           var (u, r) := (req.from, req.to.value);
           if r in s0.activeUsers && !pushFails then
             && sent == [Message(s0.activeUsers[r], "read", u, "", req.body, false), Notice(conn, req.cmd, "Your message has been sent")]
             && s1.users == s0.users
           else
             && sent == [Notice(conn, req.cmd, "Your message has been sent")]
             && s1.users == s0.users[r := s0.users[r].(messages := s0.users[r].messages + [(u, req.body)])]
    }

    method Send(conn: ConnId, req: Request, pushFails: bool) returns (sent: seq<Message>)
      requires Valid()
      modifies this`users
      ensures Valid()
      ensures SendSpec(old(Snap()), Snap(), conn, req, pushFails, sent)
    {
      if req.to.None? || req.to.value !in users {
        return [Refusal(conn, req.cmd, "User not found")];
      }
      var (u, r) := (req.from, req.to.value);
      sent := [];
      if r in activeUsers && !pushFails {
        sent := [Message(activeUsers[r], "read", u, "", req.body, false)];
      } else {
        users := users[r := users[r].(messages := users[r].messages + [(u, req.body)])];
      }
      return sent + [Notice(conn, req.cmd, "Your message has been sent")];
    }

    /**
     * `read`: with a limit, `messages[:limit]` is sent and `messages[limit:]`
     * stays (Python slices, so a negative limit keeps the last ones);
     * without one, everything is sent. Each message is its own `read`
     * frame. A non-empty list as body makes `int` raise.
     */
    predicate ReadSpec(s0: Store, s1: Store, conn: ConnId, req: Request, st: Outcome, sent: seq<Message>)
    {
      var u := req.from;
      && s1.names == s0.names && s1.activeUsers == s0.activeUsers
      && if u !in s0.users then st == Continue && sent == [Refusal(conn, req.cmd, "User not found")] && s1.users == s0.users
         else if ReadLimit(req.body).Err? then st == Raised && sent == [] && s1.users == s0.users
         else
           var (view, keep) := TakeSlice(s0.users[u].messages, ReadLimit(req.body).value);
           && st == Continue
           && s1.users == s0.users[u := s0.users[u].(messages := keep)]
           && |sent| == |view|
           && forall i :: 0 <= i < |view| ==> sent[i] == Message(conn, "read", view[i].0, "", view[i].1, false)
    }

    method Read(conn: ConnId, req: Request) returns (st: Outcome, sent: seq<Message>)
      requires Valid()
      modifies this`users
      ensures Valid()
      ensures ReadSpec(old(Snap()), Snap(), conn, req, st, sent)
    {
      var u := req.from;
      if u !in users {
        return Continue, [Refusal(conn, req.cmd, "User not found")];
      }
      var limit := ReadLimit(req.body);
      if limit.Err? {
        return Raised, [];
      }
      var (view, keep) := TakeSlice(users[u].messages, limit.value);
      sent := ReadOut(conn, view);
      users := users[u := users[u].(messages := keep)];
      return Continue, sent;
    }

    /**
     * `delete_msg`: the listed positions leave the user's inbox. A list
     * body is taken as it is; a string is read as comma-separated numbers;
     * a number or `null` has no `split` and is answered "Invalid indices".
     */
    predicate DeleteMsgSpec(s0: Store, s1: Store, conn: ConnId, req: Request, sent: seq<Message>)
    {
      var u := req.from;
      && s1.names == s0.names && s1.activeUsers == s0.activeUsers
      && if u !in s0.users then sent == [Refusal(conn, req.cmd, "User not found")] && s1.users == s0.users
         else if IndexList(req.body).None? then sent == [Refusal(conn, req.cmd, "Invalid indices")] && s1.users == s0.users
         else
           && s1.users == s0.users[u := s0.users[u].(messages := DropPositions(s0.users[u].messages, IndexList(req.body).value))]
           && sent == [Notice(conn, req.cmd, "Specified messages deleted")]
    }

    method DeleteMsg(conn: ConnId, req: Request) returns (sent: seq<Message>)
      requires Valid()
      modifies this`users
      ensures Valid()
      ensures DeleteMsgSpec(old(Snap()), Snap(), conn, req, sent)
    {
      var u := req.from;
      if u !in users {
        return [Refusal(conn, req.cmd, "User not found")];
      }
      var indices := IndexList(req.body);
      if indices.None? {
        return [Refusal(conn, req.cmd, "Invalid indices")];
      }
      users := users[u := users[u].(messages := DropPositions(users[u].messages, indices.value))];
      return [Notice(conn, req.cmd, "Specified messages deleted")];
    }

    /**
     * `delete`: only an existing account with an empty inbox goes, together
     * with its session; success sends nothing back.
     */
    predicate DeleteSpec(s0: Store, s1: Store, conn: ConnId, req: Request, sent: seq<Message>)
    {
      var u := req.from;
      if u !in s0.users then sent == [Refusal(conn, req.cmd, "The user does not exist")] && s1 == s0
      else if s0.users[u].messages != [] then sent == [Refusal(conn, req.cmd, "Undelivered messages stil exist")] && s1 == s0
      else
        && sent == []
        && s1.names == Remove(s0.names, u)
        && s1.users == s0.users - {u}
        && s1.activeUsers == s0.activeUsers - {u}
    }

    method Delete(conn: ConnId, req: Request) returns (sent: seq<Message>)
      requires Valid()
      modifies this`names, this`users, this`activeUsers
      ensures Valid()
      ensures DeleteSpec(old(Snap()), Snap(), conn, req, sent)
    {
      var u := req.from;
      if u !in users {
        return [Refusal(conn, req.cmd, "The user does not exist")];
      }
      if users[u].messages != [] {
        return [Refusal(conn, req.cmd, "Undelivered messages stil exist")];
      }
      RemoveKey(names, users, u);
      users := users - {u};
      names := Remove(names, u);
      activeUsers := activeUsers - {u};
      return [];
    }

    /** `logoff`: the session ends, if there is one; nothing is sent back. */
    method Logoff(req: Request)
      requires Valid()
      modifies this`activeUsers
      ensures Valid()
      ensures activeUsers == old(activeUsers) - {req.from}
    {
      activeUsers := activeUsers - {req.from};
    }

    /**
     * One request from `s0` to `s1`: the `cmd` field picks the handler;
     * `close` ends the connection and anything else is answered
     * "Unknown command".
     */
    predicate StepSpec(s0: Store, s1: Store, conn: ConnId, req: Request, pushFails: bool, st: Outcome, sent: seq<Message>)
    {
      match req.cmd
      case "login" => st == Continue && LoginSpec(s0, s1, conn, req, sent)
      case "create" => st == Continue && CreateSpec(s0, s1, conn, req, sent)
      case "list" => s1 == s0 && (st, sent) == ListReply(conn, req.cmd, s0.names, req.body)
      case "send" => st == Continue && SendSpec(s0, s1, conn, req, pushFails, sent)
      case "read" => ReadSpec(s0, s1, conn, req, st, sent)
      case "delete_msg" => st == Continue && DeleteMsgSpec(s0, s1, conn, req, sent)
      case "delete" => st == Continue && DeleteSpec(s0, s1, conn, req, sent)
      case "logoff" =>
        && st == Continue && sent == []
        && s1 == s0.(activeUsers := s0.activeUsers - {req.from})
      case "close" => st == Close && sent == [] && s1 == s0
      case _ => st == Continue && sent == [Refusal(conn, "error", "Unknown command")] && s1 == s0
    }

    method Handle(conn: ConnId, req: Request, pushFails: bool) returns (st: Outcome, sent: seq<Message>)
      requires Valid()
      modifies this
      ensures Valid()
      ensures StepSpec(old(Snap()), Snap(), conn, req, pushFails, st, sent)
      ensures forall i :: 0 <= i < |sent| ==> sent[i].conn == conn || sent[i].cmd == "read"
    {
      st := Continue;
      sent := [];
      if req.cmd == "login" {
        sent := Login(conn, req);
      } else if req.cmd == "create" {
        sent := Create(conn, req);
      } else if req.cmd == "list" {
        st, sent := List(conn, req);
      } else if req.cmd == "send" {
        sent := Send(conn, req, pushFails);
      } else if req.cmd == "read" {
        st, sent := Read(conn, req);
      } else if req.cmd == "delete_msg" {
        sent := DeleteMsg(conn, req);
      } else if req.cmd == "delete" {
        sent := Delete(conn, req);
      } else if req.cmd == "logoff" {
        Logoff(req);
      } else if req.cmd == "close" {
        st := Close;
      } else {
        sent := [Refusal(conn, "error", "Unknown command")];
      }
    }

    /** `Handle` as a relation on line positions, with `pushFails(i)` for the push outcome of the `i`-th line. */
    ghost function Rule(conn: ConnId, pushFails: nat -> bool): (Store, nat, Request, Outcome, seq<Message>, Store) -> bool
    {
      (s0: Store, i: nat, req: Request, st: Outcome, sent: seq<Message>, s1: Store) => StepSpec(s0, s1, conn, req, pushFails(i), st, sent)
    }

    /**
     * One pass of the loop of `handle_client`, for line `i`: a blank line is
     * skipped, a line that is not JSON gets "Invalid JSON", JSON that is not
     * an object stops the loop, and a request is handled by `Handle`, which
     * stops the loop unless it continued. `turns` grow by the turn taken.
     */
    method HandleLine(conn: ConnId, lines: seq<string>, i: nat, parse: string -> Parsed, pushFails: nat -> bool,
                      ghost s0: Store, ghost turns: seq<Turn<Store, Message>>)
      returns (stop: bool, out: seq<Message>, ghost turns': seq<Turn<Store, Message>>)
      requires Valid() && i < |lines|
      requires Served(lines, parse, i, s0, turns, Snap(), Rule(conn, pushFails), Refusal(conn, "error", "Invalid JSON"))
      modifies this
      ensures Valid()
      ensures Outputs(turns') == Outputs(turns) + out
      ensures !stop ==> Served(lines, parse, i + 1, s0, turns', Snap(), Rule(conn, pushFails), Refusal(conn, "error", "Invalid JSON"))
      ensures stop ==> Session(s0, Script(lines, parse), turns', Snap(), Rule(conn, pushFails), Refusal(conn, "error", "Invalid JSON"))
    {
      ghost var step := Rule(conn, pushFails);
      ghost var invalid := Refusal(conn, "error", "Invalid JSON");
      stop, out, turns' := false, [], turns;
      if lines[i] == "" {
        ServedBlank(lines, parse, i, s0, turns, Snap(), step, invalid);
        return;
      }
      match parse(lines[i])
      case Malformed =>
        var t := Turn(Snap(), NotJson(i), Continue, [invalid], Snap());
        ServedItem(lines, parse, i, s0, turns, Snap(), t, step, invalid);
        out, turns' := [Refusal(conn, "error", "Invalid JSON")], turns + [t];
      case NotAnObject =>
        ServedStop(lines, parse, i, s0, turns, Snap(), step, invalid);
        stop := true;
      case Object(req) =>
        ghost var before := Snap();
        var st;
        st, out := Handle(conn, req, pushFails(i));
        var t := Turn(before, Command(i, req), st, out, Snap());
        ServedItem(lines, parse, i, s0, turns, before, t, step, invalid);
        turns' := turns + [t];
        stop := st != Continue;
    }

    /**
     * `handle_client`: every complete line is one request, handled in
     * order; blank lines are skipped, a line that is not JSON gets an
     * "Invalid JSON" error, and JSON that is not an object, an exception or
     * `close` ends the loop. `parse` stands for `json.loads`. The ghost
     * `turns` record the state before and after every handled item.
     */
    method HandleClient(conn: ConnId, stream: seq<TextChunk>, parse: string -> Parsed, pushFails: nat -> bool)
      returns (sent: seq<Message>, ghost turns: seq<Turn<Store, Message>>)
      requires Valid()
      modifies this
      ensures Valid()
      ensures Session(old(Snap()), Script(Lines(stream), parse), turns, Snap(), Rule(conn, pushFails), Refusal(conn, "error", "Invalid JSON"))
      ensures sent == Outputs(turns)
      ensures Script(Lines(stream), parse) == [] ==> sent == [] && Snap() == old(Snap())
    {
      var lines, rest := ReadMessages(stream);
      assert lines == Lines(stream);
      ghost var s0 := Snap();
      sent, turns := [], [];
      ServedStart(lines, parse, s0, Rule(conn, pushFails), Refusal(conn, "error", "Invalid JSON"));
      for i := 0 to |lines|
        invariant Valid()
        invariant Served(lines, parse, i, s0, turns, Snap(), Rule(conn, pushFails), Refusal(conn, "error", "Invalid JSON"))
        invariant sent == Outputs(turns)
      {
        var stop, out;
        stop, out, turns := HandleLine(conn, lines, i, parse, pushFails, s0, turns);
        sent := sent + out;
        if stop {
          return;
        }
      }
      ServedEnd(lines, parse, s0, turns, Snap(), Rule(conn, pushFails), Refusal(conn, "error", "Invalid JSON"));
    }
  }

  /**
   * An account with an undelivered message cannot be deleted; once the
   * message is read (one `read` frame from its sender) the deletion goes
   * through without a reply and the name is free again.
   */
  method DeleteScenario(hash: string -> string, body: Value)
    returns (blocked: seq<Message>, delivered: seq<Message>, deleted: seq<Message>, registered: bool)
    ensures blocked == [Refusal(1, "delete", "Undelivered messages stil exist")]
    ensures delivered == [Message(1, "read", "alice", "", body, false)]
    ensures deleted == [] && !registered
  {
    var s := Queued(hash, body);
    blocked := s.Delete(1, Request("delete", "bob", None, Absent, ""));
    var st;
    st, delivered := s.Read(1, Request("read", "bob", None, Absent, ""));
    deleted := s.Delete(1, Request("delete", "bob", None, Absent, ""));
    registered := "bob" in s.users;
  }

  /** Two fresh accounts after alice wrote to bob, who is not logged in. */
  method Queued(hash: string -> string, body: Value) returns (s: ChatServer)
    ensures fresh(s) && s.Valid() && "bob" in s.users && s.users["bob"].messages == [("alice", body)]
  {
    s := new ChatServer(hash);
    var _ := s.Create(0, Request("create", "alice", None, Absent, "pw"));
    var _ := s.Create(1, Request("create", "bob", None, Absent, "pw"));
    var _ := s.Send(0, Request("send", "alice", Some("bob"), body, ""), false);
  }
}
