/**
 * `Server/chat_server.py`: the loop that reads newline-terminated JSON
 * requests from one connection and routes each to a handler of
 * `Server/handlers.py`. Only eight commands are routed; `close` ends the
 * connection and everything else, `view_conv` included, is an unknown
 * command.
 */
module ChatServerMain {
  import opened Wrappers
  import opened Pairs
  import opened JsonRequest
  import opened LineFraming
  import opened Handlers
  import opened Sessions

  /** Where `handle_client` sends a request. */
  datatype Route = ToLogin | ToCreate | ToList | ToSend | ToRead | ToDeleteMsg | ToDelete | ToLogoff | ToClose | ToError

  /** The `cmd` value that selects a route. */
  function CommandOf(r: Route): (c: string)
    requires r != ToError
  {
    match r
    case ToLogin => "login"
    case ToCreate => "create"
    case ToList => "list"
    case ToSend => "send"
    case ToRead => "read"
    case ToDeleteMsg => "delete_msg"
    case ToDelete => "delete"
    case ToLogoff => "logoff"
    case ToClose => "close"
  }

  /**
   * The `if`/`elif` chain on `cmd`: the nine names select their route, and
   * every other string, `view_conv` among them, is an unknown command.
   */
  function RouteOf(cmd: string): (r: Route)
    ensures r == ToError <==> cmd !in {"login", "create", "list", "send", "read", "delete_msg", "delete", "logoff", "close"}
    ensures r != ToError ==> CommandOf(r) == cmd
  {
    if cmd == "login" then ToLogin
    else if cmd == "create" then ToCreate
    else if cmd == "list" then ToList
    else if cmd == "send" then ToSend
    else if cmd == "read" then ToRead
    else if cmd == "delete_msg" then ToDeleteMsg
    else if cmd == "delete" then ToDelete
    else if cmd == "logoff" then ToLogoff
    else if cmd == "close" then ToClose
    else ToError
  }

  /** Every route but the error one is selected by exactly its own command. */
  lemma RouteOfCommand(r: Route)
    requires r != ToError
    ensures RouteOf(CommandOf(r)) == r
  {
  }

  /**
   * One request from `s0` to `s1`, routed by `RouteOf` to the handler
   * whose contract it then meets; `close` ends the connection and an
   * unknown command is answered "Unknown command", both without a change.
   */
  predicate StepSpec(s: ChatState, s0: Store, s1: Store, conn: ConnId, req: Request, pushFails: bool, st: Outcome, sent: seq<Message>)
  {
    match RouteOf(req.cmd)
    case ToLogin => st == Continue && s.LoginSpec(s0, s1, conn, req, sent)
    case ToCreate => st == Continue && s.CreateSpec(s0, s1, conn, req, sent)
    case ToList => s1 == s0 && (st, sent) == ListReply(conn, req.cmd, s0.names, req.body)
    case ToSend => s.SendSpec(s0, s1, conn, req, pushFails, st, sent)
    case ToRead => s.ReadSpec(s0, s1, conn, req, st, sent)
    case ToDeleteMsg => st == Continue && s.DeleteMsgSpec(s0, s1, conn, req, sent)
    case ToDelete => st == Continue && s.DeleteSpec(s0, s1, conn, req, sent)
    case ToLogoff => st == Continue && sent == [] && s1 == s0.(activeUsers := s0.activeUsers - {req.from})
    case ToClose => st == Close && sent == [] && s1 == s0
    case ToError => st == Continue && sent == [Refusal(conn, "error", "Unknown command")] && s1 == s0
  }

  /**
   * One request, routed by `RouteOf`. Replies go back on `conn`, except
   * `read` frames pushed to a recipient's session. A state without
   * `conversations` never gets one.
   */
  method Dispatch(s: ChatState, conn: ConnId, req: Request, pushFails: bool) returns (st: Outcome, sent: seq<Message>)
    requires s.Valid()
    modifies s
    ensures s.Valid()
    ensures StepSpec(s, old(s.Snap()), s.Snap(), conn, req, pushFails, st, sent)
    ensures forall i :: 0 <= i < |sent| ==> sent[i].conn == conn || sent[i].cmd == "read"
    ensures old(s.conversations).None? ==> s.conversations.None?
  {
    st := Continue;
    sent := [];
    match RouteOf(req.cmd) {
    case ToLogin => sent := s.Login(conn, req);
    case ToCreate => sent := s.Create(conn, req);
    case ToList => st, sent := s.List(conn, req);
    case ToSend => st, sent := s.Send(conn, req, pushFails);
    case ToRead => st, sent := s.Read(conn, req);
    case ToDeleteMsg => sent := s.DeleteMsg(conn, req);
    case ToDelete => sent := s.Delete(conn, req);
    case ToLogoff => s.Logoff(req);
    case ToClose => st := Close;
    case ToError => sent := [Refusal(conn, "error", "Unknown command")];
    }
    DispatchReplies(s, old(s.Snap()), s.Snap(), conn, req, pushFails, st, sent);
  }

  /** Every reply of a routed request goes back on its connection, except a `read` frame pushed to the recipient. */
  lemma DispatchReplies(s: ChatState, s0: Store, s1: Store, conn: ConnId, req: Request, pushFails: bool, st: Outcome, sent: seq<Message>)
    requires StepSpec(s, s0, s1, conn, req, pushFails, st, sent)
    ensures forall i :: 0 <= i < |sent| ==> sent[i].conn == conn || sent[i].cmd == "read"
  {
    match RouteOf(req.cmd)
    case ToLogin => assert s.LoginSpec(s0, s1, conn, req, sent);
    case ToCreate => assert s.CreateSpec(s0, s1, conn, req, sent);
    case ToList =>
    case ToSend => assert s.SendSpec(s0, s1, conn, req, pushFails, st, sent);
    case ToRead => assert s.ReadSpec(s0, s1, conn, req, st, sent);
    case ToDeleteMsg => assert s.DeleteMsgSpec(s0, s1, conn, req, sent);
    case ToDelete => assert s.DeleteSpec(s0, s1, conn, req, sent);
    case ToLogoff =>
    case ToClose =>
    case ToError =>
  }

  /** `Dispatch` as a relation on line positions, with `pushFails(i)` for the push outcome of the `i`-th line. */
  ghost function Rule(s: ChatState, conn: ConnId, pushFails: nat -> bool): (Store, nat, Request, Outcome, seq<Message>, Store) -> bool
  {
    (s0: Store, i: nat, req: Request, st: Outcome, sent: seq<Message>, s1: Store) => StepSpec(s, s0, s1, conn, req, pushFails(i), st, sent)
  }

  /**
   * One pass of the loop of `handle_client`, for line `i`: a blank line is
   * skipped, a line that is not JSON gets "Invalid JSON", JSON that is not
   * an object stops the loop, and a request is routed by `Dispatch`, which
   * stops the loop unless it continued. `turns` grow by the turn taken.
   */
  method HandleLine(s: ChatState, conn: ConnId, lines: seq<string>, i: nat, parse: string -> Parsed, pushFails: nat -> bool,
                    ghost s0: Store, ghost turns: seq<Turn<Store, Message>>)
    returns (stop: bool, out: seq<Message>, ghost turns': seq<Turn<Store, Message>>)
    requires s.Valid() && i < |lines|
    requires Served(lines, parse, i, s0, turns, s.Snap(), Rule(s, conn, pushFails), Refusal(conn, "error", "Invalid JSON"))
    modifies s
    ensures s.Valid()
    ensures Outputs(turns') == Outputs(turns) + out
    ensures !stop ==> Served(lines, parse, i + 1, s0, turns', s.Snap(), Rule(s, conn, pushFails), Refusal(conn, "error", "Invalid JSON"))
    ensures stop ==> Session(s0, Script(lines, parse), turns', s.Snap(), Rule(s, conn, pushFails), Refusal(conn, "error", "Invalid JSON"))
    ensures old(s.conversations).None? ==> s.conversations.None?
  {
    ghost var step := Rule(s, conn, pushFails);
    ghost var invalid := Refusal(conn, "error", "Invalid JSON");
    stop, out, turns' := false, [], turns;
    if lines[i] == "" {
      ServedBlank(lines, parse, i, s0, turns, s.Snap(), step, invalid);
      return;
    }
    match parse(lines[i])
    case Malformed =>
      var t := Turn(s.Snap(), NotJson(i), Continue, [invalid], s.Snap());
      ServedItem(lines, parse, i, s0, turns, s.Snap(), t, step, invalid);
      out, turns' := [Refusal(conn, "error", "Invalid JSON")], turns + [t];
    case NotAnObject =>
      ServedStop(lines, parse, i, s0, turns, s.Snap(), step, invalid);
      stop := true;
    case Object(req) =>
      ghost var before := s.Snap();
      var st;
      st, out := Dispatch(s, conn, req, pushFails(i));
      var t := Turn(before, Command(i, req), st, out, s.Snap());
      ServedItem(lines, parse, i, s0, turns, before, t, step, invalid);
      turns' := turns + [t];
      stop := st != Continue;
  }

  /**
   * `handle_client`: every complete line is one request, handled in
   * order; blank lines are skipped, a line that is not JSON gets an
   * "Invalid JSON" error, and JSON that is not an object, an exception or
   * `close` ends the loop. `parse` stands for `json.loads`. The ghost
   * `turns` record the state before and after every handled item.
   */
  method HandleClient(s: ChatState, conn: ConnId, stream: seq<TextChunk>, parse: string -> Parsed, pushFails: nat -> bool)
    returns (sent: seq<Message>, ghost turns: seq<Turn<Store, Message>>)
    requires s.Valid()
    modifies s
    ensures s.Valid()
    ensures Session(old(s.Snap()), Script(Lines(stream), parse), turns, s.Snap(), Rule(s, conn, pushFails), Refusal(conn, "error", "Invalid JSON"))
    ensures sent == Outputs(turns)
    ensures Script(Lines(stream), parse) == [] ==> sent == [] && s.Snap() == old(s.Snap())
    ensures old(s.conversations).None? ==> s.conversations.None?
  {
    var lines, rest := ReadMessages(stream);
    assert lines == Lines(stream);
    ghost var s0 := s.Snap();
    sent, turns := [], [];
    ServedStart(lines, parse, s0, Rule(s, conn, pushFails), Refusal(conn, "error", "Invalid JSON"));
    for i := 0 to |lines|
      invariant s.Valid()
      invariant Served(lines, parse, i, s0, turns, s.Snap(), Rule(s, conn, pushFails), Refusal(conn, "error", "Invalid JSON"))
      invariant sent == Outputs(turns)
      invariant old(s.conversations).None? ==> s.conversations.None?
    {
      var stop, out;
      stop, out, turns := HandleLine(s, conn, lines, i, parse, pushFails, s0, turns);
      sent := sent + out;
      if stop {
        return;
      }
    }
    ServedEnd(lines, parse, s0, turns, s.Snap(), Rule(s, conn, pushFails), Refusal(conn, "error", "Invalid JSON"));
  }

  /**
   * On the server as started, the first message to an existing user
   * raises inside `handle_send`: the connection closes, the sender gets no
   * reply and nothing reaches the recipient.
   */
  method SendAsWritten(hash: string -> string, render: seq<ConvEntry> -> string, u: Name, r: Name, password: string, body: Value)
    returns (st: Outcome, sent: seq<Message>, inbox: seq<Pending>)
    ensures st == Raised && sent == [] && inbox == []
  {
    var s := new ChatState.AsWritten(hash, render);
    var _ := s.Create(0, Request("create", u, None, Absent, password));
    var _ := s.Create(1, Request("create", r, None, Absent, password));
    st, sent := s.Send(0, Request("send", u, Some(r), body, ""), false);
    inbox := s.users[r].messages;
  }

  /**
   * With `conversations` set at start-up, the same message is recorded in
   * the history of the two names, queued for the offline recipient and
   * confirmed to the sender.
   */
  method SendCorrected(hash: string -> string, render: seq<ConvEntry> -> string, u: Name, r: Name, password: string, body: Value)
    returns (st: Outcome, sent: seq<Message>, history: seq<ConvEntry>, inbox: seq<Pending>)
    ensures st == Continue && sent == [Notice(0, "send", "Your message has been sent")]
    ensures history == [ConvEntry(u, r, body)] && inbox == [(u, body)]
  {
    var s := new ChatState.Corrected(hash, render);
    var _ := s.Create(0, Request("create", u, None, Absent, password));
    var _ := s.Create(1, Request("create", r, None, Absent, password));
    st, sent := s.Send(0, Request("send", u, Some(r), body, ""), false);
    history := s.conversations.value[SortedPair(u, r, CharRank)];
    inbox := s.users[r].messages;
  }
}
