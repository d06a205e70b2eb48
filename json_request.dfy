/**
 * What the three JSON-line servers read from a decoded request object and
 * how they interpret its fields. A request is the Python dictionary that
 * `json.loads` returned; JSON text itself is not modelled.
 */
module JsonRequest {
  import opened Wrappers
  import opened Seqs
  import opened PyText
  import opened DataStore

  /** Stands for a connection object. */
  type ConnId = nat

  /**
   * The JSON values a request field can hold here: missing, `null`, a
   * string, an integer, or a list of integers. A missing field and `null`
   * differ wherever a handler reads the field with a default
   * (`parts.get("body", "*")`); where it reads it without one both are
   * Python's `None`.
   */
  datatype Value = Absent | Null | Str(s: string) | Num(n: int) | IntList(xs: seq<int>)

  /** Python truthiness: `None`, `""`, `0` and `[]` are false. */
  predicate Truthy(v: Value)
  {
    match v
    case Absent => false
    case Null => false
    case Str(s) => s != []
    case Num(n) => n != 0
    case IntList(xs) => xs != []
  }

  /**
   * The fields the handlers read: `cmd`, `from`, `to` (`None` when missing),
   * `body` and `password` (`""` when missing).
   */
  datatype Request = Request(cmd: string, from: string, to: Option<string>, body: Value, password: string)

  /** What `json.loads` made of one line: not JSON, JSON but not an object, or an object. */
  datatype Parsed = Malformed | NotAnObject | Object(request: Request)

  /** How one handler call ends: go on with the next line, leave on `close`, or leave on an exception. */
  datatype Outcome = Continue | Close | Raised

  /**
   * `limit = int(body)` when the body is truthy. `int` of a string that is
   * not a number raises `ValueError`, which is caught and means no limit;
   * `int` of a list raises `TypeError`, which is not caught (`Err`).
   */
  function ReadLimit(body: Value): (r: Result<Option<int>, ()>)
    ensures r.Err? <==> body.IntList? && body.xs != []
    ensures !Truthy(body) ==> r == Ok(None)
    ensures body.Num? ==> r == Ok(if body.n == 0 then None else Some(body.n))
    ensures body.Str? ==> r == Ok(if body.s == [] then None else ParseInt(body.s))
  {
    if !Truthy(body) then Ok(None)
    else
      match body
      case Str(s) => Ok(ParseInt(s))
      case Num(n) => Ok(Some(n))
      case IntList(_) => Err(())
  }

  /**
   * `parts.get("body", "*")` as a wildcard: a missing body lists everyone;
   * a body that is not a string, `null` included, makes `fnmatch` raise
   * `TypeError`.
   */
  function ListPattern(body: Value): (r: Option<string>)
    ensures r.Some? <==> body.Absent? || body.Str?
    ensures body.Absent? ==> r == Some("*")
    ensures body.Str? ==> r == Some(body.s)
  {
    match body
    case Absent => Some("*")
    case Str(s) => Some(s)
    case _ => None
  }

  /**
   * `[int(x.strip()) for x in raw.split(",") if x.strip().isdigit()]` of
   * `parts.get("body", "")`: `None` where the body has no `split`, `null`
   * included (the `AttributeError` the handler catches).
   */
  function CommaIdList(body: Value): (r: Option<seq<nat>>)
    ensures r.Some? <==> body.Absent? || body.Str?
    ensures body.Absent? ==> r == Some([])
    ensures body.Str? ==> r == Some(CommaIds(body.s))
  {
    match body
    case Absent => Some(CommaIds(""))
    case Str(s) => Some(CommaIds(s))
    case _ => None
  }

  /**
   * The positions a delete request names: a JSON list is taken as it is,
   * anything else goes through the comma-separated form, which fails for
   * a number and for `null`.
   */
  function IndexList(body: Value): (r: Option<seq<int>>)
    ensures r.Some? <==> body.IntList? || CommaIdList(body).Some?
    ensures r.Some? <==> !body.Num? && !body.Null?
    ensures body.IntList? ==> r == Some(body.xs)
    ensures !body.IntList? ==> r == CommaIdList(body)
  {
    match body
    case IntList(xs) => Some(xs)
    case _ => CommaIdList(body)
  }

  /** `create_msg(cmd, src, to, body, err)` sent on connection `conn`. */
  datatype Message = Message(conn: ConnId, cmd: string, src: string, to: string, body: Value, err: bool)

  /**
   * `list` in the servers without message ids: the registered names that
   * match the wildcard (`*` when the body is missing), in registration
   * order and comma-joined; a body that is not a string raises instead and
   * nothing is sent.
   */
  function ListReply(conn: ConnId, cmd: string, names: seq<string>, body: Value): (r: (Outcome, seq<Message>))
    ensures r.0 == Raised <==> ListPattern(body).None?
    ensures r.0 == Raised ==> r.1 == []
    ensures r.0 != Raised ==> r.0 == Continue
    ensures r.0 != Raised ==> r.1 == [Notice(conn, cmd, Join(MatchingUsers(names, ListPattern(body).value, '*', '?'), ','))]
  {
    match ListPattern(body)
    case None => (Raised, [])
    case Some(pattern) => (Continue, [Notice(conn, cmd, Join(MatchingUsers(names, pattern, '*', '?'), ','))])
  }

  /** A reply carrying plain text, with the error flag clear. */
  function Notice(conn: ConnId, cmd: string, text: string): Message
  {
    Message(conn, cmd, "", "", Str(text), false)
  }

  /** A reply carrying plain text, with the error flag set. */
  function Refusal(conn: ConnId, cmd: string, text: string): Message
  {
    Message(conn, cmd, "", "", Str(text), true)
  }

  /** An undelivered message: `(sender, message)`, the message being whatever JSON the sender put in `body`. */
  type Pending = (string, Value)

  /**
   * `user_messages[:limit]` and `user_messages[limit:]` with Python's slice
   * rules (a negative limit counts from the end); no limit takes everything.
   */
  function TakeSlice<T>(msgs: seq<T>, limit: Option<int>): (r: (seq<T>, seq<T>))
    ensures r.0 + r.1 == msgs
    ensures limit.None? ==> r.1 == []
    ensures limit.Some? && limit.value >= 0 ==> |r.0| == Min(limit.value, |msgs|)
    ensures limit.Some? && limit.value < 0 ==> |r.1| == Min(-limit.value, |msgs|)
  {
    if limit.Some? then (SliceTo(msgs, limit.value), SliceFrom(msgs, limit.value)) else (msgs, [])
  }

  /**
   * `for (sender, msg_text) in messages: conn.send(create_msg("read",
   * src=sender, body=msg_text))`: one `read` message per entry, in order.
   */
  method ReadOut(conn: ConnId, msgs: seq<Pending>) returns (sent: seq<Message>)
    ensures |sent| == |msgs|
    ensures forall i :: 0 <= i < |msgs| ==> sent[i] == Message(conn, "read", msgs[i].0, "", msgs[i].1, false)
  {
    sent := [];
    for i := 0 to |msgs|
      invariant |sent| == i
      invariant forall j :: 0 <= j < i ==> sent[j] == Message(conn, "read", msgs[j].0, "", msgs[j].1, false)
    {
      sent := sent + [Message(conn, "read", msgs[i].0, "", msgs[i].1, false)];
    }
  }
}
