/**
 * What the three JSON-line servers do with one connection, apart from the
 * handlers themselves: which lines of the received text become requests,
 * in which order they are handled, and where handling stops. A server
 * supplies its state type `S`, its reply type `M` and a step relation
 * that says what one handled request does.
 */
module Sessions {
  import opened Seqs
  import opened JsonRequest
  import opened LineFraming

  /** The lines `read_messages` yields before the peer closes: every piece of the text between newlines but the last. */
  function Lines(stream: seq<TextChunk>): (lines: seq<string>)
    ensures forall i :: 0 <= i < |lines| ==> '\n' !in lines[i]
    ensures |Split(Concat(stream), '\n')| == |lines| + 1 && Split(Concat(stream), '\n')[..|lines|] == lines
  {
    var parts := Split(Concat(stream), '\n');
    parts[..|parts| - 1]
  }

  /** A line `handle_client` acts on, by its position: one that is not JSON, or a request object. */
  datatype Item = NotJson(line: nat) | Command(line: nat, req: Request)

  /** The item says what `json.loads` made of its line. */
  predicate Reads(lines: seq<string>, parse: string -> Parsed, item: Item)
    requires item.line < |lines|
  {
    match item
    case NotJson(i) => parse(lines[i]) == Malformed
    case Command(i, req) => parse(lines[i]) == Object(req)
  }

  /** The positions of the non-blank lines among the first `n`, in order. */
  function NonBlank(lines: seq<string>, n: nat): (r: seq<nat>)
    requires n <= |lines|
    ensures forall k :: 0 <= k < |r| ==> r[k] < n && lines[r[k]] != ""
  {
    if n == 0 then [] else NonBlank(lines, n - 1) + (if lines[n - 1] == "" then [] else [n - 1])
  }

  /**
   * The first `n` lines as `handle_client` takes them: a blank line is
   * skipped, a line that is not JSON and a request object each become an
   * item, and JSON that is not an object stops the loop (`r.1`), so no
   * later line becomes an item. Until it stops, the items are those of the
   * non-blank lines, one each, in order.
   */
  function Scan(lines: seq<string>, parse: string -> Parsed, n: nat): (r: (seq<Item>, bool))
    requires n <= |lines|
    ensures forall k :: 0 <= k < |r.0| ==> r.0[k].line < n && lines[r.0[k].line] != "" && Reads(lines, parse, r.0[k])
    ensures forall k, l :: 0 <= k < l < |r.0| ==> r.0[k].line < r.0[l].line
    ensures r.1 <==> exists i :: 0 <= i < n && lines[i] != "" && parse(lines[i]) == NotAnObject
    ensures forall k, i :: 0 <= k < |r.0| && 0 <= i < n && lines[i] != "" && parse(lines[i]) == NotAnObject ==> r.0[k].line < i
    ensures !r.1 ==> |r.0| == |NonBlank(lines, n)| && forall k :: 0 <= k < |r.0| ==> r.0[k].line == NonBlank(lines, n)[k]
  {
    if n == 0 then ([], false)
    else
      var (items, stopped) := Scan(lines, parse, n - 1);
      var line := lines[n - 1];
      if stopped || line == "" then (items, stopped)
      else
        match parse(line)
        case Malformed =>
          assert (items + [NotJson(n - 1)])[|items|].line == n - 1;
          (items + [NotJson(n - 1)], false)
        case NotAnObject => (items, true)
        case Object(req) =>
          assert (items + [Command(n - 1, req)])[|items|].line == n - 1;
          (items + [Command(n - 1, req)], false)
  }

  /** All the items of a connection's lines. */
  function Script(lines: seq<string>, parse: string -> Parsed): seq<Item>
  {
    Scan(lines, parse, |lines|).0
  }

  /** Scanning further only adds items, and adds none once the loop has stopped. */
  lemma {:induction false} ScanPrefix(lines: seq<string>, parse: string -> Parsed, n: nat, m: nat)
    requires n <= m <= |lines|
    ensures Scan(lines, parse, n).0 <= Scan(lines, parse, m).0
    ensures Scan(lines, parse, n).1 ==> Scan(lines, parse, m) == Scan(lines, parse, n)
    decreases m
  {
    if n < m {
      ScanPrefix(lines, parse, n, m - 1);
    }
  }

  /** A non-blank line that is not a stop adds its own item. */
  lemma ScanNext(lines: seq<string>, parse: string -> Parsed, i: nat, item: Item)
    requires i < |lines| && !Scan(lines, parse, i).1 && lines[i] != ""
    requires item.line == i && Reads(lines, parse, item)
    ensures Scan(lines, parse, i + 1) == (Scan(lines, parse, i).0 + [item], false)
  {
    match item
    case NotJson(_) =>
    case Command(_, req) =>
  }

  /**
   * One handled item: the state before and after, how the handler call
   * ended, and what it sent.
   */
  datatype Turn<S, M> = Turn(before: S, item: Item, st: Outcome, out: seq<M>, after: S)

  /** Everything the turns sent, in order. */
  function Outputs<S, M>(turns: seq<Turn<S, M>>): (r: seq<M>)
    ensures turns == [] ==> r == []
  {
    if turns == [] then [] else Outputs(turns[..|turns| - 1]) + turns[|turns| - 1].out
  }

  /**
   * A turn done as the source does it: a line that is not JSON gets the
   * server's `invalid` reply and changes nothing; a request does what the
   * server's `step` relation says for it and its line position.
   */
  ghost predicate TurnDone<S, M>(t: Turn<S, M>, step: (S, nat, Request, Outcome, seq<M>, S) -> bool, invalid: M)
  {
    match t.item
    case NotJson(_) => t.st == Continue && t.out == [invalid] && t.after == t.before
    case Command(i, req) => step(t.before, i, req, t.st, t.out, t.after)
  }

  /**
   * A connection served from state `s0` to state `s1`: the turns handle a
   * prefix of the items in order, each from the state the previous one
   * left; every turn but the last continues, and only a last turn that did
   * not continue (`close`, or an exception) leaves items unhandled.
   */
  ghost predicate Session<S, M>(s0: S, items: seq<Item>, turns: seq<Turn<S, M>>, s1: S,
                                step: (S, nat, Request, Outcome, seq<M>, S) -> bool, invalid: M)
  {
    && |turns| <= |items|
    && (forall j :: 0 <= j < |turns| ==> turns[j].item == items[j] && TurnDone(turns[j], step, invalid))
    && (forall j :: 0 <= j < |turns| - 1 ==> turns[j].st == Continue && turns[j].after == turns[j + 1].before)
    && (if turns == [] then s1 == s0 else turns[0].before == s0 && turns[|turns| - 1].after == s1)
    && (|turns| < |items| ==> turns != [] && turns[|turns| - 1].st != Continue)
  }

  /**
   * The loop of `handle_client` after `i` lines: it has not stopped, has
   * handled every item of those lines, and the last of them continued.
   */
  ghost predicate Served<S, M>(lines: seq<string>, parse: string -> Parsed, i: nat, s0: S, turns: seq<Turn<S, M>>, s1: S,
                               step: (S, nat, Request, Outcome, seq<M>, S) -> bool, invalid: M)
    requires i <= |lines|
  {
    && !Scan(lines, parse, i).1 && |turns| == |Scan(lines, parse, i).0|
    && (turns != [] ==> turns[|turns| - 1].st == Continue)
    && Session(s0, Scan(lines, parse, i).0, turns, s1, step, invalid)
  }

  /** Before any line, nothing is handled. */
  lemma ServedStart<S, M>(lines: seq<string>, parse: string -> Parsed, s0: S,
                          step: (S, nat, Request, Outcome, seq<M>, S) -> bool, invalid: M)
    ensures Served(lines, parse, 0, s0, [], s0, step, invalid)
  {
  }

  /** A blank line is skipped. */
  lemma ServedBlank<S, M>(lines: seq<string>, parse: string -> Parsed, i: nat, s0: S, turns: seq<Turn<S, M>>, s1: S,
                          step: (S, nat, Request, Outcome, seq<M>, S) -> bool, invalid: M)
    requires i < |lines| && lines[i] == "" && Served(lines, parse, i, s0, turns, s1, step, invalid)
    ensures Served(lines, parse, i + 1, s0, turns, s1, step, invalid)
  {
  }

  /** JSON that is not an object ends the loop with every item before it handled. */
  lemma ServedStop<S, M>(lines: seq<string>, parse: string -> Parsed, i: nat, s0: S, turns: seq<Turn<S, M>>, s1: S,
                         step: (S, nat, Request, Outcome, seq<M>, S) -> bool, invalid: M)
    requires i < |lines| && lines[i] != "" && parse(lines[i]) == NotAnObject
    requires Served(lines, parse, i, s0, turns, s1, step, invalid)
    ensures Session(s0, Script(lines, parse), turns, s1, step, invalid)
  {
    ScanPrefix(lines, parse, i + 1, |lines|);
  }

  /** After the last line the session covers the whole script. */
  lemma ServedEnd<S, M>(lines: seq<string>, parse: string -> Parsed, s0: S, turns: seq<Turn<S, M>>, s1: S,
                        step: (S, nat, Request, Outcome, seq<M>, S) -> bool, invalid: M)
    requires Served(lines, parse, |lines|, s0, turns, s1, step, invalid)
    ensures Session(s0, Script(lines, parse), turns, s1, step, invalid)
  {
  }

  /**
   * The item of line `i` handled by turn `t`: the loop goes on if `t`
   * continued, and otherwise ends with every earlier item handled.
   */
  lemma ServedItem<S, M>(lines: seq<string>, parse: string -> Parsed, i: nat, s0: S, turns: seq<Turn<S, M>>, s1: S, t: Turn<S, M>,
                         step: (S, nat, Request, Outcome, seq<M>, S) -> bool, invalid: M)
    requires i < |lines| && lines[i] != "" && t.item.line == i && Reads(lines, parse, t.item)
    requires Served(lines, parse, i, s0, turns, s1, step, invalid)
    requires t.before == s1 && TurnDone(t, step, invalid)
    ensures Outputs(turns + [t]) == Outputs(turns) + t.out
    ensures t.st == Continue ==> Served(lines, parse, i + 1, s0, turns + [t], t.after, step, invalid)
    ensures t.st != Continue ==> Session(s0, Script(lines, parse), turns + [t], t.after, step, invalid)
  {
    var items := Scan(lines, parse, i).0;
    ScanNext(lines, parse, i, t.item);
    SessionAppend(s0, items, turns, s1, t, step, invalid);
    if t.st != Continue {
      ScanPrefix(lines, parse, i + 1, |lines|);
      SessionExtend(s0, items + [t.item], Script(lines, parse), turns + [t], t.after, step, invalid);
    }
  }

  /** A session that has handled all its items and continued takes one more turn for the next item. */
  lemma SessionAppend<S, M>(s0: S, items: seq<Item>, turns: seq<Turn<S, M>>, s1: S, t: Turn<S, M>,
                            step: (S, nat, Request, Outcome, seq<M>, S) -> bool, invalid: M)
    requires Session(s0, items, turns, s1, step, invalid)
    requires |turns| == |items| && (turns != [] ==> turns[|turns| - 1].st == Continue)
    requires t.before == s1 && TurnDone(t, step, invalid)
    ensures Session(s0, items + [t.item], turns + [t], t.after, step, invalid)
    ensures Outputs(turns + [t]) == Outputs(turns) + t.out
  {
    assert (turns + [t])[..|turns|] == turns;
  }

  /** A session that has stopped covers any longer list of items as well. */
  lemma SessionExtend<S, M>(s0: S, items: seq<Item>, more: seq<Item>, turns: seq<Turn<S, M>>, s1: S,
                            step: (S, nat, Request, Outcome, seq<M>, S) -> bool, invalid: M)
    requires Session(s0, items, turns, s1, step, invalid) && items <= more
    requires |more| > |turns| ==> turns != [] && turns[|turns| - 1].st != Continue
    ensures Session(s0, more, turns, s1, step, invalid)
  {
  }
}
