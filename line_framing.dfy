/**
 * `read_messages`, shared by the three JSON-line servers: receive text
 * until the peer closes and yield every newline-terminated line as soon as
 * it is complete. Text after the last newline is never yielded.
 */
module LineFraming {
  import opened Seqs

  /** What one `conn.recv(MSGLEN).decode()` returned: non-empty text. */
  type TextChunk = c: string | |c| > 0 witness "\n"

  /** The lines, each followed by its newline. */
  function Terminated(lines: seq<string>): string
  {
    if lines == [] then [] else lines[0] + "\n" + Terminated(lines[1..])
  }

  lemma {:induction false} TerminatedAppend(lines: seq<string>, line: string)
    ensures Terminated(lines + [line]) == Terminated(lines) + line + "\n"
  {
    if lines == [] {
      assert lines + [line] == [line];
    } else {
      assert (lines + [line])[1..] == lines[1..] + [line];
      TerminatedAppend(lines[1..], line);
    }
  }

  /** Terminated lines followed by a tail are the lines and the tail joined by newlines. */
  lemma {:induction false} TerminatedIsJoin(lines: seq<string>, tail: string)
    ensures Terminated(lines) + tail == Join(lines + [tail], '\n')
  {
    if lines != [] {
      TerminatedIsJoin(lines[1..], tail);
      assert (lines + [tail])[1..] == lines[1..] + [tail];
      assert (lines + [tail])[0] == lines[0];
    }
  }

  /**
   * Newline-free lines and a newline-free tail are exactly what splitting
   * their text at every newline gives back.
   */
  lemma LinesAreSplit(lines: seq<string>, tail: string)
    requires forall i :: 0 <= i < |lines| ==> '\n' !in lines[i]
    requires '\n' !in tail
    ensures Split(Terminated(lines) + tail, '\n') == lines + [tail]
  {
    TerminatedIsJoin(lines, tail);
    SplitOfJoin(lines + [tail], '\n');
  }

  /**
   * The inner loop of `read_messages`: while the buffer holds a newline,
   * yield the text before the first one and keep what follows it.
   */
  method YieldLines(lines: seq<string>, buffer: string) returns (lines': seq<string>, buffer': string)
    requires forall i :: 0 <= i < |lines| ==> '\n' !in lines[i]
    ensures Terminated(lines) + buffer == Terminated(lines') + buffer'
    ensures forall i :: 0 <= i < |lines'| ==> '\n' !in lines'[i]
    ensures '\n' !in buffer'
  {
    lines', buffer' := lines, buffer;
    while '\n' in buffer'
      invariant Terminated(lines) + buffer == Terminated(lines') + buffer'
      invariant forall i :: 0 <= i < |lines'| ==> '\n' !in lines'[i]
      decreases |buffer'|
    {
      var i := IndexOf(buffer', '\n');
      TerminatedAppend(lines', buffer'[..i]);
      assert buffer' == buffer'[..i] + "\n" + buffer'[i + 1..];
      lines' := lines' + [buffer'[..i]];
      buffer' := buffer'[i + 1..];
    }
  }

  /**
   * `read_messages(conn)` on a connection that delivers `stream` and then
   * closes: the yielded lines, and the unterminated text left in the buffer.
   * However the text is split into chunks, the lines are the pieces of the
   * whole text between newlines, except the last piece.
   */
  method ReadMessages(stream: seq<TextChunk>) returns (lines: seq<string>, rest: string)
    ensures Concat(stream) == Terminated(lines) + rest
    ensures forall i :: 0 <= i < |lines| ==> '\n' !in lines[i]
    ensures '\n' !in rest
    ensures lines + [rest] == Split(Concat(stream), '\n')
  {
    lines := [];
    var buffer := "";
    for k := 0 to |stream|
      invariant Concat(stream[..k]) == Terminated(lines) + buffer
      invariant forall i :: 0 <= i < |lines| ==> '\n' !in lines[i]
      invariant '\n' !in buffer
    {
      assert stream[..k + 1] == stream[..k] + [stream[k]];
      ConcatAppend(stream[..k], stream[k]);
      lines, buffer := YieldLines(lines, buffer + stream[k]);
    }
    assert stream[..|stream|] == stream;
    rest := buffer;
    LinesAreSplit(lines, rest);
  }
}
