/**
 NDJSON framing on the named pipe: the buffer that is fed arbitrary chunks, against a one-shot
 split of the whole stream. A C++ `char` is a Dafny `char` with code 0 to 255.
 */
module Framing {

  // ---- The one-shot split ----

  /** `find('\n', from)`: the first newline at or after `from`, or the length. */
  function FindFrom(s: string, from: nat): (i: nat)
    requires from <= |s|
    ensures from <= i <= |s| && (forall k :: from <= k < i ==> s[k] != '\n') && (i < |s| ==> s[i] == '\n')
    decreases |s| - from
  {
    if from == |s| || s[from] == '\n' then from else FindFrom(s, from + 1)
  }

  function FindNewline(s: string): (i: nat)
    ensures i <= |s| && (forall k :: 0 <= k < i ==> s[k] != '\n') && (i < |s| ==> s[i] == '\n')
  {
    FindFrom(s, 0)
  }

  /** The pieces between newlines; the last one is the unterminated tail. */
  function Split(s: string): (pieces: seq<string>)
    ensures pieces != []
    decreases |s|
  {
    var i := FindNewline(s);
    if i == |s| then [s] else [s[..i]] + Split(s[i + 1..])
  }

  function StripReturn(piece: string): string {
    if piece != "" && piece[|piece| - 1] == '\r' then piece[..|piece| - 1] else piece
  }

  /** What the handler receives for one piece: nothing when the piece is empty. */
  function DeliverOne(piece: string): seq<string> {
    var line := StripReturn(piece);
    if line == "" then [] else [line]
  }

  function Deliver(pieces: seq<string>): seq<string> {
    if pieces == [] then [] else DeliverOne(pieces[0]) + Deliver(pieces[1..])
  }

  /** The messages of a whole stream. */
  function Lines(stream: string): seq<string> {
    Deliver(Split(stream))
  }

  // ---- The split is the only way to cut a stream at its newlines ----

  function Join(pieces: seq<string>): string
    requires pieces != []
  {
    if |pieces| == 1 then pieces[0] else pieces[0] + "\n" + Join(pieces[1..])
  }

  lemma {:induction false} SplitIsACut(s: string)
    ensures Join(Split(s)) == s
    ensures forall piece :: piece in Split(s) ==> '\n' !in piece
    decreases |s|
  {
    var i := FindNewline(s);
    if i < |s| {
      SplitIsACut(s[i + 1..]);
      assert s == s[..i] + "\n" + s[i + 1..];
    } else {
      assert s[..i] == s;
    }
  }

  lemma NewlineAt(s: string, i: nat)
    requires i <= |s| && (forall k :: 0 <= k < i ==> s[k] != '\n') && (i < |s| ==> s[i] == '\n')
    ensures FindNewline(s) == i
  {
  }

  lemma {:induction false} SplitIsUnique(pieces: seq<string>)
    requires pieces != [] && forall piece :: piece in pieces ==> '\n' !in piece
    ensures Split(Join(pieces)) == pieces
    decreases |pieces|
  {
    var s := Join(pieces);
    var i := |pieces[0]|;
    assert pieces[0] in pieces;
    assert s[..i] == pieces[0];
    assert forall k :: 0 <= k < i ==> s[k] == pieces[0][k];
    NewlineAt(s, i);
    if |pieces| > 1 {
      assert s[i + 1..] == Join(pieces[1..]);
      SplitIsUnique(pieces[1..]);
    }
  }

  // ---- Splitting as the bytes arrive ----

  /** The messages of the terminated lines of `s`. */
  function CompleteLines(s: string): seq<string>
    decreases |s|
  {
    var i := FindNewline(s);
    if i == |s| then [] else DeliverOne(s[..i]) + CompleteLines(s[i + 1..])
  }

  /** What follows the last newline. */
  function Rest(s: string): (rest: string)
    ensures '\n' !in rest
    decreases |s|
  {
    var i := FindNewline(s);
    if i == |s| then s else Rest(s[i + 1..])
  }

  lemma {:induction false} LinesAreCompleteLinesAndRest(s: string)
    ensures Lines(s) == CompleteLines(s) + DeliverOne(Rest(s))
    decreases |s|
  {
    var i := FindNewline(s);
    if i < |s| {
      FirstLine(s, i);
      LinesAreCompleteLinesAndRest(s[i + 1..]);
    } else {
      assert s[..i] == s && [s][1..] == [];
      assert Deliver([s]) == DeliverOne(s) + Deliver([]);
    }
  }

  lemma FirstLine(s: string, i: nat)
    requires i == FindNewline(s) < |s|
    ensures CompleteLines(s) == DeliverOne(s[..i]) + CompleteLines(s[i + 1..])
    ensures Rest(s) == Rest(s[i + 1..])
    ensures Split(s) == [s[..i]] + Split(s[i + 1..])
    ensures Lines(s) == DeliverOne(s[..i]) + Lines(s[i + 1..])
  {
    assert Split(s)[1..] == Split(s[i + 1..]);
  }

  /** After `a`, only its unterminated rest matters for what `b` completes. */
  lemma {:induction false} SplitResumes(a: string, b: string)
    ensures CompleteLines(a + b) == CompleteLines(a) + CompleteLines(Rest(a) + b)
    ensures Rest(a + b) == Rest(Rest(a) + b)
    decreases |a|
  {
    var i := FindNewline(a);
    if i < |a| {
      FirstLine(a, i);
      FirstLineOfConcat(a, b, i);
      SplitResumes(a[i + 1..], b);
    }
  }

  lemma FirstLineOfConcat(a: string, b: string, i: nat)
    requires i == FindNewline(a) < |a|
    ensures CompleteLines(a + b) == DeliverOne(a[..i]) + CompleteLines(a[i + 1..] + b)
    ensures Rest(a + b) == Rest(a[i + 1..] + b)
  {
    assert (a + b)[..i] == a[..i];
    NewlineAt(a + b, i);
    assert (a + b)[i + 1..] == a[i + 1..] + b;
    FirstLine(a + b, i);
  }

  /** The handler's calls when `pending` is dispatched line by line. */
  function Dispatched(handled: seq<string>, pending: string): seq<string>
    decreases |pending|
  {
    var i := FindNewline(pending);
    if i == |pending| then handled
    else Dispatched(handled + DeliverOne(pending[..i]), pending[i + 1..])
  }

  lemma {:induction false} DispatchedAppends(handled: seq<string>, pending: string)
    ensures Dispatched(handled, pending) == handled + CompleteLines(pending)
    decreases |pending|
  {
    var i := FindNewline(pending);
    if i < |pending| {
      DispatchedAppends(handled + DeliverOne(pending[..i]), pending[i + 1..]);
      FirstLine(pending, i);
    }
  }

  // ---- The server ----

  /** One turn of the read loop: a stop request, a failed read, or bytes (none when the peer is gone). */
  datatype Turn = Stopped | ReadFailed | Read(data: string)

  /** The bytes received before the loop ends. */
  function Received(turns: seq<Turn>): string {
    if turns == [] || !turns[0].Read? || turns[0].data == "" then ""
    else turns[0].data + Received(turns[1..])
  }

  lemma KeepsStream(consumed: string, pending: string, stream: string, data: string)
    requires consumed + pending == stream
    ensures consumed + (pending + data) == stream + data
  {
  }

  lemma NextReceived(turns: seq<Turn>, i: nat, stream: string)
    requires i < |turns| && turns[i].Read? && turns[i].data != ""
    ensures stream + Received(turns[i..]) == stream + turns[i].data + Received(turns[i + 1..])
  {
    assert turns[i..][1..] == turns[i + 1..];
  }

  class PipeConnection {
    var pending: string
    var handled: seq<string>  // what the message handler was called with, in order
    ghost var consumed: string
    ghost var stream: string

    /** The state between two reads. */
    ghost predicate Valid()
      reads this
    {
      && pending == Rest(stream)
      && handled == CompleteLines(stream)
      && consumed + pending == stream
    }

    constructor ()
      ensures Valid() && stream == ""
    {
      pending, handled, consumed, stream := "", [], "", "";
    }

    method Handle(piece: string)
      modifies this`handled
      ensures handled == old(handled) + DeliverOne(piece)
    {
      var line := piece;
      if line != "" && line[|line| - 1] == '\r' {
        line := line[..|line| - 1];
      }
      if line != "" {
        handled := handled + [line];
      }
    }

    method DispatchCompleteLines()
      modifies this`pending, this`handled, this`consumed
      ensures pending == Rest(old(pending)) && '\n' !in pending
      ensures handled == old(handled) + CompleteLines(old(pending))
      ensures consumed + pending == old(consumed + pending)
    {
      var newline := FindNewline(pending);
      while newline < |pending|
        invariant newline == FindNewline(pending)
        invariant Rest(pending) == Rest(old(pending))
        invariant Dispatched(handled, pending) == Dispatched(old(handled), old(pending))
        invariant consumed + pending == old(consumed + pending)
        decreases |pending|
      {
        assert pending == pending[..newline + 1] + pending[newline + 1..];
        Handle(pending[..newline]);
        consumed := consumed + pending[..newline + 1];
        pending := pending[newline + 1..];
        newline := FindNewline(pending);
      }
      DispatchedAppends(old(handled), old(pending));
    }

    method Receive(data: string)
      requires Valid()
      modifies this
      ensures Valid() && stream == old(stream) + data && '\n' !in pending
    {
      SplitResumes(stream, data);
      KeepsStream(consumed, pending, stream, data);
      pending, stream := pending + data, stream + data;
      DispatchCompleteLines();
    }

    /** The read loop and the final flush. Only the bytes matter, not how they were cut. */
    method Serve(turns: seq<Turn>)
      requires Valid() && stream == ""
      modifies this
      ensures stream == Received(turns)
      ensures handled == Lines(stream)
    {
      var i := 0;
      while i < |turns| && turns[i].Read? && turns[i].data != ""
        invariant i <= |turns| && Valid()
        invariant stream + Received(turns[i..]) == Received(turns)
      {
        NextReceived(turns, i, stream);
        Receive(turns[i].data);
        i := i + 1;
      }
      LinesAreCompleteLinesAndRest(stream);
      if pending != "" {
        Handle(pending);
      }
    }
  }

  function LinesOfConnections(connections: seq<seq<Turn>>): seq<string> {
    if connections == [] then []
    else LinesOfConnections(connections[..|connections| - 1])
         + Lines(Received(connections[|connections| - 1]))
  }

  /** The accept loop: a partial line of one connection is never joined to the next one. */
  method Run(connections: seq<seq<Turn>>) returns (handled: seq<string>)
    ensures handled == LinesOfConnections(connections)
  {
    handled := [];
    for i := 0 to |connections|
      invariant handled == LinesOfConnections(connections[..i])
    {
      var connection := new PipeConnection();
      connection.Serve(connections[i]);
      handled := handled + connection.handled;
      assert connections[..i + 1][..i] == connections[..i];
    }
    assert connections[..|connections|] == connections;
  }

  function Concat(chunks: seq<string>): string {
    if chunks == [] then "" else chunks[0] + Concat(chunks[1..])
  }

  function Reads(chunks: seq<string>): seq<Turn> {
    if chunks == [] then [] else [Read(chunks[0])] + Reads(chunks[1..])
  }

  /** However a stream is cut into non-empty reads, the whole stream is received. */
  lemma {:induction false} EveryChunkingIsReceived(chunks: seq<string>)
    requires forall i :: 0 <= i < |chunks| ==> chunks[i] != ""
    ensures Received(Reads(chunks)) == Concat(chunks)
  {
    if chunks != [] {
      EveryChunkingIsReceived(chunks[1..]);
    }
  }

  /** The read loop ends at a stop request, a failed read or an empty one, and what would come after is lost. */
  lemma {:induction false} NothingAfterTheEnd(chunks: seq<string>, end: Turn, after: seq<Turn>)
    requires forall i :: 0 <= i < |chunks| ==> chunks[i] != ""
    requires end == Stopped || end == ReadFailed || end == Read("")
    ensures Received(Reads(chunks) + [end] + after) == Concat(chunks)
  {
    var turns := Reads(chunks) + [end] + after;
    if chunks != [] {
      assert turns[0] == Read(chunks[0]) && turns[1..] == Reads(chunks[1..]) + [end] + after;
      NothingAfterTheEnd(chunks[1..], end, after);
    }
  }

  // ---- What the handler is given ----

  lemma LineAlone(line: string)
    requires '\n' !in line
    ensures Lines(line) == DeliverOne(line)
  {
    NewlineAt(line, |line|);
    LinesAreCompleteLinesAndRest(line);
    assert [] + DeliverOne(line) == DeliverOne(line);
  }

  lemma FirstNewline(a: string, b: string, i: nat)
    requires i == FindNewline(a)
    ensures var s := a + "\n" + b;
            && FindNewline(s) == i && s[..i] == a[..i]
            && s[i + 1..] == if i == |a| then b else a[i + 1..] + "\n" + b
  {
    NewlineAt(a + "\n" + b, i);
  }

  lemma FirstHandled(s: string, i: nat)
    requires i == FindNewline(s) < |s|
    ensures Lines(s) == DeliverOne(s[..i]) + Lines(s[i + 1..])
  {
    FirstLine(s, i);
  }

  lemma Reassociate(first: seq<string>, a: seq<string>, b: seq<string>)
    ensures first + (a + b) == first + a + b
  {
  }

  /** A newline separates: what stands before it and what comes after are handled on their own. */
  lemma {:induction false} NewlineSeparates(a: string, b: string)
    ensures Lines(a + "\n" + b) == Lines(a) + Lines(b)
    decreases |a|
  {
    var i := FindNewline(a);
    FirstNewline(a, b, i);
    FirstHandled(a + "\n" + b, i);
    if i == |a| {
      LineAlone(a);
      assert a[..i] == a;
    } else {
      NewlineSeparates(a[i + 1..], b);
      FirstHandled(a, i);
      Reassociate(DeliverOne(a[..i]), Lines(a[i + 1..]), Lines(b));
    }
  }

  /** A line is handled without its carriage return, once; an empty line is not handled. */
  lemma LineIsHandled(line: string)
    requires '\n' !in line
    ensures line != "" ==> Lines(line + "\r") == [line]
    ensures line != "" && line[|line| - 1] != '\r' ==> Lines(line) == [line]
    ensures Lines("") == [] && Lines("\r") == []
  {
    LineAlone(line);
    LineAlone(line + "\r");
    LineAlone("");
    LineAlone("\r");
    assert (line + "\r")[..|line|] == line;
  }
}
