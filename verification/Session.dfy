/** One bridge session: hello, catalog, then a batch per turn and a heartbeat when one is due. */
module Session {
  import opened Bridge
  import opened Framing
  import opened JsonTree
  import opened Messages
  import opened TimestampLaws

  /** A `DateTimeOffset` in UTC, in ticks of 100 ns since 1970. */
  type Instant = ticks: int | IsDateTimeOffset(ticks)

  const HEARTBEAT_TICKS := 30 * 10_000_000

  datatype Options = Options(sender: Sender, bridgeVersion: string, hostname: string, pid: int,
                             sampleIntervalMs: int)

  /** What a session starts from: the hardware, and the clock readings of its first two messages and
      of the first heartbeat deadline. */
  datatype Opening = Opening(computer: seq<Hardware>, capabilities: Json, helloSentAt: Instant,
                             catalogSentAt: Instant, connectedAt: Instant)

  /** One turn of the loop: the hardware after an update, and the clock readings in order. */
  datatype Round = Round(computer: seq<Hardware>, now: Instant, batchSentAt: Instant,
                         heartbeatSentAt: Instant, uptimeSeconds: int)

  /** The records that are serialised; a time is printed when its record is. */
  datatype Message =
    | HelloMessage(sender: Sender, sentAt: Instant, bridgeVersion: string, hostname: string, pid: int,
                   sampleIntervalMs: int, capabilities: Json)
    | CatalogSnapshotMessage(sender: Sender, sentAt: Instant, sensors: seq<Entry>)
    | SampleBatchMessage(sender: Sender, sentAt: Instant, sampleTime: Instant, samples: seq<SensorSample>)
    | HeartbeatMessage(sender: Sender, sentAt: Instant, uptimeSeconds: int, catalogCount: int)

  function Tree(m: Message): Json {
    match m
    case HelloMessage(sender, sentAt, bridgeVersion, hostname, pid, interval, capabilities) =>
      HelloTree(sender, PrintUtc(sentAt), bridgeVersion, hostname, pid, interval, capabilities)
    case CatalogSnapshotMessage(sender, sentAt, sensors) => CatalogTree(sender, PrintUtc(sentAt), sensors)
    case SampleBatchMessage(sender, sentAt, sampleTime, samples) =>
      BatchTree(sender, PrintUtc(sentAt), PrintUtc(sampleTime), samples)
    case HeartbeatMessage(sender, sentAt, uptimeSeconds, catalogCount) =>
      HeartbeatTree(sender, PrintUtc(sentAt), uptimeSeconds, catalogCount)
  }

  function BuildHello(o: Options, opening: Opening): Message {
    HelloMessage(o.sender, opening.helloSentAt, o.bridgeVersion, o.hostname, o.pid, o.sampleIntervalMs,
                 opening.capabilities)
  }

  function DeadlineAfter(deadline: int, now: int): int {
    if now >= deadline then now + HEARTBEAT_TICKS else deadline
  }

  function RoundMessages(o: Options, catalogCount: int, deadline: int, round: Round): seq<Message> {
    [SampleBatchMessage(o.sender, round.batchSentAt, round.now, SamplesOfTrees(round.computer))]
    + if round.now >= deadline
      then [HeartbeatMessage(o.sender, round.heartbeatSentAt, round.uptimeSeconds, catalogCount)]
      else []
  }

  function RoundsMessages(o: Options, catalogCount: int, deadline: int, rounds: seq<Round>): seq<Message>
    decreases |rounds|
  {
    if rounds == [] then []
    else RoundMessages(o, catalogCount, deadline, rounds[0])
         + RoundsMessages(o, catalogCount, DeadlineAfter(deadline, rounds[0].now), rounds[1..])
  }

  function OpeningMessages(o: Options, opening: Opening): seq<Message> {
    [BuildHello(o, opening),
     CatalogSnapshotMessage(o.sender, opening.catalogSentAt, CatalogOfTrees(opening.computer))]
  }

  function SessionMessages(o: Options, opening: Opening, rounds: seq<Round>): seq<Message> {
    OpeningMessages(o, opening)
    + RoundsMessages(o, |CatalogOfTrees(opening.computer)|, opening.connectedAt + HEARTBEAT_TICKS, rounds)
  }

  // ---- On the pipe ----

  type Encoder = Json -> string

  function Texts(messages: seq<Message>, encode: Encoder): seq<string> {
    if messages == [] then [] else [encode(Tree(messages[0]))] + Texts(messages[1..], encode)
  }

  /** Every text followed by the newline of the platform. */
  function Stream(texts: seq<string>, newline: string): string {
    if texts == [] then "" else texts[0] + newline + Stream(texts[1..], newline)
  }

  lemma {:induction false} TextsAppend(sent: seq<Message>, m: Message, encode: Encoder)
    ensures Texts(sent + [m], encode) == Texts(sent, encode) + [encode(Tree(m))]
  {
    if sent == [] {
      assert [m][1..] == [];
    } else {
      assert (sent + [m])[1..] == sent[1..] + [m];
      TextsAppend(sent[1..], m, encode);
    }
  }

  lemma {:induction false} StreamAppends(texts: seq<string>, text: string, newline: string)
    ensures Stream(texts + [text], newline) == Stream(texts, newline) + text + newline
  {
    if texts == [] {
      assert [text][1..] == [];
      assert Stream([text], newline) == text + newline + "";
    } else {
      assert (texts + [text])[1..] == texts[1..] + [text];
      StreamAppends(texts[1..], text, newline);
    }
  }

  lemma NextRound(o: Options, catalogCount: int, deadline: int, rounds: seq<Round>, i: nat, sent: seq<Message>)
    requires i < |rounds|
    ensures sent + RoundsMessages(o, catalogCount, deadline, rounds[i..])
         == sent + RoundMessages(o, catalogCount, deadline, rounds[i])
            + RoundsMessages(o, catalogCount, DeadlineAfter(deadline, rounds[i].now), rounds[i + 1..])
  {
    assert rounds[i..][1..] == rounds[i + 1..];
  }

  class PipeWriter {
    const encode: Encoder
    const newline: string
    var written: string
    ghost var sent: seq<Message>

    ghost predicate Valid()
      reads this
    {
      written == Stream(Texts(sent, encode), newline)
    }

    constructor (encode: Encoder, newline: string)
      ensures this.encode == encode && this.newline == newline && sent == [] && Valid()
    {
      this.encode, this.newline := encode, newline;
      sent, written := [], "";
    }

    method Send(m: Message)
      requires Valid()
      modifies this
      ensures Valid() && sent == old(sent) + [m]
    {
      TextsAppend(sent, m, encode);
      StreamAppends(Texts(sent, encode), encode(Tree(m)), newline);
      written := written + encode(Tree(m)) + newline;
      sent := sent + [m];
    }

    method ServeRound(o: Options, catalogCount: int, nextHeartbeat: int, round: Round)
      requires Valid()
      modifies this
      ensures Valid() && sent == old(sent) + RoundMessages(o, catalogCount, nextHeartbeat, round)
    {
      var samples := BuildSamples(round.computer);
      Send(SampleBatchMessage(o.sender, round.batchSentAt, round.now, samples));
      if round.now >= nextHeartbeat {
        Send(HeartbeatMessage(o.sender, round.heartbeatSentAt, round.uptimeSeconds, catalogCount));
      }
    }

    method ServeRounds(o: Options, catalogCount: int, deadline: int, rounds: seq<Round>)
      requires Valid()
      modifies this
      ensures Valid() && sent == old(sent) + RoundsMessages(o, catalogCount, deadline, rounds)
    {
      var nextHeartbeat := deadline;
      for i := 0 to |rounds|
        invariant Valid()
        invariant sent + RoundsMessages(o, catalogCount, nextHeartbeat, rounds[i..])
               == old(sent) + RoundsMessages(o, catalogCount, deadline, rounds)
      {
        NextRound(o, catalogCount, nextHeartbeat, rounds, i, sent);
        ServeRound(o, catalogCount, nextHeartbeat, rounds[i]);
        nextHeartbeat := DeadlineAfter(nextHeartbeat, rounds[i].now);
      }
    }

    /** One connection, until it ends. */
    method Serve(o: Options, opening: Opening, rounds: seq<Round>)
      requires Valid() && sent == []
      modifies this
      ensures Valid() && sent == SessionMessages(o, opening, rounds)
    {
      var catalog := BuildCatalog(opening.computer);
      Send(BuildHello(o, opening));
      Send(CatalogSnapshotMessage(o.sender, opening.catalogSentAt, catalog));
      ServeRounds(o, |catalog|, opening.connectedAt + HEARTBEAT_TICKS, rounds);
    }
  }

  // ---- What the reader makes of it ----

  /** A text that framing leaves alone. */
  predicate OneLine(text: string) {
    text != "" && '\n' !in text && text[|text| - 1] != '\r'
  }

  predicate IsNewline(newline: string) {
    newline == "\n" || newline == "\r\n"
  }

  lemma FirstText(text: string, newline: string, rest: string)
    requires IsNewline(newline) && OneLine(text)
    ensures Lines(text + newline + rest) == [text] + Lines(rest)
  {
    var piece := if newline == "\n" then text else text + "\r";
    var s := text + newline + rest;
    assert s == piece + "\n" + rest;
    assert s[..|piece|] == piece && s[|piece| + 1..] == rest;
    NewlineAt(s, |piece|);
    FirstLine(s, |piece|);
    assert StripReturn(piece) == text;
  }

  lemma NothingToFrame()
    ensures Lines("") == []
  {
    assert [""][1..] == [];
    assert Deliver([""]) == DeliverOne("") + Deliver([]);
  }

  /** Framing a stream of one-line texts gives back the texts. */
  lemma {:induction false} StreamIsFramed(texts: seq<string>, newline: string)
    requires IsNewline(newline) && forall i :: 0 <= i < |texts| ==> OneLine(texts[i])
    ensures Lines(Stream(texts, newline)) == texts
    decreases |texts|
  {
    if texts == [] {
      NothingToFrame();
    } else {
      FirstText(texts[0], newline, Stream(texts[1..], newline));
      StreamIsFramed(texts[1..], newline);
    }
  }

  // ---- What a session consists of ----

  /** A batch per turn, and a heartbeat after those that are marked. */
  function Turns(o: Options, catalogCount: int, rounds: seq<Round>, beats: seq<bool>): seq<Message>
    requires |beats| == |rounds|
  {
    if rounds == [] then []
    else
      var r := rounds[0];
      [SampleBatchMessage(o.sender, r.batchSentAt, r.now, SamplesOfTrees(r.computer))]
      + (if beats[0] then [HeartbeatMessage(o.sender, r.heartbeatSentAt, r.uptimeSeconds, catalogCount)] else [])
      + Turns(o, catalogCount, rounds[1..], beats[1..])
  }

  /** Turn j was the last before i with a heartbeat, and i is at least 30 s later. */
  predicate LongAfter(rounds: seq<Round>, beats: seq<bool>, j: nat, i: nat)
    requires |beats| == |rounds| && j < i < |rounds|
  {
    beats[j] && (forall k :: j < k < i ==> !beats[k]) && rounds[i].now >= rounds[j].now + 300_000_000
  }

  /** A heartbeat is due at turn i: 30 s after the last one, or at the first deadline when there was none. */
  predicate IsDue(first: int, rounds: seq<Round>, beats: seq<bool>, i: nat)
    requires |beats| == |rounds| && i < |rounds|
  {
    || (exists j: nat :: j < i && LongAfter(rounds, beats, j, i))
    || ((forall k :: 0 <= k < i ==> !beats[k]) && rounds[i].now >= first)
  }

  predicate BeatsWhenDue(first: int, rounds: seq<Round>, beats: seq<bool>) {
    |beats| == |rounds| && forall i :: 0 <= i < |rounds| ==> (beats[i] <==> IsDue(first, rounds, beats, i))
  }

  lemma NextDue(first: int, rounds: seq<Round>, beats: seq<bool>, i: nat)
    requires |beats| == |rounds| && 0 < i < |rounds|
    ensures IsDue(first, rounds, beats, i) <==>
              IsDue(if beats[0] then rounds[0].now + 300_000_000 else first, rounds[1..], beats[1..], i - 1)
  {
    forall j: nat | 0 < j < i
      ensures LongAfter(rounds, beats, j, i) <==> LongAfter(rounds[1..], beats[1..], j - 1, i - 1)
    {
      assert forall k :: j < k < i ==> beats[k] == beats[1..][k - 1];
      assert forall k :: j - 1 < k < i - 1 ==> beats[1..][k] == beats[k + 1];
    }
    assert forall k :: 0 < k < i ==> beats[k] == beats[1..][k - 1];
    assert forall k :: 0 <= k < i - 1 ==> beats[1..][k] == beats[k + 1];
    forall j: nat | j < i && LongAfter(rounds, beats, j, i)
      ensures if j > 0 then LongAfter(rounds[1..], beats[1..], j - 1, i - 1)
              else beats[0] && rounds[1..][i - 1].now >= rounds[0].now + 300_000_000
    {
    }
    var m, tail, tailBeats := i - 1, rounds[1..], beats[1..];
    forall j: nat | j < m && LongAfter(tail, tailBeats, j, m) ensures LongAfter(rounds, beats, j + 1, i) {
    }
    if beats[0] && rounds[i].now >= rounds[0].now + 300_000_000 && forall k :: 0 < k < i ==> !beats[k] {
      assert LongAfter(rounds, beats, 0, i);
    }
  }

  lemma {:induction false} RoundsShape(o: Options, catalogCount: int, deadline: int, rounds: seq<Round>)
    returns (beats: seq<bool>)
    ensures BeatsWhenDue(deadline, rounds, beats)
    ensures RoundsMessages(o, catalogCount, deadline, rounds) == Turns(o, catalogCount, rounds, beats)
    decreases |rounds|
  {
    beats := [];
    if rounds != [] {
      var now := rounds[0].now;
      var rest := RoundsShape(o, catalogCount, DeadlineAfter(deadline, now), rounds[1..]);
      beats := [now >= deadline] + rest;
      assert beats[1..] == rest;
      forall i | 0 <= i < |rounds| ensures beats[i] <==> IsDue(deadline, rounds, beats, i) {
        if i > 0 {
          NextDue(deadline, rounds, beats, i);
        }
      }
    }
  }

  /** A session is a hello, the catalog, then a batch per turn in order, with a heartbeat after exactly those
      turns that come at least 30 s after the last heartbeat, or after the connection when there was none. */
  lemma SessionShape(o: Options, opening: Opening, rounds: seq<Round>) returns (beats: seq<bool>)
    ensures BeatsWhenDue(opening.connectedAt + 300_000_000, rounds, beats)
    ensures SessionMessages(o, opening, rounds) ==
            var catalog := CatalogOfTrees(opening.computer);
            [HelloMessage(o.sender, opening.helloSentAt, o.bridgeVersion, o.hostname, o.pid, o.sampleIntervalMs,
                          opening.capabilities),
             CatalogSnapshotMessage(o.sender, opening.catalogSentAt, catalog)]
            + Turns(o, |catalog|, rounds, beats)
  {
    beats := RoundsShape(o, |CatalogOfTrees(opening.computer)|, opening.connectedAt + HEARTBEAT_TICKS, rounds);
  }
}
