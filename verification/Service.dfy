/** Handling the lines of the pipe: parse, then dispatch to the store. */
module Service {
  import opened Database
  import opened Effects
  import opened Engine
  import opened Framing
  import opened JsonTree
  import opened MessageParser
  import opened Messages
  import opened Store
  import opened Wrappers

  /** The JSON library: the tree of a text, or nothing when it is not JSON. */
  type Decoder = string -> Option<Json>

  /** A default-constructed message. */
  const UNSET: BridgeMessage := Hello(Envelope(0, "", "", 0), "", "", 0, 0, "")

  /** `ParseBridgeMessage` as a function of the line. */
  type Parser = string -> Result<BridgeMessage>

  function LineParser(decode: Decoder, printer: Printer): Parser {
    line => MessageOf(decode(line), printer)
  }

  /** The committed database, and the number of engine calls made so far. */
  datatype Progress = Progress(db: Db, calls: nat)

  /** A message handed to the store, when the i-th engine call has the outcome `fate(i)`. */
  function StoreMessage(m: BridgeMessage, fate: nat -> Fate, at: Progress): Progress {
    var count := |StatementsOf(m)| + 2;
    Progress(if CallsSucceed(fate, at.calls, count) then Store.Store(m, at.db) else at.db,
             at.calls + CallsUsed(fate, at.calls, count))
  }

  function HandleLine(line: string, parse: Parser, fate: nat -> Fate, at: Progress): Progress {
    match parse(line)
    case Ok(m) => StoreMessage(m, fate, at)
    case Err(_) => at
  }

  function HandleLines(lines: seq<string>, parse: Parser, fate: nat -> Fate, at: Progress): Progress {
    if lines == [] then at
    else HandleLines(lines[1..], parse, fate, HandleLine(lines[0], parse, fate, at))
  }

  class Service {
    const store: SqliteStore
    const decode: Decoder
    const printer: Printer

    constructor (store: SqliteStore, decode: Decoder, printer: Printer)
      ensures this.store == store && this.decode == decode && this.printer == printer
    {
      this.store, this.decode, this.printer := store, decode, printer;
    }

    function At(): Progress
      reads store.db
    {
      Progress(store.db.state.committed, store.db.calls)
    }

    /** `stored` is false for the lines that are logged as discarded or not persisted. */
    method HandlePipeMessage(line: string) returns (stored: bool)
      requires store.db.state.Idle()
      modifies store.db
      ensures store.db.state.Idle()
      ensures At() == HandleLine(line, LineParser(decode, printer), store.db.fate, old(At()))
      ensures stored <==>
                && LineParser(decode, printer)(line).Ok?
                && store.db.AllSucceed(old(store.db.calls),
                                       |StatementsOf(LineParser(decode, printer)(line).value)| + 2)
      ensures if stored
              then Effect(LineParser(decode, printer)(line).value, old(store.db.state.committed),
                          store.db.state.committed)
              else store.db.state.committed == old(store.db.state.committed)
    {
      var ok, message, error := ParseBridgeMessage(decode(line), printer, UNSET);
      if !ok {
        return false;
      }
      MessageHasEffect(message, store.db.state.committed);
      stored := HandleMessage(message);
    }

    method Dispatch(message: BridgeMessage) returns (stored: bool)
      requires store.db.state.Idle()
      modifies store.db
      ensures store.Ended(old(store.db.state), old(store.db.calls), StatementsOf(message), stored)
    {
      match message {
        case Hello(_, _, _, _, _, _) => stored := store.UpsertHello(message);
        case CatalogSnapshot(_, _) => stored := store.UpsertCatalogSnapshot(message);
        case SampleBatch(_, _, _) => stored := store.InsertSampleBatch(message);
        case Heartbeat(_, _, _, _) => stored := store.UpsertHeartbeat(message);
      }
    }

    method HandleMessage(message: BridgeMessage) returns (stored: bool)
      requires store.db.state.Idle()
      modifies store.db
      ensures store.db.state.Idle()
      ensures At() == StoreMessage(message, store.db.fate, old(At()))
      ensures stored <==> store.db.AllSucceed(old(store.db.calls), |StatementsOf(message)| + 2)
    {
      ghost var first, count := store.db.calls, |StatementsOf(message)| + 2;
      stored := Dispatch(message);
      if stored {
        AllCallsUsed(store.db.fate, first, count);
      } else {
        StopsAtFailure(store.db.fate, first, count, store.db.calls - 1);
      }
    }

    /** One connection of the pipe: what its bytes frame to is handled in order, whatever calls fail. */
    method ServeConnection(turns: seq<Turn>)
      requires store.db.state.Idle()
      modifies store.db
      ensures store.db.state.Idle()
      ensures At() == HandleLines(Lines(Received(turns)), LineParser(decode, printer), store.db.fate, old(At()))
    {
      var connection := new PipeConnection();
      connection.Serve(turns);
      var lines := connection.handled;
      ghost var parse, before := LineParser(decode, printer), At();
      for i := 0 to |lines|
        invariant store.db.state.Idle()
        invariant HandleLines(lines[i..], parse, store.db.fate, At())
               == HandleLines(lines, parse, store.db.fate, before)
      {
        assert lines[i..][1..] == lines[i + 1..];
        var stored := HandlePipeMessage(lines[i]);
      }
    }
  }

  // ---- Noise ----

  function ParsedMessage(line: string, parse: Parser): seq<BridgeMessage> {
    match parse(line)
    case Ok(m) => [m]
    case Err(_) => []
  }

  /** The messages of the lines that parse. */
  function ParsedMessages(lines: seq<string>, parse: Parser): seq<BridgeMessage> {
    if lines == [] then [] else ParsedMessage(lines[0], parse) + ParsedMessages(lines[1..], parse)
  }

  function StoreMessages(messages: seq<BridgeMessage>, fate: nat -> Fate, at: Progress): Progress {
    if messages == [] then at else StoreMessages(messages[1..], fate, StoreMessage(messages[0], fate, at))
  }

  lemma HandleLineIsParsed(line: string, messages: seq<BridgeMessage>, parse: Parser, fate: nat -> Fate, at: Progress)
    ensures StoreMessages(ParsedMessage(line, parse) + messages, fate, at)
         == StoreMessages(messages, fate, HandleLine(line, parse, fate, at))
  {
    match parse(line)
    case Ok(m) => assert ([m] + messages)[1..] == messages;
    case Err(_) => assert [] + messages == messages;
  }

  /** The final store is the fold of the parsed messages, whatever stands between them and whatever
      engine calls fail. */
  lemma {:induction false} StoreIsFoldOfParsed(lines: seq<string>, parse: Parser, fate: nat -> Fate, at: Progress)
    ensures HandleLines(lines, parse, fate, at) == StoreMessages(ParsedMessages(lines, parse), fate, at)
    decreases |lines|
  {
    if lines != [] {
      StoreIsFoldOfParsed(lines[1..], parse, fate, HandleLine(lines[0], parse, fate, at));
      HandleLineIsParsed(lines[0], ParsedMessages(lines[1..], parse), parse, fate, at);
    }
  }

  lemma {:induction false} ParsedConcat(a: seq<string>, b: seq<string>, parse: Parser)
    ensures ParsedMessages(a + b, parse) == ParsedMessages(a, parse) + ParsedMessages(b, parse)
    decreases |a|
  {
    if a == [] {
      assert a + b == b;
    } else {
      assert (a + b)[1..] == a[1..] + b;
      ParsedConcat(a[1..], b, parse);
    }
  }

  lemma {:induction false} NoiseParsesToNothing(noise: seq<string>, parse: Parser)
    requires forall i :: 0 <= i < |noise| ==> parse(noise[i]).Err?
    ensures ParsedMessages(noise, parse) == []
  {
    if noise != [] {
      NoiseParsesToNothing(noise[1..], parse);
    }
  }

  lemma NoiseIsInvisible(a: seq<string>, noise: seq<string>, b: seq<string>, parse: Parser)
    requires forall i :: 0 <= i < |noise| ==> parse(noise[i]).Err?
    ensures ParsedMessages(a + noise + b, parse) == ParsedMessages(a + b, parse)
  {
    ParsedConcat(a + noise, b, parse);
    ParsedConcat(a, noise, parse);
    ParsedConcat(a, b, parse);
    NoiseParsesToNothing(noise, parse);
  }

  /** Lines that fail to parse can be inserted or removed anywhere: they make no engine call, so not even
      which of the other lines fail changes. */
  lemma NoiseIsHarmless(a: seq<string>, noise: seq<string>, b: seq<string>, parse: Parser, fate: nat -> Fate,
                        at: Progress)
    requires forall i :: 0 <= i < |noise| ==> parse(noise[i]).Err?
    ensures HandleLines(a + noise + b, parse, fate, at) == HandleLines(a + b, parse, fate, at)
  {
    NoiseIsInvisible(a, noise, b, parse);
    StoreIsFoldOfParsed(a + noise + b, parse, fate, at);
    StoreIsFoldOfParsed(a + b, parse, fate, at);
  }

  /** The messages whose calls all succeed. */
  function StoredOnly(messages: seq<BridgeMessage>, fate: nat -> Fate, at: Progress): seq<BridgeMessage> {
    if messages == [] then []
    else
      (if CallsSucceed(fate, at.calls, |StatementsOf(messages[0])| + 2) then [messages[0]] else [])
      + StoredOnly(messages[1..], fate, StoreMessage(messages[0], fate, at))
  }

  function StoreAll(messages: seq<BridgeMessage>, db: Db): Db {
    if messages == [] then db else StoreAll(messages[1..], Store.Store(messages[0], db))
  }

  lemma StoreFirst(m: BridgeMessage, messages: seq<BridgeMessage>, db: Db)
    ensures StoreAll([m] + messages, db) == StoreAll(messages, Store.Store(m, db))
  {
    assert ([m] + messages)[1..] == messages;
  }

  /** Whatever calls fail, the store is that of the messages whose calls all succeed. */
  lemma {:induction false} OnlyStoredCount(messages: seq<BridgeMessage>, fate: nat -> Fate, at: Progress)
    ensures StoreMessages(messages, fate, at).db == StoreAll(StoredOnly(messages, fate, at), at.db)
    decreases |messages|
  {
    if messages != [] {
      var m, next := messages[0], StoreMessage(messages[0], fate, at);
      var rest := StoredOnly(messages[1..], fate, next);
      OnlyStoredCount(messages[1..], fate, next);
      if CallsSucceed(fate, at.calls, |StatementsOf(m)| + 2) {
        StoreFirst(m, rest, at.db);
      } else {
        assert [] + rest == rest;
      }
    }
  }

  /** When no call fails, that is all of them; when every call fails, none. */
  lemma {:induction false} AllOrNoneStored(messages: seq<BridgeMessage>, fate: nat -> Fate, at: Progress)
    ensures (forall i :: fate(i).Succeeds?) ==> StoredOnly(messages, fate, at) == messages
    ensures (forall i :: !fate(i).Succeeds?) ==> StoredOnly(messages, fate, at) == []
    decreases |messages|
  {
    if messages != [] {
      AllOrNoneStored(messages[1..], fate, StoreMessage(messages[0], fate, at));
      assert messages == [messages[0]] + messages[1..];
      assert !fate(at.calls).Succeeds? ==> !CallsSucceed(fate, at.calls, |StatementsOf(messages[0])| + 2);
    }
  }
}
