/**
 * Command dispatch: the switch the connection handler runs on each decoded
 * request, against the one store shared by every connection. The command
 * name is matched whatever its case; PING and ECHO are answered without the
 * store, GET and SET go through it, and any other name is an error reply.
 */
module Server {
  import opened GoLib
  import opened Resp
  import opened Store

  const Pong: string := "+PONG\r\n"
  const Ok: string := "+OK\r\n"
  const NullBulk: string := "$-1\r\n"
  const UnknownCommand: string := "-ERR unknown command\r\n"

  /**
   * The requests the switch can handle without indexing past the end of the
   * token list: ECHO and GET read msg[1], SET reads msg[1] and msg[2].
   */
  predicate Dispatchable(msg: seq<string>) {
    && |msg| >= 1
    && (ToUpper(msg[0]) == "ECHO" || ToUpper(msg[0]) == "GET" ==> |msg| >= 2)
    && (ToUpper(msg[0]) == "SET" ==> |msg| >= 3)
  }

  predicate IsTtlUnit(unit: string) {
    ToUpper(unit) == "PX" || ToUpper(unit) == "EX"
  }

  /**
   * The map SET leaves: with five or more tokens the entry is written, with
   * its TTL, only when msg[3] is PX or EX (and nothing is written otherwise);
   * with three or four tokens the entry is written without expiry.
   */
  function SetEntries(msg: seq<string>, m: map<string, Entry>, now: int): map<string, Entry>
    requires |msg| >= 3
  {
    if |msg| >= 5 then
      var expiryTime := Atoi(msg[4]);
      if IsTtlUnit(msg[3]) then m[msg[1] := Entry(msg[2], Some(now + TtlDuration(msg[3], expiryTime)))]
      else m
    else m[msg[1] := Entry(msg[2], None)]
  }

  /** The reply to one request, and the store's map afterwards. */
  datatype Response = Response(reply: string, entries: map<string, Entry>)

  function Respond(msg: seq<string>, m: map<string, Entry>, now: int): Response
    requires Dispatchable(msg)
  {
    var name := ToUpper(msg[0]);
    if name == "ECHO" then Response(BulkString(msg[1]), m)
    else if name == "PING" then Response(Pong, m)
    else if name == "GET" then
      var got := Get(m, msg[1], now);
      Response(if got.found then BulkString(got.value) else NullBulk, got.entries)
    else if name == "SET" then Response(Ok, SetEntries(msg, m, now))
    else Response(UnknownCommand, m)
  }

  /** The switch on the command name, run against the shared store. */
  method Dispatch(store: RedisMap, msg: seq<string>, now: int) returns (response: string)
    requires Dispatchable(msg)
    modifies store
    ensures Response(response, store.entries) == Respond(msg, old(store.entries), now)
  {
    var name := ToUpper(msg[0]);
    if name == "ECHO" {
      response := BulkString(msg[1]);
    } else if name == "PING" {
      response := Pong;
    } else if name == "GET" {
      var val, found := store.GetValue(msg[1], now);
      if found {
        response := BulkString(val);
      } else {
        response := NullBulk;
      }
    } else if name == "SET" {
      if |msg| >= 5 {
        var expiryTime := Atoi(msg[4]);
        if ToUpper(msg[3]) == "PX" || ToUpper(msg[3]) == "EX" {
          store.SetValueWithExpiry(msg[1], msg[2], msg[3], expiryTime, now);
        }
      } else {
        store.SetValue(msg[1], msg[2]);
      }
      response := Ok;
    } else {
      response := UnknownCommand;
    }
  }

  /**
   * One request on a connection: decode it and, when it is a command frame,
   * dispatch it and give the reply to write back. Input that is not a
   * command frame gets no reply and leaves the store alone.
   */
  method Serve(store: RedisMap, input: string, now: int) returns (reply: Option<string>)
    requires Decode(input) != [] ==> Dispatchable(Decode(input))
    modifies store
    ensures Decode(input) == [] ==> reply == None && store.entries == old(store.entries)
    ensures Decode(input) != [] ==>
      var r := Respond(Decode(input), old(store.entries), now);
      reply == Some(r.reply) && store.entries == r.entries
  {
    var msg := DecodeRequest(input);
    if |msg| == 0 {
      return None;
    }
    var response := Dispatch(store, msg, now);
    return Some(response);
  }

  // ---------------------------------------------------------------------------
  // Properties of the replies

  /** PING, ECHO and unknown names leave the store as it was. */
  lemma ReadOnlyCommands(msg: seq<string>, m: map<string, Entry>, now: int)
    requires Dispatchable(msg) && ToUpper(msg[0]) != "GET" && ToUpper(msg[0]) != "SET"
    ensures Respond(msg, m, now).entries == m
    ensures ToUpper(msg[0]) == "PING" ==> Respond(msg, m, now).reply == Pong
    ensures ToUpper(msg[0]) == "ECHO" ==> Respond(msg, m, now).reply == BulkString(msg[1])
    ensures ToUpper(msg[0]) != "PING" && ToUpper(msg[0]) != "ECHO" ==>
      Respond(msg, m, now).reply == UnknownCommand
  {
  }

  /**
   * GET answers with the value visible under the key, or the null bulk
   * string, and what is visible afterwards is what was visible before.
   */
  lemma GetReply(msg: seq<string>, m: map<string, Entry>, now: int)
    requires Dispatchable(msg) && ToUpper(msg[0]) == "GET"
    ensures var v := Visible(m, now);
      Respond(msg, m, now).reply == if msg[1] in v then BulkString(v[msg[1]]) else NullBulk
    ensures Visible(Respond(msg, m, now).entries, now) == Visible(m, now)
  {
    GetAgreesWithVisible(m, msg[1], now);
  }

  /**
   * SET always replies +OK. Three or four tokens make the value visible under
   * the key at every instant; five or more with a unit other than PX or EX
   * store nothing at all.
   */
  lemma SetReply(msg: seq<string>, m: map<string, Entry>, now: int, t: int)
    requires Dispatchable(msg) && ToUpper(msg[0]) == "SET"
    ensures Respond(msg, m, now).reply == Ok
    ensures |msg| < 5 ==> Visible(Respond(msg, m, now).entries, t) == Visible(m, t)[msg[1] := msg[2]]
    ensures |msg| >= 5 && !IsTtlUnit(msg[3]) ==> Respond(msg, m, now).entries == m
  {
    if |msg| < 5 {
      SetVisible(m, msg[1], msg[2], t);
    }
  }

  /** The names as clients spell them in the examples below are already upper case. */
  lemma CommandNames()
    ensures ToUpper("PING") == "PING" && ToUpper("ECHO") == "ECHO"
    ensures ToUpper("GET") == "GET" && ToUpper("SET") == "SET"
    ensures ToUpper("PX") == "PX" && ToUpper("EX") == "EX"
    ensures ToUpper("FOO") == "FOO"
  {
  }

  /** SET key value, then GET key at any later instant, answers with value. */
  lemma SetThenGetReply(key: string, value: string, m: map<string, Entry>, now: int, later: int)
    ensures Dispatchable(["GET", key])
    ensures var afterSet := Respond(["SET", key, value], m, now);
      afterSet.reply == Ok && Respond(["GET", key], afterSet.entries, later).reply == BulkString(value)
  {
    CommandNames();
    var m' := Respond(["SET", key, value], m, now).entries;
    assert m' == m[key := Entry(value, None)];
    SetThenGet(m, key, value, later);
  }

  /**
   * SET key value PX n, with n a positive count that does not overflow:
   * GET answers with value until n milliseconds have passed, and from then on
   * with the null bulk string, deleting the key.
   */
  lemma SetPxThenGetReply(key: string, value: string, count: string,
                          m: map<string, Entry>, now: int, later: int)
    requires 0 < Atoi(count) && Atoi(count) * Millisecond <= MaxInt64
    requires now <= later
    ensures Dispatchable(["GET", key])
    ensures var afterSet := Respond(["SET", key, value, "PX", count], m, now);
      var afterGet := Respond(["GET", key], afterSet.entries, later);
      && afterSet.reply == Ok
      && (later < now + Atoi(count) * Millisecond ==> afterGet.reply == BulkString(value))
      && (later >= now + Atoi(count) * Millisecond ==> afterGet.reply == NullBulk && key !in afterGet.entries)
  {
    CommandNames();
    UnitsIgnoreCase("PX");
    var m' := Respond(["SET", key, value, "PX", count], m, now).entries;
    assert m' == m[key := Entry(value, Some(now + TtlDuration("PX", Atoi(count))))];
    SetWithExpiryThenGet(m, key, value, "PX", Atoi(count), now, later);
  }

  /**
   * A TTL that Atoi reads as 0 stores an entry that has already expired, so a
   * GET at the same instant answers with the null bulk string and deletes the
   * key. By Atoi's contract that is "0" and every count that is not a numeral,
   * unless its digits run past 2^64 - 1 before the first non-digit.
   */
  lemma ZeroTtlExpiresAtOnce(key: string, value: string, unit: string, count: string,
                             m: map<string, Entry>, now: int)
    requires IsTtlUnit(unit)
    requires Atoi(count) == 0
    ensures Dispatchable(["GET", key])
    ensures var afterSet := Respond(["SET", key, value, unit, count], m, now);
      var afterGet := Respond(["GET", key], afterSet.entries, now);
      && afterSet.reply == Ok
      && afterSet.entries == m[key := Entry(value, Some(now))]
      && afterGet.reply == NullBulk && key !in afterGet.entries
  {
    CommandNames();
  }

  /** SET takes the TTL path exactly for a two-letter unit spelling PX or EX in any mix of cases. */
  lemma TtlUnitsIgnoreCase(unit: string)
    ensures IsTtlUnit(unit) <==> |unit| == 2 && unit[0] in "pPeE" && unit[1] in "xX"
    ensures IsTtlUnit(unit) <==> UnitNanos(unit) != 1
  {
    UnitsIgnoreCase(unit);
  }

  // ---------------------------------------------------------------------------
  // End-to-end: request bytes in, reply bytes out

  /** The PING frame, byte for byte. */
  lemma PingFrame()
    ensures EncodeCommand(["PING"]) == "*1\r\n$4\r\nPING\r\n"
  {
  }

  /** A client sends args as a well-formed frame over its connection and reads the reply. */
  method Request(store: RedisMap, args: seq<string>, now: int) returns (reply: string)
    requires forall k :: 0 <= k < |args| ==> NoCRLF(args[k])
    requires Dispatchable(args)
    modifies store
    ensures var r := Respond(args, old(store.entries), now);
      reply == r.reply && store.entries == r.entries
  {
    DecodeEncodedCommand(args);
    var answer := Serve(store, EncodeCommand(args), now);
    reply := answer.value;
  }

  /** PING, ECHO and an unknown name: fixed replies, and the store stays empty. */
  method StatelessScenario(now: int)
  {
    var store := new RedisMap();
    CommandNames();
    var reply := Request(store, ["PING"], now);
    assert reply == "+PONG\r\n";
    reply := Request(store, ["ECHO", "hello"], now);
    assert BulkString("hello") == "$5\r\nhello\r\n";
    assert reply == "$5\r\nhello\r\n";
    reply := Request(store, ["FOO"], now);
    assert reply == "-ERR unknown command\r\n";
    assert store.entries == map[];
  }

  /** Input that is not a command frame gets no reply, the empty input included. */
  method NotAFrameScenario(store: RedisMap, now: int)
    modifies store
  {
    EmptyFirstLineInputs("");
    var reply := Serve(store, "", now);
    assert reply == None;
    NonArrayInputDecodesEmpty("+OK\r\n");
    reply := Serve(store, "+OK\r\n", now);
    assert reply == None;
  }

  /** GET of a key nobody set reads as the null bulk string. */
  method MissingKeyScenario(now: int)
  {
    var store := new RedisMap();
    CommandNames();
    var reply := Request(store, ["GET", "missing"], now);
    assert reply == "$-1\r\n";
  }

  /** What one client sets another reads, through the one shared store. */
  method SharedStoreScenario(now: int)
  {
    var store := new RedisMap();
    CommandNames();
    var reply := Request(store, ["SET", "foo", "bar"], now);
    assert reply == "+OK\r\n";
    reply := Request(store, ["GET", "foo"], now + 1);
    assert BulkString("bar") == "$3\r\nbar\r\n";
    assert reply == "$3\r\nbar\r\n";
  }

  /** The TTL of the example below: PX 100 is 100 milliseconds. */
  lemma HundredMilliseconds()
    ensures Atoi("100") == 100
    ensures IsTtlUnit("PX") && TtlDuration("PX", 100) == 100 * Millisecond
  {
    assert Itoa(100) == "100";
    AtoiItoa(100);
    UnitsIgnoreCase("PX");
  }

  /** SET foo bar PX 100, then GET foo 150 ms later: the key has expired and is gone. */
  method ExpiryScenario(now: int)
  {
    var store := new RedisMap();
    CommandNames();
    HundredMilliseconds();
    var reply := Request(store, ["SET", "foo", "bar", "PX", "100"], now);
    assert reply == "+OK\r\n";
    assert store.entries == map["foo" := Entry("bar", Some(now + 100 * Millisecond))];
    reply := Request(store, ["GET", "foo"], now + 150 * Millisecond);
    assert reply == "$-1\r\n";
    assert "foo" !in store.entries;
  }
}
