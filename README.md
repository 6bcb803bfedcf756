# redis-go core, modelled in Dafny

A model of the core of a minimal Redis-compatible server written in Go
(`app/main.go`). It has three parts.

- **RESP request decoder** (`Resp`). `extractRESPString` splits a request on
  `"\r\n"`. If the first line opens an array (`*`), it walks the lines, and
  every line starting with `$` makes the line after it the next token. The
  declared lengths are never checked. Input that is not an array yields no
  tokens.
- **Key-value store with lazy expiry** (`Store`). `RedisMap` maps keys to
  `RedisMapValue{Value, Expiry}`. `setValue` stores a value without expiry.
  `setValueWithExpiry` stores it with an expiry of now plus a TTL: PX is
  milliseconds, EX is seconds, and any other unit counts raw nanoseconds.
  `getValue` returns the value while the expiry is strictly after now;
  otherwise it deletes the key and reports "not found".
- **Command dispatch** (`Server`). This is the `switch` the connection handler
  runs on each decoded request, against the one map shared by all
  connections. It handles PING, ECHO, GET, SET and an error reply for any
  other name, and matches names case-insensitively.

The Go library calls the core relies on (`strings.Split`, `strings.ToUpper`,
`strconv.Atoi`, `%d` formatting, int64 `time.Duration` arithmetic) are small
functions in `GoLib`.

Modelling choices:

- The store is a class whose `entries: map<string, Entry>` field its methods
  update in place.
- The decoder's loop is a `while` loop. It is proved against the function
  `BulkTokens`.
- Dispatch is a method that calls the store's methods. It is proved against
  the function `Respond`, which gives the reply and the resulting map.
- The wall clock is an explicit integer `now`, counting nanoseconds.
- `Visible(m, now)` is the part of the store a client can observe: the live
  keys and their values. Most store properties are stated in terms of it.

Behaviour of the code worth knowing:

- SET with five or more tokens and a unit other than PX/EX stores nothing and
  still replies `+OK`. It does not fall back to a plain SET.
- SET accepts five *or more* tokens, not exactly five.
- A non-numeric TTL is read as 0, so the entry it stores has already expired;
  it is not a plain SET without TTL. A count whose digits pass the 64-bit range
  is clamped to the int64 maximum, and with PX that wraps around to −1 ms, so
  that entry is stored already expired too.
- The decoder does not guard the empty input (see Findings).

## Model

| member | source | states |
|---|---|---|
| `GoLib.SplitCRLF` | app/main.go:132 | `strings.Split(input, "\r\n")`: there is always at least one piece, and the first piece is a prefix of the input |
| `GoLib.JoinSplit` | app/main.go:132 | joining the pieces with `"\r\n"` gives back the original input, so splitting loses nothing |
| `GoLib.SplitPiecesHaveNoCRLF` | app/main.go:132 | no piece contains the separator |
| `GoLib.SplitJoin` | app/main.go:132 | splitting undoes joining, for pieces that are free of the separator |
| `GoLib.FirstPieceEmpty` | app/main.go:132-134 | the first piece is empty exactly when the input is empty or starts with `"\r\n"` |
| `GoLib.ToUpper` | app/main.go:52 | the result has the input's length, and each character is upper-cased (ASCII letters) |
| `GoLib.Itoa` | app/main.go:54 | `%d` of a length is the count's decimal digits: a non-empty digit string whose value is the count, with no leading zero (the count 0 gives exactly one `0`) |
| `GoLib.Atoi` | app/main.go:66 | `strconv.Atoi` with its error discarded. After an optional sign, a numeral within int64 gives its signed value, and a larger numeral gives MinInt64 or MaxInt64. Digits that pass 2^64 − 1 before the first non-digit also clamp. Any other non-numeral (empty, a bare sign, a non-digit reached first) gives 0 |
| `GoLib.ParseUintOutcome` | app/main.go:66 | the base-10 `ParseUint` loop under `Atoi`: a numeral up to 2^64 − 1 parses to its value; a digit prefix past 2^64 − 1 is a range error, whatever follows it; a non-digit reached first is a syntax error |
| `GoLib.AtoiItoa` | app/main.go:66 | reading back a formatted count gives the count (for counts up to the int64 maximum) |
| `GoLib.Wrap64` | app/main.go:90-95 | int64 wrap-around: the identity inside the int64 range, and always congruent to its input modulo 2^64 |
| `Resp.BulkTokens` | app/main.go:136-143 | the loop's walk from line i collects at most one token for every two lines |
| `Resp.TokensFollowTheirMarkers` | app/main.go:137-141 | each token is the line right after a `$` marker line, at the marker's position, in order |
| `Resp.MarkersAreApart` | app/main.go:138 | marker positions increase by at least two, so a token that starts with `$` is consumed and never read again as a marker |
| `Resp.NoMarkerSkipped` | app/main.go:136-143 | every `$` line that has a successor is either a marker whose next line became a token, or was itself taken as a token |
| `Resp.ExtractRESPString` | app/main.go:130-150 | the loop as written, for inputs whose first line is non-empty: an input starting with `*` yields the walk's tokens; any other input yields `[]`; fewer tokens than half the line count |
| `Resp.DecodeRequest` | app/main.go:130-150 | the decoder with the missing guard: it equals `Decode` on every input, and the empty input or one starting with `"\r\n"` yields `[]` |
| `Resp.EmptyFirstLineInputs` | app/main.go:134 | characterizes exactly the inputs that violate the as-written precondition (empty, or starting with `"\r\n"`) and shows that the guarded decoder maps them to `[]` |
| `Resp.NonArrayInputDecodesEmpty` | app/main.go:149 | a non-empty input that does not start with `*`, such as `"+OK\r\n"`, decodes to `[]` |
| `Resp.DecodeLength` | app/main.go:136-143 | twice the number of tokens is less than the number of lines |
| `Resp.DecodeEncodedCommand` | app/main_test.go:14-38 | a well-formed frame `*N\r\n($len\r\narg\r\n){N}` decodes to exactly its N arguments in order, for any arguments without `"\r\n"` |
| `Resp.BulkStringFraming` | app/main.go:54 | the bulk-string reply splits into its length line, the text and an empty line, and the length line reads back as the text's length |
| `Store.TtlDuration` | app/main.go:90-95 | the TTL as a `time.Duration`: count × unit (PX 10^6 ns, EX 10^9 ns, otherwise 1 ns) whenever that fits in int64, and that product wrapped modulo 2^64 otherwise |
| `Store.RedisMap.constructor` | app/main.go:22 | the shared store starts empty |
| `Store.RedisMap.SetValue` | app/main.go:103-107 | the key maps to the value with no expiry, every other key is unchanged, and at every instant the visible store gains or replaces just that key |
| `Store.RedisMap.SetValueWithExpiry` | app/main.go:89-101 | the key maps to the value with expiry `now + TtlDuration(unit, n)`, and every other key is unchanged |
| `Store.RedisMap.GetValue` | app/main.go:109-123 | the result is found exactly when the key is visible at now, with the visible value, and the map is then unchanged; when not found, the value is `""` and the key is absent afterwards; the visible store is unchanged |
| `Store.SetVisible` | app/main.go:103-107 | after setValue, the visible store at any instant is the previous one with key ↦ value |
| `Store.GetAgreesWithVisible` | app/main.go:109-123 | getValue reports exactly the visible value. A read that finds the key leaves the map exactly as it was, and so does an absent key; an expired key is removed; no other key changes; deleting an expired entry cannot be observed |
| `Store.GetIdempotent` | app/main.go:109-123 | a second getValue at the same instant returns the same result and leaves the map unchanged |
| `Store.SetThenGet` | app/main_test.go:165-178 | after setValue (overwriting or not), an immediate getValue returns (value, true) and leaves the map alone |
| `Store.SetWithExpiryThenGet` | app/main_test.go:121-162 | for a positive TTL that does not overflow, the value is found at every instant before now + TTL; from that instant on, it is not found and the read deletes the key |
| `Store.VisibleShrinksOverTime` | app/main.go:111-117 | expiry is permanent: a key visible later was visible earlier, with the same value |
| `Store.UnitsIgnoreCase` | app/main.go:91-93 | for every unit string: it means milliseconds exactly when it is `p`/`P` then `x`/`X`, and seconds exactly when it is `e`/`E` then `x`/`X`; every other string counts nanoseconds |
| `Store.ClampedPxWrapsToThePast` | app/main.go:90-92 | a PX count clamped to the int64 maximum wraps to a duration of −1 ms |
| `Server.Dispatch` | app/main.go:51-76 | the switch as written, calling the store's methods: its reply and the store's new map are those of `Respond` |
| `Server.Serve` | app/main.go:46-76 | one request: input that decodes to no tokens gets no reply and leaves the store alone; any other input gets `Respond`'s reply and resulting map |
| `Server.ReadOnlyCommands` | app/main.go:53-75 | PING replies `+PONG\r\n`, ECHO x replies with the bulk string of x, and any other name gets `-ERR unknown command\r\n`; none of them changes the store |
| `Server.GetReply` | app/main.go:57-63 | GET replies with the bulk string of the visible value, or `$-1\r\n` when there is none; the visible store is unchanged |
| `Server.SetReply` | app/main.go:64-73 | SET always replies `+OK\r\n`. With 3 or 4 tokens the value becomes visible at every instant; with 5 or more and a unit other than PX/EX the map is unchanged |
| `Server.SetThenGetReply` | app/main.go:57-73 | SET k v followed by GET k at any later instant replies with the bulk string of v |
| `Server.SetPxThenGetReply` | app/main.go:64-68 | SET k v PX n (n > 0, no overflow), then GET k replies with v until n ms have passed; after that it replies `$-1\r\n` and the key is deleted |
| `Server.ZeroTtlExpiresAtOnce` | app/main.go:66-68 | a TTL that reads as 0 (every non-numeral without an overflowing digit prefix) with PX/EX stores an entry that expires at now, so a GET at the same instant replies `$-1\r\n` and deletes the key |
| `Server.TtlUnitsIgnoreCase` | app/main.go:67 | SET takes the TTL path exactly for a two-letter unit spelling PX or EX in any mix of cases, which are exactly the units that do not count nanoseconds |
| `Server.PingFrame` | app/main_test.go:14-18 | the frame for PING is the bytes `*1\r\n$4\r\nPING\r\n` |

## Findings

| source | as written | input that shows it | evidently intended | confidence | as-written member | corrected member |
|---|---|---|---|---|---|---|
| app/main.go:134 | `chars[0][0]` reads the first character of the first line without checking that the line is non-empty | `""`, or any input starting with `"\r\n"` (index out of range, so a panic) | no tokens: the test at app/main_test.go:40-43 expects `[]` for `""` | high; not executed | `Resp.ExtractRESPString` | `Resp.DecodeRequest` |

`Resp.ExtractRESPString` carries the panic as its precondition, and
`Resp.EmptyFirstLineInputs` shows exactly which inputs violate it.
`Resp.DecodeRequest` adds the guard, and `Server.Serve` uses it. On those
inputs `Server.Serve` therefore gives no reply, which is what the connection
loop does with an empty command.

## Left out

- TCP listening and accepting, the per-connection goroutine loop, reads into the 256-byte buffer, writes, EOF and error handling, logging and `os.Exit` (app/main.go:13-50, 78-84). These are I/O. `Server.Serve` models one pass of the loop body on the bytes read.
- Concurrency. Every goroutine shares the one map without a lock, so the Go program has a data race. The model is sequential: each request is one call on the one store.
- The wall clock. `time.Now()` is the `now` parameter, an integer count of nanoseconds. The monotonic-clock reading, and `Time.Add` saturating at the ends of its range, are not modelled: the expiry is `now + duration` as an unbounded integer.
- Bytes. Strings are sequences of characters, and each character stands for one byte, so `len` counts characters. `strings.ToUpper` is modelled for ASCII letters only.
- `Server.Dispatch`: ECHO and GET with fewer than two tokens, or SET with fewer than three, index past the end of the token list and panic in Go. The model does not give that behaviour; it requires `Dispatchable(msg)` of its callers instead.
- `Resp.ExtractRESPString`: the panic on an empty first line is likewise a precondition, not a modelled behaviour (see Findings).
- The capacity hint in `make(RedisMap, 10)`. It has no effect on behaviour.
