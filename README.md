# ratelimit: configuration check and per-client request dispatch

This project models, in Dafny, the two sequential pieces of the `ratelimit`
HTTP server that sit around its rate-limiting record:

- **Configuration validation** (`src/config.go`). `Config` has `Port`,
  `Limit` and `Window`. `Validate` checks them in a fixed order and returns
  the first error: `PortValueError` for a port outside [1024, 65353], then
  `LimitValueError` for a negative limit, then `WindowValueError` for a
  negative window. Otherwise it returns nil, modelled as `None`. The texts of
  the limit and window errors say "greater than 0", but the checks reject only
  negative values, so a limit or window of 0 passes
  (`ZeroLimitAndWindowAccepted`). The upper port bound is 65353, as the code
  and its message both write it, not 65535.
- **The request handler** (`src/impl.go`). `RateLimitHandler` holds a map from
  client key to a record object, plus the configured limit and window. `New`
  starts it with an empty map. For each request, `ServeHTTP` does four things:
  1. It picks the key with `getIP`: a non-empty `X-Forwarded-For` value wins,
     verbatim; otherwise it uses the host part of `RemoteAddr`.
  2. If no key can be extracted, it answers 500 and touches nothing.
  3. It creates a record only for an unseen key, then calls `Add` on that
     key's record.
  4. It answers 429 with body `Error` when `Add` reports `LimitExceedError`.
     Any other outcome, including any other error, gets status 200 and body
     `Current request: <cnt>`.

The record itself is not part of this model: `Record`, `NewRecord`,
`Record.Add` and `LimitExceedError` are defined outside the files modelled.
A record is an object whose state has an unknown type `S`. The caller hands in
two things: the state `NewRecord` starts from (`initial`), and the effect of
`Add` on a state (`add`, giving the new state, `cnt` and the error). No
property of the counting itself is assumed; the few things the model does
take for granted about these calls are listed under "## Left out".
`net.SplitHostPort` is handed in the same way, as a function from an address
to a host and port, or an error text.

The handler is modelled at two levels:

- `Handler.Serve` is the value-level step. It works on the table as a map from
  key to record state.
- `Handler.RateLimitHandler.ServeHTTP` is the method on the class. It is
  proved to move the table of record states exactly as `Serve` says. Its
  contract also states two facts about object identity: every existing key
  keeps its own record object, and a new key gets a freshly allocated record.
  The invariant `Valid` states that no two keys share a record.

`ServeAll` runs requests one after another. The lemmas over it state that the
key set only grows, by at most one key per request, and is the initial keys
plus every key extracted. They also state that clients with distinct
`X-Forwarded-For` values are each served from a record of their own.

The count in the success body is rendered in decimal, as Go's `%v` prints an
`int`. `Decimal.ParseInt` reads it back, and `ResponseCarriesCount` proves
that the body carries exactly `cnt`.

Three facts about the code that the model keeps:
- the table has no lock, and lookup-or-create is a plain check-then-insert;
- `New` does not validate its configuration;
- the key may be the empty string, since `SplitHostPort` may yield an empty
  host.

## Model

| member | source | states |
|---|---|---|
| `Configuration.Validate` | src/config.go:17-28 | returns nil exactly when 1024 <= Port <= 65353, Limit >= 0 and Window >= 0; `PortValueError` exactly when the port is out of range; `LimitValueError` exactly when the port is fine and the limit negative; `WindowValueError` exactly when port and limit are fine and the window negative |
| `Configuration.PortCheckTakesPrecedence` | src/config.go:18-20 | an out-of-range port yields `PortValueError` whatever the limit and window are |
| `Configuration.LimitCheckBeforeWindow` | src/config.go:21-26 | with a valid port, a negative limit is reported even when the window is negative too |
| `Configuration.ZeroLimitAndWindowAccepted` | src/config.go:13-27 | limit 0 and window 0 are accepted, although the two error texts ask for values greater than 0 |
| `Configuration.Message` | src/config.go:12-14 | the text each error value carries, word for word; the port text names exactly the range [1024, 65353] that `Validate` enforces, written from the same bounds |
| `Configuration.ValidateExamples` | src/config_test.go:9-42 | port 999999, limit -1 and window -1 give the three errors of the tests; 8080/60/60 is accepted |
| `Decimal.NatToDecimal` | src/impl.go:60 | the decimal digits of a natural number: at least one digit, only digits, and no leading zero (0 alone is written `0`) |
| `Decimal.FormatInt` | src/impl.go:60 | `%v` of an int: a minus sign exactly for negative values, then digits with no leading zero (0 alone is written `0`), so with the round trip the text is the canonical decimal |
| `Decimal.FormatIntRoundTrip` | src/impl.go:60 | the printed count parses back to the same integer |
| `Handler.GetIP` | src/impl.go:63-76 | a non-empty `X-Forwarded-For` value is the key verbatim; otherwise the key is the host `SplitHostPort` finds in `RemoteAddr`, and its error is passed on when it fails |
| `Handler.HeaderIgnoresRemoteAddr` | src/impl.go:66-69 | with the header set, neither `RemoteAddr` nor the splitter changes the key |
| `Handler.DecodeFailure` | src/impl.go:38-43 | a key that cannot be extracted gives status 500 and the body `failed to decode ip: ` followed by the splitter's error text |
| `Handler.AddResponse` | src/impl.go:52-60 | status 429 exactly when `Add` reports `LimitExceedError`, with body `Error`; status 200 for every other outcome, with body `Current request: ` followed by the canonical decimal of `cnt` |
| `Handler.ResponseCarriesCount` | src/impl.go:53-60 | a success body reads back as exactly `cnt`; the 429 body carries no count |
| `Handler.Serve` | src/impl.go:35-61 | on a failed key extraction the table is unchanged and the answer is 500; otherwise the key is present afterwards, the key set grows by exactly that key, `Add` runs on the stored state if the key was known and on the fresh state if not, and every other key keeps its state |
| `Handler.KeyPresentAfterRequest` | src/impl.go:47-49 | after a request whose key was extracted, the table holds that key |
| `Handler.ExistingRecordKept` | src/impl.go:47-52 | for a known key the fresh record's state plays no part: `Add` runs on the stored state |
| `Handler.DomainGrowsByAtMostOne` | src/impl.go:47-49 | one request never removes a key and adds at most one |
| `Handler.RunKeys` | src/impl.go:47-49 | after a sequence of requests the keys are the initial keys plus every key extracted |
| `Handler.RunGrowth` | src/impl.go:47-49 | a sequence of requests never shrinks the table and adds at most one key per request |
| `Handler.ResponseAt` | src/impl.go:35-61 | the i-th response of a sequence is the one the i-th request gets from the table the earlier requests left |
| `Handler.DistinctClientsGetFreshRecords` | src/impl_test.go:63-85 | requests with distinct non-empty `X-Forwarded-For` values on a new handler are each answered from `Add` on a fresh record |
| `Handler.Record.constructor` | src/impl.go:48 | a new record holds the initial state `NewRecord` provides |
| `Handler.RateLimitHandler.New` | src/impl.go:19-25 | the handler starts with no records, and with the configuration's limit and window |
| `Handler.RateLimitHandler.ServeHTTP` | src/impl.go:35-61 | moves the table of record states exactly as `Serve` does and returns its response; keeps every existing key's record object; gives a new key a fresh record; keeps distinct keys on distinct records |

## Left out

- `Record`, `NewRecord`, `Record.Add` and `LimitExceedError` are not part of this model. Their sliding-window counting is not modelled; they enter only as parameters.
- The model takes four things for granted about that unseen code, as src/impl.go:47-52 reads it:
  - `Record.Add` changes only the state of the record it is called on; the clause that every other key keeps its state rests on this;
  - `NewRecord` returns a new record on every call; the invariant that distinct keys never share a record rests on this;
  - `Add` and `NewRecord` return normally and never panic;
  - the `cnt` that `Add` returns is an integer, rendered in decimal by `%v`.
- DistinctClientsGetFreshRecords: does not conclude the count of 1 in each response that the test observes, because that count depends on `Add`, which is not part of this model.
- Concurrency: the server runs handlers concurrently and the map has no lock. The model is sequential, so the concurrent test at src/impl_test.go:87-125 and any race on the map are not captured.
- `net.SplitHostPort` parsing is not modelled; the splitter is a parameter.
- `Header.Get`: header-name canonicalisation and multi-valued headers are not modelled. The request carries the value `Header.Get("X-Forwarded-For")` returns.
- HTTP plumbing is not modelled: building `http.Server` and its address `0.0.0.0:<port>`, the `ResponseWriter` calls, and `log.Printf`. A response is modelled as a status and a body.
- src/server/main.go, the process bootstrap, is not modelled: reading the environment, `strconv.Atoi`, `log.Fatalf` and `ListenAndServe` are I/O.
- Wall-clock time and `time.Sleep` in the tests are not modelled. Whatever time `Add` uses is inside the `add` parameter.
