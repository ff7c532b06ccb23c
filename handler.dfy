/**
 * The request handler of src/impl.go: the table of per-client records, the
 * choice of the client key, and the mapping from the outcome of `Add` to the
 * response.
 *
 * The record type and its operations (`Record`, `NewRecord`, `Record.Add`,
 * `LimitExceedError`) are not part of this model.  A record is an object
 * holding a state of an unknown type `S`; the state `NewRecord` starts from
 * and the effect of `Add` are handed in by the caller.  No property of the
 * counting is assumed; the model does take for granted that `Add` changes
 * only the record it is called on, that `NewRecord` returns a new record on
 * every call, that neither call panics, and that the count is an integer.
 * `net.SplitHostPort` is handed in the same way.
 */
module Handler {
  import opened Outcome
  import opened Configuration
  import opened Decimal

  /**
   * What the handler reads of an incoming request: the value of the
   * `X-Forwarded-For` header ("" when it is absent) and `RemoteAddr`.
   */
  datatype Request = Request(forwardedFor: string, remoteAddr: string)

  /** What `net.SplitHostPort` returns on success. */
  datatype HostPort = HostPort(host: string, port: string)

  /** `net.SplitHostPort`: a host and port, or the text of its error. */
  type Splitter = string -> Result<HostPort, string>

  /** Status code and body written to the `ResponseWriter`. */
  datatype Response = Response(status: int, body: string)

  const StatusOK := 200
  const StatusTooManyRequests := 429
  const StatusInternalServerError := 500

  const DecodeFailurePrefix := "failed to decode ip: "
  const CountPrefix := "Current request: "
  const LimitExceededBody := "Error"

  /** The error `Add` returns: nil, `LimitExceedError`, or any other error. */
  datatype AddError = NoError | LimitExceedError | OtherError(message: string)

  /** What one call of `Add` leaves behind: the record's new state, `cnt` and `err`. */
  datatype Added<S> = Added(next: S, count: int, err: AddError)

  /** `Record.Add(limit, window)`, as a transition on the record's state. */
  type Adder<!S> = (S, int, int) -> Added<S>

  /**
   * `getIP`: a non-empty `X-Forwarded-For` value is the key as it stands;
   * otherwise the host part of `RemoteAddr`, or the splitter's error.
   */
  function GetIP(req: Request, splitHostPort: Splitter): (r: Result<string, string>)
    ensures req.forwardedFor != "" ==> r == Ok(req.forwardedFor)
    ensures req.forwardedFor == "" ==> (r.Ok? <==> splitHostPort(req.remoteAddr).Ok?)
    ensures req.forwardedFor == "" && r.Ok? ==> r.value == splitHostPort(req.remoteAddr).value.host
    ensures r.Err? ==> req.forwardedFor == "" && r.error == splitHostPort(req.remoteAddr).error
  {
    if req.forwardedFor != "" then
      Ok(req.forwardedFor)
    else
      match splitHostPort(req.remoteAddr)
      case Ok(hp) => Ok(hp.host)
      case Err(e) => Err(e)
  }

  /** With the header set, neither `RemoteAddr` nor the splitter has any say. */
  lemma HeaderIgnoresRemoteAddr(req: Request, remoteAddr: string, s1: Splitter, s2: Splitter)
    requires req.forwardedFor != ""
    ensures GetIP(req.(remoteAddr := remoteAddr), s1) == GetIP(req, s2) == Ok(req.forwardedFor)
  {
  }

  /** The 500 response written when no key can be extracted. */
  function DecodeFailure(error: string): (resp: Response)
    ensures resp.status == StatusInternalServerError
    ensures |resp.body| >= |DecodeFailurePrefix|
    ensures resp.body[..|DecodeFailurePrefix|] == DecodeFailurePrefix
    ensures resp.body[|DecodeFailurePrefix|..] == error
  {
    Response(StatusInternalServerError, DecodeFailurePrefix + error)
  }

  /**
   * The response for the outcome of `Add`: 429 only for `LimitExceedError`;
   * any other outcome, another error included, is a 200 carrying the count.
   */
  function AddResponse(count: int, err: AddError): (resp: Response)
    ensures resp.status == StatusTooManyRequests <==> err == LimitExceedError
    ensures resp.status == StatusOK <==> err != LimitExceedError
    ensures err == LimitExceedError ==> resp.body == LimitExceededBody
    ensures err != LimitExceedError ==> resp.body == CountPrefix + FormatInt(count)
  {
    if err == LimitExceedError then
      Response(StatusTooManyRequests, LimitExceededBody)
    else
      Response(StatusOK, CountPrefix + FormatInt(count))
  }

  /** The count a client can read off a response body, if there is one. */
  function ReadCount(body: string): Option<int> {
    if |body| >= |CountPrefix| && body[..|CountPrefix|] == CountPrefix then
      ParseInt(body[|CountPrefix|..])
    else
      None
  }

  /** A success body gives back exactly `cnt`; the over-quota body gives none. */
  lemma ResponseCarriesCount(count: int, err: AddError)
    ensures ReadCount(AddResponse(count, err).body) ==
            if err == LimitExceedError then None else Some(count)
  {
    var body := AddResponse(count, err).body;
    if err != LimitExceedError {
      assert body[|CountPrefix|..] == FormatInt(count);
      FormatIntRoundTrip(count);
    } else {
      assert |body| < |CountPrefix|;
    }
  }

  /** The table of records after one request, and the response. */
  datatype Served<S> = Served(table: map<string, S>, response: Response)

  /**
   * One `ServeHTTP` call on the table seen as key -> record state: extract
   * the key; on failure answer 500 and change nothing; otherwise create a
   * record from `initial` only for an unseen key, run `add` on that key's
   * record and answer from its outcome.
   */
  function Serve<S>(table: map<string, S>, req: Request, splitHostPort: Splitter,
                    initial: S, add: Adder<S>, limit: int, window: int): (o: Served<S>)
    ensures GetIP(req, splitHostPort).Err? ==>
              o.table == table && o.response == DecodeFailure(GetIP(req, splitHostPort).error)
    ensures GetIP(req, splitHostPort).Ok? ==>
              var ip := GetIP(req, splitHostPort).value;
              var out := add(if ip in table then table[ip] else initial, limit, window);
              && o.table.Keys == table.Keys + {ip}
              && o.table[ip] == out.next
              && o.response == AddResponse(out.count, out.err)
    ensures forall k :: k in table && GetIP(req, splitHostPort) != Ok(k) ==> k in o.table && o.table[k] == table[k]
  {
    match GetIP(req, splitHostPort)
    case Err(e) => Served(table, DecodeFailure(e))
    case Ok(ip) =>
      var record := if ip in table then table[ip] else initial;
      var out := add(record, limit, window);
      Served(table[ip := out.next], AddResponse(out.count, out.err))
  }

  /** After a request whose key was extracted, the table holds that key. */
  lemma KeyPresentAfterRequest<S>(table: map<string, S>, req: Request, splitHostPort: Splitter,
                                  initial: S, add: Adder<S>, limit: int, window: int)
    requires GetIP(req, splitHostPort).Ok?
    ensures GetIP(req, splitHostPort).value in Serve(table, req, splitHostPort, initial, add, limit, window).table
  {
  }

  /**
   * A key already present keeps its record: `Add` runs on the stored state,
   * whatever state a fresh record would have started from.
   */
  lemma ExistingRecordKept<S>(table: map<string, S>, req: Request, splitHostPort: Splitter,
                              initial1: S, initial2: S, add: Adder<S>, limit: int, window: int)
    requires GetIP(req, splitHostPort).Ok? && GetIP(req, splitHostPort).value in table
    ensures Serve(table, req, splitHostPort, initial1, add, limit, window) ==
            Serve(table, req, splitHostPort, initial2, add, limit, window)
    ensures var ip := GetIP(req, splitHostPort).value;
            Serve(table, req, splitHostPort, initial1, add, limit, window).table[ip] ==
            add(table[ip], limit, window).next
  {
  }

  /** A request never removes a key and adds at most one. */
  lemma DomainGrowsByAtMostOne<S>(table: map<string, S>, req: Request, splitHostPort: Splitter,
                                  initial: S, add: Adder<S>, limit: int, window: int)
    ensures var o := Serve(table, req, splitHostPort, initial, add, limit, window);
            table.Keys <= o.table.Keys && |o.table.Keys| <= |table.Keys| + 1
  {
  }

  /** One request as a sequence of requests sees it: the request and its record behaviour. */
  datatype Call<!S> = Call(req: Request, initial: S, add: Adder<S>)

  /** The table after a sequence of requests, and the responses in order. */
  datatype Run<S> = Run(table: map<string, S>, responses: seq<Response>)

  /** Requests handled one after another by the same handler. */
  function ServeAll<S>(table: map<string, S>, calls: seq<Call<S>>, splitHostPort: Splitter,
                       limit: int, window: int): (r: Run<S>)
    ensures |r.responses| == |calls|
    decreases |calls|
  {
    if calls == [] then
      Run(table, [])
    else
      var before := ServeAll(table, calls[..|calls| - 1], splitHostPort, limit, window);
      var last := calls[|calls| - 1];
      var o := Serve(before.table, last.req, splitHostPort, last.initial, last.add, limit, window);
      Run(o.table, before.responses + [o.response])
  }

  /** The keys the requests of `calls` yield. */
  function ExtractedKeys<S>(calls: seq<Call<S>>, splitHostPort: Splitter): set<string>
    decreases |calls|
  {
    if calls == [] then
      {}
    else
      var last := calls[|calls| - 1];
      ExtractedKeys(calls[..|calls| - 1], splitHostPort) +
        (match GetIP(last.req, splitHostPort) case Ok(ip) => {ip} case Err(_) => {})
  }

  /** The keys after a run are the keys before it plus every key extracted. */
  lemma {:induction false} RunKeys<S>(table: map<string, S>, calls: seq<Call<S>>, splitHostPort: Splitter,
                                      limit: int, window: int)
    ensures ServeAll(table, calls, splitHostPort, limit, window).table.Keys ==
            table.Keys + ExtractedKeys(calls, splitHostPort)
    decreases |calls|
  {
    if calls != [] {
      RunKeys(table, calls[..|calls| - 1], splitHostPort, limit, window);
    }
  }

  /** A run never shrinks the table and adds at most one key per request. */
  lemma {:induction false} RunGrowth<S>(table: map<string, S>, calls: seq<Call<S>>, splitHostPort: Splitter,
                                        limit: int, window: int)
    ensures var keys := ServeAll(table, calls, splitHostPort, limit, window).table.Keys;
            table.Keys <= keys && |keys| <= |table.Keys| + |calls|
    decreases |calls|
  {
    if calls != [] {
      var before := ServeAll(table, calls[..|calls| - 1], splitHostPort, limit, window);
      var last := calls[|calls| - 1];
      RunGrowth(table, calls[..|calls| - 1], splitHostPort, limit, window);
      DomainGrowsByAtMostOne(before.table, last.req, splitHostPort, last.initial, last.add, limit, window);
    }
  }

  /** The i-th response is the one the i-th request gets from the table the earlier ones left. */
  lemma {:induction false} ResponseAt<S>(table: map<string, S>, calls: seq<Call<S>>, splitHostPort: Splitter,
                                         limit: int, window: int, i: nat)
    requires i < |calls|
    ensures var before := ServeAll(table, calls[..i], splitHostPort, limit, window);
            ServeAll(table, calls, splitHostPort, limit, window).responses[i] ==
            Serve(before.table, calls[i].req, splitHostPort, calls[i].initial, calls[i].add, limit, window).response
    decreases |calls|
  {
    if i < |calls| - 1 {
      var prefix := calls[..|calls| - 1];
      assert prefix[..i] == calls[..i];
      ResponseAt(table, prefix, splitHostPort, limit, window, i);
    } else {
      assert calls[..i] == calls[..|calls| - 1];
    }
  }

  /** Every request of `calls` names a client by its `X-Forwarded-For` header, each a different one. */
  predicate DistinctForwardedClients<S>(calls: seq<Call<S>>) {
    && (forall i :: 0 <= i < |calls| ==> calls[i].req.forwardedFor != "")
    && (forall i, j :: 0 <= i < j < |calls| ==> calls[i].req.forwardedFor != calls[j].req.forwardedFor)
  }

  lemma {:induction false} ForwardedKeys<S>(calls: seq<Call<S>>, splitHostPort: Splitter)
    requires forall i :: 0 <= i < |calls| ==> calls[i].req.forwardedFor != ""
    ensures forall k :: k in ExtractedKeys(calls, splitHostPort) <==>
                          exists i :: 0 <= i < |calls| && calls[i].req.forwardedFor == k
    decreases |calls|
  {
    if calls != [] {
      var prefix := calls[..|calls| - 1];
      ForwardedKeys(prefix, splitHostPort);
      forall k | k in ExtractedKeys(calls, splitHostPort)
        ensures exists i :: 0 <= i < |calls| && calls[i].req.forwardedFor == k
      {
        if k in ExtractedKeys(prefix, splitHostPort) {
          var i :| 0 <= i < |prefix| && prefix[i].req.forwardedFor == k;
          assert calls[i] == prefix[i];
        } else {
          assert calls[|calls| - 1].req.forwardedFor == k;
        }
      }
      forall k | exists i :: 0 <= i < |calls| && calls[i].req.forwardedFor == k
        ensures k in ExtractedKeys(calls, splitHostPort)
      {
        var i :| 0 <= i < |calls| && calls[i].req.forwardedFor == k;
        if i < |calls| - 1 {
          assert prefix[i] == calls[i];
        }
      }
    }
  }

  /**
   * Clients with distinct `X-Forwarded-For` values, starting from an empty
   * table, are each served from a record of their own created for them:
   * every response is that of `Add` on a fresh record.
   */
  lemma DistinctClientsGetFreshRecords<S>(calls: seq<Call<S>>, splitHostPort: Splitter,
                                          limit: int, window: int)
    requires DistinctForwardedClients(calls)
    ensures forall i :: 0 <= i < |calls| ==>
              var out := calls[i].add(calls[i].initial, limit, window);
              ServeAll(map[], calls, splitHostPort, limit, window).responses[i] == AddResponse(out.count, out.err)
  {
    forall i | 0 <= i < |calls|
      ensures var out := calls[i].add(calls[i].initial, limit, window);
              ServeAll(map[], calls, splitHostPort, limit, window).responses[i] == AddResponse(out.count, out.err)
    {
      var prefix := calls[..i];
      var before := ServeAll(map[], prefix, splitHostPort, limit, window);
      RunKeys(map[], prefix, splitHostPort, limit, window);
      ForwardedKeys(prefix, splitHostPort);
      assert calls[i].req.forwardedFor !in before.table;
      ResponseAt(map[], calls, splitHostPort, limit, window, i);
    }
  }

  /** A client's record: its state belongs to code outside this model. */
  class Record<S> {
    var state: S

    /** `NewRecord`, starting from the state `initial`. */
    constructor (initial: S)
      ensures state == initial
    {
      state := initial;
    }
  }

  /** `RateLimitHandler`: the records by client key, and the configured limit and window. */
  class RateLimitHandler<S> {
    var records: map<string, Record<S>>
    const limit: int
    const window: int

    /** Distinct keys never share a record. */
    ghost predicate Valid()
      reads this
    {
      forall k, k' :: k in records && k' in records && k != k' ==> records[k] != records[k']
    }

    /** The table as key -> record state. */
    ghost function Table(): map<string, S>
      reads this, records.Values
    {
      map k | k in records :: records[k].state
    }

    /** The handler `New` builds from a configuration; the configuration is not validated here. */
    constructor New(c: Config)
      ensures Valid()
      ensures records == map[] && limit == c.limit && window == c.window
    {
      records := map[];
      limit := c.limit;
      window := c.window;
    }

    /**
     * `ServeHTTP` for one request.  `initial` is the state `NewRecord` would
     * start from and `add` is what `Add` does to a record's state.
     */
    method ServeHTTP(req: Request, splitHostPort: Splitter, initial: S, add: Adder<S>) returns (resp: Response)
      requires Valid()
      modifies this, records.Values
      ensures Valid()
      ensures var o := Serve(old(Table()), req, splitHostPort, initial, add, limit, window);
              Table() == o.table && resp == o.response
      ensures forall k :: k in old(records) ==> k in records && records[k] == old(records[k])
      ensures forall k :: k in records && k !in old(records) ==> fresh(records[k])
    {
      var ip := GetIP(req, splitHostPort);
      if ip.Err? {
        resp := DecodeFailure(ip.error);
        return;
      }
      var key := ip.value;
      if key !in records {
        var record := new Record(initial);
        records := records[key := record];
      }
      var out := add(records[key].state, limit, window);
      records[key].state := out.next;
      resp := AddResponse(out.count, out.err);
    }
  }
}
