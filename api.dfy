/** The warehouse client of the current plug-in (src/api.py): the choice of
    production or test base URL, the user message for a failed request, the
    occurrence count, and the page loop that yields one frame per page. */
module Api {
  import opened Wrappers
  import opened Text
  import opened Values
  import opened Frames
  import opened Transport

  const PRODUCTION_API_BASE := "https://api.laji.fi/v0/"
  const TEST_API_BASE := "https://apitest.laji.fi/v0/"
  const REQUEST_TIMEOUT := 60
  const TEST_FLAG := "use_test_api"
  const PAGE_SIZE := 10000
  const SELECTED_FIELDS: seq<string> := [
    "document.linkings.collectionQuality",
    "document.loadDate",
    "unit.linkings.taxon.threatenedStatus",
    "unit.linkings.originalTaxon.administrativeStatuses",
    "unit.linkings.taxon.taxonomicOrder",
    "unit.linkings.originalTaxon.latestRedListStatusFinland.status",
    "gathering.displayDateTime",
    "gathering.interpretations.biogeographicalProvinceDisplayname",
    "gathering.interpretations.coordinateAccuracy",
    "unit.abundanceUnit",
    "unit.atlasCode",
    "unit.atlasClass",
    "gathering.locality",
    "unit.unitId",
    "unit.linkings.taxon.scientificName",
    "unit.interpretations.individualCount",
    "unit.interpretations.recordQuality",
    "unit.abundanceString",
    "gathering.eventDate.begin",
    "gathering.eventDate.end",
    "gathering.gatheringId",
    "document.collectionId",
    "unit.det",
    "unit.lifeStage",
    "unit.linkings.taxon.id",
    "unit.notes",
    "unit.sex",
    "document.documentId",
    "document.notes",
    "document.secureReasons",
    "gathering.notes",
    "gathering.team",
    "unit.keywords",
    "unit.linkings.taxon.nameSwedish",
    "unit.linkings.taxon.nameEnglish",
    "document.dataSource"
  ]
  const SELECTED := Join(",", SELECTED_FIELDS)

  /** What `get_api_base_url` hands back as `params`: the caller's dictionary, or the popped flag value. */
  datatype Bound = Same(d: ParamDict) | Flag(flag: Value)

  /** `get_api_base_url(params)`. With the test flag present the flag is popped from the caller's dictionary
      and the popped value, not the dictionary, is returned as the parameters. */
  method GetApiBaseUrl(params: ParamDict) returns (base: string, bound: Bound)
    modifies params
    ensures !HasKey(params.entries, TEST_FLAG)
    ensures HasKey(old(params.entries), TEST_FLAG) ==>
              && base == TEST_API_BASE
              && bound == Flag(Get(old(params.entries), TEST_FLAG).value)
              && params.entries == Remove(old(params.entries), TEST_FLAG)
    ensures !HasKey(old(params.entries), TEST_FLAG) ==>
              base == PRODUCTION_API_BASE && bound == Same(params) && params.entries == old(params.entries)
  {
    if HasKey(params.entries, TEST_FLAG) {
      var flag := params.Pop(TEST_FLAG);
      base, bound := TEST_API_BASE, Flag(flag);
    } else {
      base, bound := PRODUCTION_API_BASE, Same(params);
    }
  }

  /** The four classes `_handle_request_error` has a message for; the lookup is by exact class. */
  predicate HasOwnMessage(k: ErrorKind) {
    k in {Timeout, ConnectionError, HTTPError, RequestException}
  }

  /** The warnings `_handle_request_error` can show. */
  datatype Warning = TimedOut | Unreachable | ServerError(detail: string) | NetworkError(detail: string) | Unexpected(detail: string) {
    /** The warning's text. */
    function Text(): string {
      match this
      case TimedOut => "Request timed out after " + IntToString(REQUEST_TIMEOUT) + " seconds. Please try again."
      case Unreachable => "Unable to connect to the FinBIF API. Check your internet connection."
      case ServerError(d) => "Server error: " + d + ". Please try again later."
      case NetworkError(d) => "Network error: " + d
      case Unexpected(d) => "Unexpected error: " + d
    }
  }

  /** The warning for a request exception, looked up by its exact class: a class without a message of its
      own gets the `Unexpected error` text even when it is a subclass of one that has one (a `ReadTimeout`
      is a `Timeout`, a `JSONDecodeError` a `RequestException`). */
  function ErrorMessage(e: RequestError): (w: Warning)
    ensures w.Unexpected? <==> !HasOwnMessage(e.kind)
    ensures w.Unexpected? || w.ServerError? || w.NetworkError? ==> w.detail == e.text
    ensures w.TimedOut? <==> e.kind == Timeout
    ensures w.ServerError? <==> e.kind == HTTPError
  {
    match e.kind
    case Timeout => TimedOut
    case ConnectionError => Unreachable
    case HTTPError => ServerError(e.text)
    case RequestException => NetworkError(e.text)
    case _ => Unexpected(e.text)
  }

  /** What `get_total_obs` makes of the reply to the count request: the `total` of a 200 or 201 JSON
      reply, and `None` otherwise, exceptions included. */
  function CountTotal(reply: Reply): (total: Option<int>)
    ensures total.Some? <==> reply.Response? && reply.status in {200, 201} && reply.payload.Json? && reply.payload.body.total.Present?
    ensures total.Some? ==> total.value == reply.payload.body.total.value
  {
    match reply
    case Failed(_) => None
    case Response(status, _, payload) =>
      if status in {200, 201} && payload.Json? then payload.body.total.Get() else None
  }

  /** The path of the count request under either base. */
  const COUNT_PATH := "warehouse/query/unit/count"

  /** Whether `requests` can build a request with `v` as its query parameters: text is taken as the query
      string as it stands and a falsy value adds no query, while any other truthy value cannot be joined with
      the text of the URL, so building the request raises a `TypeError`. */
  predicate QueryUsable(v: Value) {
    v.Str? || !Truthy(v)
  }

  /** The URL `get_total_obs` requests for the parameters `d`, or `None` when building the request raises:
      the test base when the flag is present, with the flag's value as the query. */
  function CountTarget(d: Dict<Value>): (url: Option<string>)
    ensures url.None? <==> HasKey(d, TEST_FLAG) && !QueryUsable(Get(d, TEST_FLAG).value)
    ensures url.Some? ==> url.value == (if HasKey(d, TEST_FLAG) then TEST_API_BASE else PRODUCTION_API_BASE) + COUNT_PATH
  {
    match Get(d, TEST_FLAG)
    case None => Some(PRODUCTION_API_BASE + COUNT_PATH)
    case Some(v) => if QueryUsable(v) then Some(TEST_API_BASE + COUNT_PATH) else None
  }

  /** What `get_total_obs` answers for the parameters `d` when `reply` answers its request: `None` when the
      request cannot be built, otherwise what the reply gives. */
  function CountOf(d: Dict<Value>, reply: Reply): Option<int> {
    if CountTarget(d).None? then None else CountTotal(reply)
  }

  /** The count for the three kinds of test flag: the check box's `True` gives `None` whatever the reply,
      while a text flag, which only a wild card can set, and an absent flag give the reply's total. */
  lemma CountFlagCases(d: Dict<Value>, reply: Reply)
    ensures Get(d, TEST_FLAG) == Some(Bool(true)) ==> CountOf(d, reply) == None
    ensures (Get(d, TEST_FLAG).Some? ==> Get(d, TEST_FLAG).value.Str?) ==> CountOf(d, reply) == CountTotal(reply)
  {
  }

  /** `get_total_obs(params)`. The flag is popped from the caller's dictionary and its value, not the
      dictionary, becomes the query of a request to the test base; a value that cannot be a query makes
      `requests` raise, and the handler turns that into `None`. */
  method GetTotalObs(params: ParamDict, reply: Reply) returns (total: Option<int>, target: Option<string>)
    modifies params
    ensures params.entries == Remove(old(params.entries), TEST_FLAG)
    ensures target == CountTarget(old(params.entries))
    ensures total == CountOf(old(params.entries), reply)
  {
    ghost var before := params.entries;
    var base, bound := GetApiBaseUrl(params);
    if bound.Flag? && !QueryUsable(bound.flag) {
      total, target := None, None;
      return;
    }
    if bound.Same? {
      RemoveAbsent(before, TEST_FLAG);
    }
    target := Some(base + COUNT_PATH);
    match reply {
      case Failed(_) =>
        total := None;
      case Response(status, _, payload) =>
        if status == 200 || status == 201 {
          match payload {
            case NotJson(_) => total := None;
            case Json(body) => total := body.total.Get();
          }
        } else {
          total := None;
        }
    }
  }

  /** The parameters after the `update` that precedes the first request. */
  function Prepared(d: Dict<Value>): (r: Dict<Value>)
    ensures Get(r, "format") == Some(Str("geojson")) && Get(r, "page") == Some(Int(1))
    ensures Get(r, "pageSize") == Some(Int(PAGE_SIZE)) && Get(r, "selected") == Some(Str(SELECTED))
    ensures forall k :: k != "format" && k != "page" && k != "pageSize" && k != "selected" ==> Get(r, k) == Get(d, k)
    ensures DistinctKeys(d) ==> DistinctKeys(r)
  {
    var withFormat := Put(d, "format", Str("geojson"));
    var withPage := Put(withFormat, "page", Int(1));
    var withSize := Put(withPage, "pageSize", Int(PAGE_SIZE));
    var r := Put(withSize, "selected", Str(SELECTED));
    assert DistinctKeys(d) ==> DistinctKeys(r) by {
      if DistinctKeys(d) {
        PutDistinct(d, "format", Str("geojson"));
        PutDistinct(withFormat, "page", Int(1));
        PutDistinct(withPage, "pageSize", Int(PAGE_SIZE));
        PutDistinct(withSize, "selected", Str(SELECTED));
      }
    }
    r
  }

  /** How a call of the `fetch_data` generator ends: after a page without a next page, after a request
      exception that was reported, by an exception that escapes, or when the modelled server has no
      reply left. */
  datatype FetchEnd = Finished | Stopped(error: RequestError, message: Warning) | Raised(exception: PyError) | Truncated

  /** Everything one run of the loop produces: the feature lists of the frames yielded, the number of
      requests sent, the last value of `params["page"]`, and the calls made on the progress bar. */
  datatype Fetch = Fetch(batches: seq<seq<Feature>>, requests: nat, page: nat, maxima: seq<int>, values: seq<int>, end: FetchEnd)

  /** The body of a reply that passes `raise_for_status` and decodes as JSON. */
  function Page(r: Reply): (b: Option<Body>)
    ensures b.Some? <==> r.Response? && !(400 <= r.status < 600) && r.payload.Json?
  {
    match r
    case Failed(_) => None
    case Response(status, reason, payload) =>
      if StatusError(status, reason).None? && payload.Json? then Some(payload.body) else None
  }

  /** The request exception raised at a reply that is not a page. */
  function RequestFailure(r: Reply): (e: RequestError)
    requires Page(r).None?
    ensures r.Response? && 400 <= r.status < 600 ==> e.kind == HTTPError
    ensures r.Response? && !(400 <= r.status < 600) ==> e.kind == JSONDecodeError
  {
    match r
    case Failed(e) => e
    case Response(status, reason, payload) =>
      match StatusError(status, reason)
      case Some(e) => e
      case None => RequestError(JSONDecodeError, payload.text)
  }

  /** The features of the frame a page yields: only a non-empty feature list yields one. */
  function PageBatch(b: Body): (fs: seq<seq<Feature>>)
    ensures |fs| <= 1
    ensures fs != [] <==> b.features.Present? && b.features.value != []
    ensures fs != [] ==> fs[0] == b.features.value
  {
    if b.features.Present? && b.features.value != [] then [b.features.value] else []
  }

  /** The feature lists the pages among `rs` yield, in page order. */
  function PageBatches(rs: seq<Reply>): seq<seq<Feature>> {
    if rs == [] then []
    else PageBatches(rs[..|rs| - 1]) + (match Page(rs[|rs| - 1]) case Some(b) => PageBatch(b) case None => [])
  }

  /** The frames `GeoDataFrame.from_features` builds from those lists. */
  function FramesOf(batches: seq<seq<Feature>>): (fs: seq<Frame>)
    ensures |fs| == |batches| && forall k :: 0 <= k < |fs| ==> fs[k] == FromFeatures(batches[k])
  {
    seq(|batches|, k requires 0 <= k < |batches| => FromFeatures(batches[k]))
  }

  /** The progress maximum set from the first page: `data.get('lastPage', 1)`. */
  function FirstMaximum(b: Body): int
    requires !b.lastPage.JsonNull?
  {
    if b.lastPage.Present? then b.lastPage.value else 1
  }

  /** Reply `k` is a page that names a next page, so the loop goes on after it. */
  predicate Continues(replies: seq<Reply>, k: nat)
    requires k < |replies|
  {
    Page(replies[k]).Some? && HasNextPage(Page(replies[k]).value)
  }

  /** The loop from the request for page `i + 1` on, with what it has produced so far. */
  function FetchFrom(replies: seq<Reply>, i: nat, batches: seq<seq<Feature>>, maxima: seq<int>, values: seq<int>): Fetch
    requires i <= |replies|
    decreases |replies| - i
  {
    if i == |replies| then Fetch(batches, i, i + 1, maxima, values, Truncated)
    else
      match Page(replies[i])
      case None =>
        var e := RequestFailure(replies[i]);
        Fetch(batches, i + 1, i + 1, maxima, values, Stopped(e, ErrorMessage(e)))
      case Some(b) =>
        if i == 0 && b.lastPage.JsonNull? then Fetch(batches, 1, 1, maxima, values, Raised(TypeError("setMaximum")))
        else
          var maxima' := if i == 0 then maxima + [FirstMaximum(b)] else maxima;
          var batches' := batches + PageBatch(b);
          if HasNextPage(b) then FetchFrom(replies, i + 1, batches', maxima', values + [i + 1])
          else Fetch(batches', i + 1, i + 1, maxima', values + [i + 1], Finished)
  }

  /** A whole run of `fetch_data` against the server's replies. */
  function FetchAll(replies: seq<Reply>): Fetch {
    FetchFrom(replies, 0, [], [], [])
  }

  /** The page numbers 1 to n. */
  function PageNumbers(n: nat): (ps: seq<int>)
    ensures |ps| == n && forall k :: 0 <= k < n ==> ps[k] == k + 1
  {
    seq(n, k requires 0 <= k < n => k + 1)
  }

  /** The maximum is set once, from the first page, as soon as one page has been handled. */
  function MaximaAfter(replies: seq<Reply>, n: nat): seq<int>
    requires n <= |replies|
  {
    if n == 0 || Page(replies[0]).None? || Page(replies[0]).value.lastPage.JsonNull? then []
    else [FirstMaximum(Page(replies[0]).value)]
  }

  /** The pages handled (yielded or not) are numbered 1 to n in order, the frames are those of their
      non-empty feature lists in page order, and the maximum was set from page 1 once it was handled. */
  predicate Handled(replies: seq<Reply>, run: Fetch) {
    var n := |run.values|;
    && n <= run.requests <= |replies|
    && run.values == PageNumbers(n)
    && run.batches == PageBatches(replies[..n])
    && run.maxima == MaximaAfter(replies, n)
  }

  /** How the run ended, given the n pages handled: after a page without a next page, at a reply that is
      not a page, at a first page whose `lastPage` is null, or with the server out of replies; before that
      point every page named a next page. */
  predicate Ended(replies: seq<Reply>, run: Fetch)
    requires Handled(replies, run)
  {
    var n := |run.values|;
    match run.end
    case Finished =>
      && n >= 1 && run.requests == run.page == n
      && Page(replies[n - 1]).Some? && !HasNextPage(Page(replies[n - 1]).value)
      && forall k :: 0 <= k < n - 1 ==> Continues(replies, k)
    case Stopped(error, message) =>
      && run.requests == run.page == n + 1 && Page(replies[n]).None?
      && error == RequestFailure(replies[n]) && message == ErrorMessage(error)
      && forall k :: 0 <= k < n ==> Continues(replies, k)
    case Raised(_) =>
      && n == 0 && run.requests == run.page == 1
      && Page(replies[0]).Some? && Page(replies[0]).value.lastPage.JsonNull?
    case Truncated =>
      && run.requests == n == |replies| && run.page == n + 1
      && forall k :: 0 <= k < n ==> Continues(replies, k)
  }

  lemma {:induction false} PageBatchesStep(replies: seq<Reply>, i: nat)
    requires i < |replies|
    ensures PageBatches(replies[..i + 1]) ==
            PageBatches(replies[..i]) + (match Page(replies[i]) case Some(b) => PageBatch(b) case None => [])
  {
    assert replies[..i + 1][..i] == replies[..i];
  }

  /** The parameters of the first `n` requests: the prepared parameters with `page` set to 1, 2, ..., n. */
  function Requested(start: Dict<Value>, n: nat): (sent: seq<Dict<Value>>)
    ensures |sent| == n
    ensures forall k :: 0 <= k < n ==> sent[k] == AtPage(start, k + 1)
  {
    if n == 0 then [] else Requested(start, n - 1) + [AtPage(start, n)]
  }

  /** The prepared parameters with `page` set to `n`. */
  function AtPage(start: Dict<Value>, n: int): Dict<Value> {
    Put(start, "page", Int(n))
  }

  /** `params["page"] += 1`. */
  method TurnPage(params: ParamDict, ghost start: Dict<Value>, page: int)
    requires params.entries == AtPage(start, page)
    modifies params
    ensures params.entries == AtPage(start, page + 1)
  {
    PutTwice(start, "page", Int(page), Int(page + 1));
    params.Set("page", Int(page + 1));
  }

  /** The state the loop is in before it requests page `i + 1`. */
  predicate Before(replies: seq<Reply>, i: nat, batches: seq<seq<Feature>>, maxima: seq<int>, values: seq<int>) {
    && i <= |replies|
    && (forall k :: 0 <= k < i ==> Continues(replies, k))
    && (i > 0 ==> Page(replies[0]).Some? && !Page(replies[0]).value.lastPage.JsonNull?)
    && batches == PageBatches(replies[..i]) && values == PageNumbers(i) && maxima == MaximaAfter(replies, i)
  }

  /** One more page that names a next page keeps the loop in that state. */
  lemma {:induction false} BeforeStep(replies: seq<Reply>, i: nat, batches: seq<seq<Feature>>, maxima: seq<int>, values: seq<int>)
    requires Before(replies, i, batches, maxima, values)
    requires i < |replies| && Page(replies[i]).Some? && !(i == 0 && Page(replies[i]).value.lastPage.JsonNull?)
    ensures var b := Page(replies[i]).value;
            HasNextPage(b) ==>
              Before(replies, i + 1, batches + PageBatch(b), if i == 0 then maxima + [FirstMaximum(b)] else maxima, values + [i + 1])
  {
    var b := Page(replies[i]).value;
    PageBatchesStep(replies, i);
    assert values + [i + 1] == PageNumbers(i + 1);
  }

  lemma {:induction false} FetchFromHandled(replies: seq<Reply>, i: nat, batches: seq<seq<Feature>>, maxima: seq<int>, values: seq<int>)
    requires Before(replies, i, batches, maxima, values)
    ensures Handled(replies, FetchFrom(replies, i, batches, maxima, values))
    decreases |replies| - i
  {
    if i < |replies| && Page(replies[i]).Some? {
      var b := Page(replies[i]).value;
      if !(i == 0 && b.lastPage.JsonNull?) {
        BeforeStep(replies, i, batches, maxima, values);
        if HasNextPage(b) {
          FetchFromHandled(replies, i + 1, batches + PageBatch(b), if i == 0 then maxima + [FirstMaximum(b)] else maxima, values + [i + 1]);
        } else {
          PageBatchesStep(replies, i);
          assert values + [i + 1] == PageNumbers(i + 1);
        }
      }
    }
  }

  lemma {:induction false} FetchFromEnded(replies: seq<Reply>, i: nat, batches: seq<seq<Feature>>, maxima: seq<int>, values: seq<int>)
    requires Before(replies, i, batches, maxima, values)
    ensures Handled(replies, FetchFrom(replies, i, batches, maxima, values))
    ensures Ended(replies, FetchFrom(replies, i, batches, maxima, values))
    decreases |replies| - i
  {
    FetchFromHandled(replies, i, batches, maxima, values);
    if i < |replies| && Page(replies[i]).Some? {
      var b := Page(replies[i]).value;
      if !(i == 0 && b.lastPage.JsonNull?) {
        BeforeStep(replies, i, batches, maxima, values);
        if HasNextPage(b) {
          FetchFromEnded(replies, i + 1, batches + PageBatch(b), if i == 0 then maxima + [FirstMaximum(b)] else maxima, values + [i + 1]);
        }
      }
    }
  }

  /** The loop's contract: pages are requested as 1, 2, 3, ... and handled in that order; the frames yielded
      are those of the non-empty pages, in page order, and stand whatever ends the loop; the maximum is set
      once, from page 1; the loop goes on exactly while pages name a next page, and a request exception
      ends it with the message chosen for its class. */
  lemma FetchShape(replies: seq<Reply>)
    ensures Handled(replies, FetchAll(replies)) && Ended(replies, FetchAll(replies))
  {
    FetchFromEnded(replies, 0, [], [], []);
  }

  /** `response.raise_for_status()` followed by `response.json()`. */
  method Receive(r: Reply) returns (data: Result<Body, RequestError>)
    ensures data.Ok? <==> Page(r).Some?
    ensures data.Ok? ==> data.value == Page(r).value
    ensures data.Err? ==> data.error == RequestFailure(r)
  {
    match r {
      case Failed(e) =>
        data := Err(e);
      case Response(status, reason, payload) =>
        var failure := StatusError(status, reason);
        if failure.Some? {
          data := Err(failure.value);
        } else if payload.NotJson? {
          data := Err(RequestError(JSONDecodeError, payload.text));
        } else {
          data := Ok(payload.body);
        }
    }
  }

  /** The request for page `page` with the current parameters, and what the body of the `while True` loop
      of `fetch_data` does with its reply. `next` is `None` when the loop goes on to the next page, and
      otherwise how it ends. */
  method Visit(params: ParamDict, bar: ProgressBar, client: Client, ghost server: seq<Reply>, page: nat,
               batches: seq<seq<Feature>>, ghost maxima: seq<int>, ghost values: seq<int>,
               ghost maximaBefore: seq<int>, ghost valuesBefore: seq<int>)
    returns (batches': seq<seq<Feature>>, next: Option<FetchEnd>, ghost maxima': seq<int>, ghost values': seq<int>)
    requires 1 <= page <= |server| + 1 && client.pending == server[page - 1..]
    requires bar.maxima == maximaBefore + maxima && bar.values == valuesBefore + values
    modifies bar, client
    ensures client.isOpen == old(client.isOpen)
    ensures client.sent == old(client.sent) + if page <= |server| then [params.entries] else []
    ensures bar.maxima == maximaBefore + maxima' && bar.values == valuesBefore + values'
    ensures next == Some(Truncated) <==> page == |server| + 1
    ensures next.None? ==> page <= |server| && client.pending == server[page..]
    ensures next.None? ==> FetchFrom(server, page - 1, batches, maxima, values) == FetchFrom(server, page, batches', maxima', values')
    ensures next.Some? ==> FetchFrom(server, page - 1, batches, maxima, values) ==
                           Fetch(batches', if next.value.Truncated? then page - 1 else page, page, maxima', values', next.value)
  {
    batches', maxima', values' := batches, maxima, values;
    var reply := client.Get(params.entries);
    if reply.None? {
      next := Some(Truncated);
      return;
    }
    var r := reply.value;
    assert r == server[page - 1];
    var received := Receive(r);
    if received.Err? {
      next := Some(Stopped(received.error, ErrorMessage(received.error)));
      return;
    }
    var data := received.value;
    if page == 1 {
      if data.lastPage.JsonNull? {
        next := Some(Raised(TypeError("setMaximum")));
        return;
      }
      var total := if data.lastPage.Present? then data.lastPage.value else 1;
      bar.SetMaximum(total);
      maxima' := maxima' + [total];
    }
    if data.features.Present? && data.features.value != [] {
      batches' := batches' + [data.features.value];
    }
    bar.SetValue(page);
    values' := values' + [page];
    assert Page(server[page - 1]) == Some(data);
    assert batches' == batches + PageBatch(data);
    assert maxima' == if page == 1 then maxima + [FirstMaximum(data)] else maxima;
    next := if HasNextPage(data) then None else Some(Finished);
  }

  /** One pass through the body of the `while True` loop, `params["page"] += 1` included when the loop
      goes on: request `page` carries the prepared parameters with `page` set to its number. */
  method Step(params: ParamDict, bar: ProgressBar, client: Client, ghost start: Dict<Value>, ghost server: seq<Reply>,
              page: nat, batches: seq<seq<Feature>>, ghost maxima: seq<int>, ghost values: seq<int>,
              ghost maximaBefore: seq<int>, ghost valuesBefore: seq<int>)
    returns (batches': seq<seq<Feature>>, next: Option<FetchEnd>, ghost maxima': seq<int>, ghost values': seq<int>)
    requires 1 <= page <= |server| + 1 && client.pending == server[page - 1..]
    requires params.entries == AtPage(start, page) && client.sent == Requested(start, page - 1)
    requires bar.maxima == maximaBefore + maxima && bar.values == valuesBefore + values
    modifies params, bar, client
    ensures client.isOpen == old(client.isOpen)
    ensures bar.maxima == maximaBefore + maxima' && bar.values == valuesBefore + values'
    ensures next.None? ==> && page <= |server| && client.pending == server[page..]
                           && params.entries == AtPage(start, page + 1) && client.sent == Requested(start, page)
                           && FetchFrom(server, page - 1, batches, maxima, values) == FetchFrom(server, page, batches', maxima', values')
    ensures next.Some? ==> var requests := if next.value.Truncated? then page - 1 else page;
                           && params.entries == AtPage(start, page) && client.sent == Requested(start, requests)
                           && FetchFrom(server, page - 1, batches, maxima, values) ==
                              Fetch(batches', requests, page, maxima', values', next.value)
  {
    batches', next, maxima', values' := Visit(params, bar, client, server, page, batches, maxima, values, maximaBefore, valuesBefore);
    if next.None? {
      TurnPage(params, start, page);
    }
  }

  /** The `while True` loop of `fetch_data`, from the request for page 1 to the `break` that ends it.
      `batches` holds the feature list of every page that yields a frame, in the order they are yielded. */
  method WalkPages(params: ParamDict, bar: ProgressBar, client: Client, ghost start: Dict<Value>, ghost server: seq<Reply>)
    returns (batches: seq<seq<Feature>>, end: FetchEnd)
    requires params.entries == AtPage(start, 1)
    requires client.pending == server && client.sent == []
    modifies params, bar, client
    ensures var run := FetchAll(server);
            && client.sent == Requested(start, run.requests)
            && client.isOpen == old(client.isOpen)
            && batches == run.batches && end == run.end
            && bar.maxima == old(bar.maxima) + run.maxima && bar.values == old(bar.values) + run.values
            && params.entries == AtPage(start, run.page)
  {
    batches := [];
    ghost var maximaBefore, valuesBefore := bar.maxima, bar.values;
    ghost var maxima: seq<int>, values: seq<int> := [], [];
    var page := 1;
    while true
      invariant 1 <= page <= |server| + 1
      invariant client.pending == server[page - 1..] && client.isOpen == old(client.isOpen)
      invariant client.sent == Requested(start, page - 1) && params.entries == AtPage(start, page)
      invariant bar.maxima == maximaBefore + maxima && bar.values == valuesBefore + values
      invariant FetchFrom(server, page - 1, batches, maxima, values) == FetchAll(server)
      decreases |server| - page
    {
      var next;
      batches, next, maxima, values := Step(params, bar, client, start, server, page, batches, maxima, values, maximaBefore, valuesBefore);
      if next.Some? {
        end := next.value;
        break;
      }
      page := page + 1;
    }
  }

  /** The `params.update({...})` that precedes the first request. */
  method Prepare(params: ParamDict)
    modifies params
    ensures params.entries == Prepared(old(params.entries))
    ensures AtPage(params.entries, 1) == params.entries
  {
    params.Set("format", Str("geojson"));
    params.Set("page", Int(1));
    params.Set("pageSize", Int(PAGE_SIZE));
    params.Set("selected", Str(SELECTED));
    PutSame(params.entries, "page", Int(1));
  }

  /** `fetch_data` once the base URL is chosen and `params` is the caller's dictionary: the parameters are
      prepared, a session is opened, the pages are walked, and the session is closed. */
  method FetchPages(params: ParamDict, bar: ProgressBar, ghost start: Dict<Value>, server: seq<Reply>)
    returns (frames: seq<Frame>, end: FetchEnd, session: Client)
    requires params.entries == start && AtPage(start, 1) == start
    modifies params, bar
    ensures var run := FetchAll(server);
            && fresh(session) && !session.isOpen
            && session.sent == Requested(start, run.requests)
            && frames == FramesOf(run.batches) && end == run.end
            && bar.maxima == old(bar.maxima) + run.maxima && bar.values == old(bar.values) + run.values
            && params.entries == AtPage(start, run.page)
  {
    session := new Client(server);
    var batches;
    batches, end := WalkPages(params, bar, session, start, server);
    frames := FramesOf(batches);
    session.Close();
  }

  /** `fetch_data(params, progress_bar, epsg_string)`, run to its end. The frames are those the generator
      yields; `session` is the `requests.Session` it opens, which is closed on every way out of the loop. */
  method FetchData(params: ParamDict, bar: ProgressBar, server: seq<Reply>)
    returns (frames: seq<Frame>, end: FetchEnd, session: Client?)
    modifies params, bar
    ensures HasKey(old(params.entries), TEST_FLAG) ==>
              && frames == [] && end == Raised(AttributeError("update")) && session == null
              && params.entries == Remove(old(params.entries), TEST_FLAG)
              && bar.maxima == old(bar.maxima) && bar.values == old(bar.values)
    ensures !HasKey(old(params.entries), TEST_FLAG) ==>
              var run := FetchAll(server);
              var start := Prepared(old(params.entries));
              && session != null && fresh(session) && !session.isOpen
              && session.sent == Requested(start, run.requests)
              && frames == FramesOf(run.batches) && end == run.end
              && bar.maxima == old(bar.maxima) + run.maxima && bar.values == old(bar.values) + run.values
              && params.entries == Put(start, "page", Int(run.page))
  {
    var base, bound := GetApiBaseUrl(params);
    if bound.Flag? {
      frames, end, session := [], Raised(AttributeError("update")), null;
    } else {
      ghost var start := Prepared(params.entries);
      Prepare(params);
      frames, end, session := FetchPages(params, bar, start, server);
    }
  }
}
