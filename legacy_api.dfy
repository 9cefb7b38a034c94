/** The warehouse client of the first plug-in version (api.py): one loop that
    requests the pages of the occurrence list in order and gathers their
    features into one list. Unlike the current client it has no session, it
    lets request and decoding exceptions escape, and it stops when the first
    page reports more than a million records. */
module LegacyApi {
  import opened Wrappers
  import opened Values
  import opened Frames
  import opened Transport
  import Api

  const PAGE_SIZE := 100
  /** More records than this and the loop stops with a warning. */
  const LIMIT := 1000000

  /** How the loop ends. The first three are `break`s, after which the features gathered so far are returned;
      the next two are exceptions that escape `fetch_data`; the last is the model running out of server replies. */
  datatype LegacyEnd =
    | NoNextPage
    | TooManyFeatures
    | QueryFailed(status: int)
    | RequestRaised(error: RequestError)
    | PythonRaised(exception: PyError)
    | Truncated

  /** Everything one run of the loop produces: the features gathered, the number of requests sent, the last
      value of `params["page"]`, and the calls made on the progress bar. */
  datatype LegacyRun = LegacyRun(features: seq<Feature>, requests: nat, page: int, maxima: seq<int>, values: seq<int>, end: LegacyEnd)

  /** What `fetch_data` returns: the features, when the loop ended by a `break`. */
  function Returned(run: LegacyRun): (r: Option<seq<Feature>>)
    ensures r.Some? <==> run.end.NoNextPage? || run.end.TooManyFeatures? || run.end.QueryFailed?
    ensures r.Some? ==> r.value == run.features
  {
    if run.end.NoNextPage? || run.end.TooManyFeatures? || run.end.QueryFailed? then Some(run.features) else None
  }

  /** The parameters after the three assignments that precede the loop. */
  function Prepared(d: Dict<Value>): (r: Dict<Value>)
    ensures Get(r, "format") == Some(Str("geojson")) && Get(r, "page") == Some(Int(1))
    ensures Get(r, "pageSize") == Some(Int(PAGE_SIZE))
    ensures forall k :: k != "format" && k != "page" && k != "pageSize" ==> Get(r, k) == Get(d, k)
  {
    Put(Put(Put(d, "format", Str("geojson")), "page", Int(1)), "pageSize", Int(PAGE_SIZE))
  }

  /** The body of a reply that has status 200 and decodes as JSON, or how the loop ends at that reply: any
      other status is reported and ends the loop, while an exception from `requests.get` or `response.json()`
      escapes. */
  function Received(r: Reply): (data: Result<Body, LegacyEnd>)
    ensures data.Ok? <==> r.Response? && r.status == 200 && r.payload.Json?
    ensures data.Err? ==> data.error.QueryFailed? || data.error.RequestRaised?
    ensures data.Err? && data.error.QueryFailed? <==> r.Response? && r.status != 200
  {
    match r
    case Failed(e) => Err(RequestRaised(e))
    case Response(status, _, payload) =>
      if status != 200 then Err(QueryFailed(status))
      else match payload
        case NotJson(text) => Err(RequestRaised(RequestError(JSONDecodeError, text)))
        case Json(b) => Ok(b)
  }

  /** `not last_page`: `None` and `0` are both falsy. */
  predicate Unset(lastPage: Option<int>) {
    lastPage.None? || lastPage.value == 0
  }

  /** The outcome of the block that runs while `last_page` is unset: the loop passes it with the new
      `last_page` and maxima, or halts there. */
  datatype Check = Pass(lastPage: Option<int>, maxima: seq<int>) | Halt(maxima: seq<int>, end: LegacyEnd)

  /** While `last_page` is unset, it is read from the page and handed to `setMaximum` (which refuses `None`),
      and a `total` over the limit stops the loop (a missing `total` cannot be compared and raises). Once
      `last_page` is set the block is skipped. */
  function CheckLimit(b: Body, lastPage: Option<int>, maxima: seq<int>): (c: Check)
    ensures !Unset(lastPage) ==> c == Pass(lastPage, maxima)
    ensures Unset(lastPage) && c.Pass? ==>
              && b.lastPage.Present? && c.lastPage == Some(b.lastPage.value) && c.maxima == maxima + [b.lastPage.value]
              && b.total.Present? && b.total.value <= LIMIT
    ensures c.Halt? ==> Unset(lastPage) && (c.end.TooManyFeatures? <==> b.lastPage.Present? && b.total.Present? && b.total.value > LIMIT)
  {
    if !Unset(lastPage) then Pass(lastPage, maxima)
    else match b.lastPage.Get()
      case None => Halt(maxima, PythonRaised(TypeError("setMaximum")))
      case Some(n) =>
        match b.total.Get()
        case None => Halt(maxima + [n], PythonRaised(TypeError(">")))
        case Some(t) => if t > LIMIT then Halt(maxima + [n], TooManyFeatures) else Pass(Some(n), maxima + [n])
  }

  /** `data.get('features', [])` when it is a list: a missing member reads as no features. */
  function FeaturesOf(b: Body): seq<Feature>
    requires !b.features.JsonNull?
  {
    if b.features.Present? then b.features.value else []
  }

  /** The loop from the request for page `i + 1` on, with what it has produced so far. */
  function WalkFrom(replies: seq<Reply>, i: nat, features: seq<Feature>, lastPage: Option<int>, maxima: seq<int>, values: seq<int>): LegacyRun
    requires i <= |replies|
    decreases |replies| - i
  {
    if i == |replies| then LegacyRun(features, i, i + 1, maxima, values, Truncated)
    else
      match Received(replies[i])
      case Err(end) => LegacyRun(features, i + 1, i + 1, maxima, values, end)
      case Ok(b) =>
        match CheckLimit(b, lastPage, maxima)
        case Halt(maxima', end) => LegacyRun(features, i + 1, i + 1, maxima', values, end)
        case Pass(lastPage', maxima') =>
          if b.features.JsonNull? then LegacyRun(features, i + 1, i + 1, maxima', values, PythonRaised(TypeError("extend")))
          else
            var features' := features + FeaturesOf(b);
            if HasNextPage(b) then WalkFrom(replies, i + 1, features', lastPage', maxima', values + [i + 2])
            else LegacyRun(features', i + 1, i + 2, maxima', values + [i + 2], NoNextPage)
  }

  /** A whole run of the loop against the server's replies. */
  function Walk(replies: seq<Reply>): LegacyRun {
    WalkFrom(replies, 0, [], None, [], [])
  }

  // ----- the loop's contract -----

  /** The features a reply contributes when the loop gathers them. */
  function PageFeatures(r: Reply): seq<Feature> {
    match Received(r)
    case Ok(b) => if b.features.Present? then b.features.value else []
    case Err(_) => []
  }

  /** The features of the given replies, concatenated in order. */
  function Gathered(rs: seq<Reply>): seq<Feature> {
    if rs == [] then [] else Gathered(rs[..|rs| - 1]) + PageFeatures(rs[|rs| - 1])
  }

  /** `last_page` and the maxima set after the first `n` replies, each handled as the loop handles it. */
  function Tracked(replies: seq<Reply>, n: nat): Check
    requires n <= |replies|
  {
    if n == 0 then Pass(None, [])
    else
      var prev := Tracked(replies, n - 1);
      if prev.Halt? then prev
      else match Received(replies[n - 1])
        case Err(_) => prev
        case Ok(b) => CheckLimit(b, prev.lastPage, prev.maxima)
  }

  /** The progress values 2 to n + 1: after each gathered page the bar shows the next page number. */
  function PageValues(n: nat): (vs: seq<int>)
    ensures |vs| == n && forall k :: 0 <= k < n ==> vs[k] == k + 2
  {
    seq(n, k requires 0 <= k < n => k + 2)
  }

  /** Reply `k` is a page whose features are gathered and that names a next page, so the loop goes on after it. */
  predicate Continues(replies: seq<Reply>, k: nat)
    requires k < |replies|
  {
    && Tracked(replies, k).Pass?
    && Received(replies[k]).Ok?
    && var b := Received(replies[k]).value;
       && CheckLimit(b, Tracked(replies, k).lastPage, Tracked(replies, k).maxima).Pass?
       && !b.features.JsonNull? && HasNextPage(b)
  }

  /** The state the loop is in before it requests page `i + 1`. */
  predicate Before(replies: seq<Reply>, i: nat, features: seq<Feature>, lastPage: Option<int>, maxima: seq<int>, values: seq<int>) {
    && i <= |replies|
    && (forall k :: 0 <= k < i ==> Continues(replies, k))
    && features == Gathered(replies[..i]) && Tracked(replies, i) == Pass(lastPage, maxima) && values == PageValues(i)
  }

  /** The pages gathered are numbered 1 to n and their features are concatenated in page order; the maxima
      are those the first replies set; at most one more request follows the last gathered page. */
  predicate Handled(replies: seq<Reply>, run: LegacyRun) {
    var n := |run.values|;
    && n <= run.requests <= |replies| && run.requests <= n + 1
    && run.values == PageValues(n)
    && run.features == Gathered(replies[..n])
    && run.maxima == Tracked(replies, run.requests).maxima
  }

  /** How the run ended, given the n pages gathered: every page before the end named a next page; a
      `break` after the last page without one, at a reply whose status is not 200, or at a first page (or
      a later one, while `last_page` is still unset) whose total is over the limit; an exception from the
      request, the decoder or Python itself; or the server out of replies. */
  predicate Ended(replies: seq<Reply>, run: LegacyRun)
    requires Handled(replies, run)
  {
    var n := |run.values|;
    match run.end
    case NoNextPage =>
      && n >= 1 && run.requests == n && run.page == n + 1
      && Received(replies[n - 1]).Ok? && !HasNextPage(Received(replies[n - 1]).value)
      && forall k :: 0 <= k < n - 1 ==> Continues(replies, k)
    case Truncated =>
      && run.requests == n == |replies| && run.page == n + 1
      && forall k :: 0 <= k < n ==> Continues(replies, k)
    case QueryFailed(status) =>
      && StoppedAt(replies, run, n)
      && replies[n].Response? && replies[n].status == status && status != 200
    case RequestRaised(_) =>
      && StoppedAt(replies, run, n)
      && Received(replies[n]) == Err(run.end)
    case TooManyFeatures =>
      && StoppedAt(replies, run, n)
      && Received(replies[n]).Ok? && Tracked(replies, n).Pass? && Unset(Tracked(replies, n).lastPage)
      && var b := Received(replies[n]).value;
         b.lastPage.Present? && b.total.Present? && b.total.value > LIMIT
    case PythonRaised(_) =>
      && StoppedAt(replies, run, n)
      && Received(replies[n]).Ok?
  }

  /** The loop stopped at reply `n`, the request for page `n + 1`, after every earlier page named a next page. */
  predicate StoppedAt(replies: seq<Reply>, run: LegacyRun, n: nat) {
    && n < |replies| && run.requests == run.page == n + 1
    && forall k :: 0 <= k < n ==> Continues(replies, k)
  }

  lemma {:induction false} GatheredStep(replies: seq<Reply>, i: nat)
    requires i < |replies|
    ensures Gathered(replies[..i + 1]) == Gathered(replies[..i]) + PageFeatures(replies[i])
  {
    assert replies[..i + 1][..i] == replies[..i];
  }

  /** One more page that is gathered and names a next page keeps the loop in that state. */
  lemma {:induction false} BeforeStep(replies: seq<Reply>, i: nat, features: seq<Feature>, lastPage: Option<int>, maxima: seq<int>, values: seq<int>)
    requires Before(replies, i, features, lastPage, maxima, values)
    requires i < |replies| && Received(replies[i]).Ok?
    requires var b := Received(replies[i]).value; CheckLimit(b, lastPage, maxima).Pass? && !b.features.JsonNull?
    ensures var b := Received(replies[i]).value;
            var c := CheckLimit(b, lastPage, maxima);
            && Tracked(replies, i + 1) == c
            && Gathered(replies[..i + 1]) == features + FeaturesOf(b)
            && (HasNextPage(b) ==> Before(replies, i + 1, features + FeaturesOf(b), c.lastPage, c.maxima, values + [i + 2]))
  {
    GatheredStep(replies, i);
    assert values + [i + 2] == PageValues(i + 1);
  }

  /** A reply at which the loop halts leaves the maxima of the check that halted it. */
  lemma TrackedStop(replies: seq<Reply>, i: nat, lastPage: Option<int>, maxima: seq<int>)
    requires i < |replies| && Tracked(replies, i) == Pass(lastPage, maxima)
    ensures Received(replies[i]).Err? ==> Tracked(replies, i + 1).maxima == maxima
    ensures Received(replies[i]).Ok? ==> Tracked(replies, i + 1) == CheckLimit(Received(replies[i]).value, lastPage, maxima)
  {
  }

  lemma {:induction false} WalkFromHandled(replies: seq<Reply>, i: nat, features: seq<Feature>, lastPage: Option<int>, maxima: seq<int>, values: seq<int>)
    requires Before(replies, i, features, lastPage, maxima, values)
    ensures Handled(replies, WalkFrom(replies, i, features, lastPage, maxima, values))
    decreases |replies| - i
  {
    if i < |replies| {
      TrackedStop(replies, i, lastPage, maxima);
      if Received(replies[i]).Ok? {
        var b := Received(replies[i]).value;
        var c := CheckLimit(b, lastPage, maxima);
        if c.Pass? && !b.features.JsonNull? {
          BeforeStep(replies, i, features, lastPage, maxima, values);
          if HasNextPage(b) {
            WalkFromHandled(replies, i + 1, features + FeaturesOf(b), c.lastPage, c.maxima, values + [i + 2]);
          } else {
            assert values + [i + 2] == PageValues(i + 1);
          }
        }
      }
    }
  }

  lemma {:induction false} WalkFromEnded(replies: seq<Reply>, i: nat, features: seq<Feature>, lastPage: Option<int>, maxima: seq<int>, values: seq<int>)
    requires Before(replies, i, features, lastPage, maxima, values)
    ensures Handled(replies, WalkFrom(replies, i, features, lastPage, maxima, values))
    ensures Ended(replies, WalkFrom(replies, i, features, lastPage, maxima, values))
    decreases |replies| - i
  {
    WalkFromHandled(replies, i, features, lastPage, maxima, values);
    if i < |replies| && Received(replies[i]).Ok? {
      var b := Received(replies[i]).value;
      var c := CheckLimit(b, lastPage, maxima);
      if c.Pass? && !b.features.JsonNull? {
        BeforeStep(replies, i, features, lastPage, maxima, values);
        if HasNextPage(b) {
          WalkFromEnded(replies, i + 1, features + FeaturesOf(b), c.lastPage, c.maxima, values + [i + 2]);
        }
      }
    }
  }

  /** The loop's contract: pages are requested as 1, 2, 3, ... with no gap; the result is the features of
      the pages gathered, concatenated in page order; the loop goes on exactly while pages name a next page,
      and stops at a status other than 200 (keeping what it has) or at a total over the limit. */
  lemma WalkShape(replies: seq<Reply>)
    ensures Handled(replies, Walk(replies)) && Ended(replies, Walk(replies))
  {
    WalkFromEnded(replies, 0, [], None, [], []);
  }

  /** A first page that reports more than a million records ends the loop before its features are taken:
      nothing is returned but the warning, after the maximum was set from that page. */
  lemma TooManyAtFirstPage(replies: seq<Reply>)
    requires replies != [] && Received(replies[0]).Ok?
    requires var b := Received(replies[0]).value; b.lastPage.Present? && b.total.Present? && b.total.value > LIMIT
    ensures var b := Received(replies[0]).value;
            Walk(replies) == LegacyRun([], 1, 1, [b.lastPage.value], [], TooManyFeatures)
    ensures Returned(Walk(replies)) == Some([])
  {
  }

  /** While the first pages report `lastPage` 0, `last_page` stays unset and the limit is checked again:
      a second page over the limit still stops the loop, keeping the first page's features. */
  lemma LimitCheckedAgain(replies: seq<Reply>)
    requires |replies| >= 2 && Received(replies[0]).Ok? && Received(replies[1]).Ok?
    requires var b := Received(replies[0]).value;
             b.lastPage == Present(0) && b.total.Present? && b.total.value <= LIMIT && !b.features.JsonNull? && HasNextPage(b)
    requires var b := Received(replies[1]).value; b.lastPage.Present? && b.total.Present? && b.total.value > LIMIT
    ensures Walk(replies).end == TooManyFeatures
    ensures Walk(replies).features == FeaturesOf(Received(replies[0]).value)
  {
    var first := Received(replies[0]).value;
    var second := Received(replies[1]).value;
    assert CheckLimit(first, None, []) == Pass(Some(0), [0]);
    assert Received(replies[0]) == Ok(first);
    assert Walk(replies) == WalkFrom(replies, 1, [] + FeaturesOf(first), Some(0), [0], [] + [2]);
    assert [] + FeaturesOf(first) == FeaturesOf(first);
    assert CheckLimit(second, Some(0), [0]).end == TooManyFeatures;
  }

  // ----- the imperative loop -----

  /** The request for page `page` with the current parameters and what the body of the `while True` loop does
      with its reply, up to `params["page"] += 1`. `next` is `None` when the loop goes on, and otherwise how it ends. */
  method Visit(entries: Dict<Value>, bar: ProgressBar, client: Client, ghost server: seq<Reply>, page: nat,
               features: seq<Feature>, lastPage: Option<int>, ghost maxima: seq<int>, ghost values: seq<int>,
               ghost maximaBefore: seq<int>, ghost valuesBefore: seq<int>)
    returns (features': seq<Feature>, lastPage': Option<int>, next: Option<LegacyEnd>, ghost maxima': seq<int>, ghost values': seq<int>)
    requires 1 <= page <= |server| + 1 && client.pending == server[page - 1..]
    requires bar.maxima == maximaBefore + maxima && bar.values == valuesBefore + values
    modifies bar, client
    ensures client.sent == old(client.sent) + if page <= |server| then [entries] else []
    ensures bar.maxima == maximaBefore + maxima' && bar.values == valuesBefore + values'
    ensures next == Some(Truncated) <==> page == |server| + 1
    ensures next.None? ==> page <= |server| && client.pending == server[page..]
    ensures next.None? ==> WalkFrom(server, page - 1, features, lastPage, maxima, values) ==
                           WalkFrom(server, page, features', lastPage', maxima', values')
    ensures next.Some? ==> WalkFrom(server, page - 1, features, lastPage, maxima, values) ==
                           LegacyRun(features', if next.value.Truncated? then page - 1 else page,
                                     if next.value.NoNextPage? then page + 1 else page, maxima', values', next.value)
  {
    features', lastPage', maxima', values' := features, lastPage, maxima, values;
    var reply := client.Get(entries);
    if reply.None? {
      next := Some(Truncated);
      return;
    }
    assert reply.value == server[page - 1];
    var data := Received(reply.value);
    if data.Err? {
      next := Some(data.error);
      return;
    }
    var b := data.value;
    if Unset(lastPage) {
      var reported := b.lastPage.Get();
      if reported.None? {
        next := Some(PythonRaised(TypeError("setMaximum")));
        return;
      }
      bar.SetMaximum(reported.value);
      maxima' := maxima + [reported.value];
      lastPage' := reported;
      var total := b.total.Get();
      if total.None? {
        next := Some(PythonRaised(TypeError(">")));
        return;
      }
      if total.value > LIMIT {
        next := Some(TooManyFeatures);
        return;
      }
    }
    if b.features.JsonNull? {
      next := Some(PythonRaised(TypeError("extend")));
      return;
    }
    features' := features + FeaturesOf(b);
    bar.SetValue(page + 1);
    values' := values + [page + 1];
    assert CheckLimit(b, lastPage, maxima) == Pass(lastPage', maxima');
    next := if HasNextPage(b) then None else Some(NoNextPage);
  }

  /** One pass through the body of the `while True` loop: request `page` carries the prepared parameters
      with `page` set to its number, and `params["page"] += 1` follows each gathered page. */
  method Step(params: ParamDict, bar: ProgressBar, client: Client, ghost start: Dict<Value>, ghost server: seq<Reply>, page: nat,
              features: seq<Feature>, lastPage: Option<int>, ghost maxima: seq<int>, ghost values: seq<int>,
              ghost maximaBefore: seq<int>, ghost valuesBefore: seq<int>)
    returns (features': seq<Feature>, lastPage': Option<int>, next: Option<LegacyEnd>, ghost maxima': seq<int>, ghost values': seq<int>)
    requires 1 <= page <= |server| + 1 && client.pending == server[page - 1..]
    requires params.entries == Api.AtPage(start, page) && client.sent == Api.Requested(start, page - 1)
    requires bar.maxima == maximaBefore + maxima && bar.values == valuesBefore + values
    modifies params, bar, client
    ensures bar.maxima == maximaBefore + maxima' && bar.values == valuesBefore + values'
    ensures next.None? ==> && page <= |server| && client.pending == server[page..]
                           && params.entries == Api.AtPage(start, page + 1) && client.sent == Api.Requested(start, page)
                           && WalkFrom(server, page - 1, features, lastPage, maxima, values) ==
                              WalkFrom(server, page, features', lastPage', maxima', values')
    ensures next.Some? ==> var run := WalkFrom(server, page - 1, features, lastPage, maxima, values);
                           && run == LegacyRun(features', run.requests, run.page, maxima', values', next.value)
                           && params.entries == Api.AtPage(start, run.page) && client.sent == Api.Requested(start, run.requests)
  {
    features', lastPage', next, maxima', values' :=
      Visit(params.entries, bar, client, server, page, features, lastPage, maxima, values, maximaBefore, valuesBefore);
    if next.None? || next == Some(NoNextPage) {
      Api.TurnPage(params, start, page);
    }
  }

  /** The `while True` loop of `fetch_data`, from the request for page 1 to the `break` or exception that ends it. */
  method WalkPages(params: ParamDict, bar: ProgressBar, client: Client, ghost start: Dict<Value>, ghost server: seq<Reply>)
    returns (features: seq<Feature>, end: LegacyEnd)
    requires params.entries == Api.AtPage(start, 1)
    requires client.pending == server && client.sent == []
    modifies params, bar, client
    ensures var run := Walk(server);
            && client.sent == Api.Requested(start, run.requests)
            && features == run.features && end == run.end
            && bar.maxima == old(bar.maxima) + run.maxima && bar.values == old(bar.values) + run.values
            && params.entries == Api.AtPage(start, run.page)
  {
    features := [];
    var lastPage: Option<int> := None;
    ghost var maximaBefore, valuesBefore := bar.maxima, bar.values;
    ghost var maxima: seq<int>, values: seq<int> := [], [];
    var page := 1;
    while true
      invariant 1 <= page <= |server| + 1
      invariant client.pending == server[page - 1..]
      invariant client.sent == Api.Requested(start, page - 1) && params.entries == Api.AtPage(start, page)
      invariant bar.maxima == maximaBefore + maxima && bar.values == valuesBefore + values
      invariant WalkFrom(server, page - 1, features, lastPage, maxima, values) == Walk(server)
      decreases |server| - page
    {
      var next;
      features, lastPage, next, maxima, values :=
        Step(params, bar, client, start, server, page, features, lastPage, maxima, values, maximaBefore, valuesBefore);
      if next.Some? {
        end := next.value;
        break;
      }
      page := page + 1;
    }
  }

  /** The three assignments that precede the loop. */
  method Prepare(params: ParamDict)
    modifies params
    ensures params.entries == Prepared(old(params.entries))
    ensures Api.AtPage(params.entries, 1) == params.entries
  {
    params.Set("format", Str("geojson"));
    params.Set("page", Int(1));
    params.Set("pageSize", Int(PAGE_SIZE));
    PutSame(params.entries, "page", Int(1));
  }

  /** `fetch_data(params, progress_bar)` against the server's replies. The caller's dictionary is updated in
      place; `features` is the list returned when `end` is a `break` (see `Returned`). */
  method FetchData(params: ParamDict, bar: ProgressBar, server: seq<Reply>) returns (features: seq<Feature>, end: LegacyEnd, client: Client)
    modifies params, bar
    ensures var run := Walk(server);
            var start := Prepared(old(params.entries));
            && fresh(client)
            && client.sent == Api.Requested(start, run.requests)
            && features == run.features && end == run.end
            && bar.maxima == old(bar.maxima) + run.maxima && bar.values == old(bar.values) + run.values
            && params.entries == Api.AtPage(start, run.page)
  {
    ghost var start := Prepared(params.entries);
    Prepare(params);
    client := new Client(server);
    features, end := WalkPages(params, bar, client, start, server);
  }
}
