/** What the plug-in sees of the network: the warehouse's replies to page
    requests, the exceptions `requests` raises, the parameter dictionary that
    is sent with every request, and the progress bar the loops report to. */
module Transport {
  import opened Wrappers
  import opened Text
  import opened Values
  import opened Frames

  /** The classes of `requests.exceptions` a request can end in. */
  datatype ErrorKind =
    | RequestException
    | HTTPError
    | ConnectionError
    | ProxyError
    | SSLError
    | Timeout
    | ConnectTimeout
    | ReadTimeout
    | TooManyRedirects
    | InvalidJSONError
    | JSONDecodeError

  /** Python's subclass relation among those classes: every one is a `RequestException`, `ProxyError`,
      `SSLError` and `ConnectTimeout` are `ConnectionError`s, `ConnectTimeout` and `ReadTimeout` are
      `Timeout`s, and `JSONDecodeError` is an `InvalidJSONError`. */
  predicate IsA(k: ErrorKind, base: ErrorKind) {
    match base
    case RequestException => true
    case ConnectionError => k in {ConnectionError, ProxyError, SSLError, ConnectTimeout}
    case Timeout => k in {Timeout, ConnectTimeout, ReadTimeout}
    case InvalidJSONError => k in {InvalidJSONError, JSONDecodeError}
    case _ => k == base
  }

  /** A raised request exception: its class and its `str`. */
  datatype RequestError = RequestError(kind: ErrorKind, text: string)

  /** The members of a warehouse reply the loops read. */
  datatype Body = Body(total: Field<int>, lastPage: Field<int>, nextPage: Field<Value>, features: Field<seq<Feature>>)

  /** A response body: a JSON object, or text that does not decode as JSON (with the decoder's message). */
  datatype Payload = Json(body: Body) | NotJson(text: string)

  /** The outcome of one HTTP request: it raised before a response arrived, or a response came back. */
  datatype Reply = Failed(error: RequestError) | Response(status: int, reason: string, payload: Payload)

  /** `response.raise_for_status()`: a 4xx status is a client error and a 5xx status a server error. */
  function StatusError(status: int, reason: string): (e: Option<RequestError>)
    ensures e.Some? <==> 400 <= status < 600
    ensures e.Some? ==> e.value.kind == HTTPError
  {
    if 400 <= status < 500 then Some(RequestError(HTTPError, IntToString(status) + " Client Error: " + reason))
    else if 500 <= status < 600 then Some(RequestError(HTTPError, IntToString(status) + " Server Error: " + reason))
    else None
  }

  /** `not data.get('nextPage')`, negated. */
  predicate HasNextPage(b: Body) {
    b.nextPage.Present? && Truthy(b.nextPage.value)
  }

  /** A Python `dict` of query parameters, shared by the caller and the function it is handed to. */
  class ParamDict {
    var entries: Dict<Value>

    constructor (d: Dict<Value>)
      ensures entries == d
    {
      entries := d;
    }

    /** `params[k] = v`. */
    method Set(k: string, v: Value)
      modifies this
      ensures entries == Put(old(entries), k, v)
    {
      entries := Put(entries, k, v);
    }

    /** `params.pop(k)` when `k` is present. */
    method Pop(k: string) returns (v: Value)
      requires HasKey(entries, k)
      modifies this
      ensures Some(v) == Get(old(entries), k)
      ensures entries == Remove(old(entries), k)
    {
      v := Get(entries, k).value;
      entries := Remove(entries, k);
    }
  }

  /** The progress bar, as the record of the calls made on it. */
  class ProgressBar {
    var maxima: seq<int>
    var values: seq<int>

    constructor ()
      ensures maxima == [] && values == []
    {
      maxima := [];
      values := [];
    }

    /** `setMaximum(n)`. */
    method SetMaximum(n: int)
      modifies this
      ensures maxima == old(maxima) + [n] && values == old(values)
    {
      maxima := maxima + [n];
    }

    /** `setValue(n)`. */
    method SetValue(n: int)
      modifies this
      ensures values == old(values) + [n] && maxima == old(maxima)
    {
      values := values + [n];
    }
  }

  /** An HTTP client: the replies the server will give, in order, and the parameters of every request sent.
      A `requests.Session` is also closed at the end. */
  class Client {
    var pending: seq<Reply>
    var sent: seq<Dict<Value>>
    var isOpen: bool

    constructor (replies: seq<Reply>)
      ensures pending == replies && sent == [] && isOpen
    {
      pending := replies;
      sent := [];
      isOpen := true;
    }

    /** `get(url, params=params)`: the request is recorded and answered by the next reply. When the server
        has no reply left the model cannot go on, and `None` comes back without a request. */
    method Get(params: Dict<Value>) returns (r: Option<Reply>)
      modifies this
      ensures isOpen == old(isOpen)
      ensures old(pending) == [] ==> r.None? && pending == old(pending) && sent == old(sent)
      ensures old(pending) != [] ==> r == Some(old(pending)[0]) && pending == old(pending)[1..] && sent == old(sent) + [params]
    {
      if pending == [] {
        r := None;
      } else {
        r := Some(pending[0]);
        pending := pending[1..];
        sent := sent + [params];
      }
    }

    /** `session.close()`. */
    method Close()
      modifies this
      ensures !isOpen && pending == old(pending) && sent == old(sent)
    {
      isOpen := false;
    }
  }
}
