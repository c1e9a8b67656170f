/** The request policies of the Firecrawl client (firecrawl_crawler/api.py): the retries of
    `scrape_url` and `get_crawl_status`, the job handle `crawl_website` returns, and the
    probes of `check_connection`. The network is a script: `net(i, t)` is what attempt `i`
    of a call, made with a client timeout of `t` seconds, comes back with. */
module Api {
  import opened Wrappers
  import opened Errors
  import opened Records
  import opened Http

  /** What a client call gives back: a value, or the exception it raises. */
  datatype Fetched<T> = Got(value: T) | Raised(error: CrawlerError)

  /** A client call: its result, the number of requests it made, and the seconds it took,
      sleeps included. */
  datatype Call<T> = Call(result: Fetched<T>, attempts: nat, elapsed: nat)

  /** What the outcome of one attempt leads to: return, try again, or raise. */
  datatype Verdict<T> = Return(value: T) | Retry | Raise(error: CrawlerError)

  type Network<T> = (nat, nat) -> Attempt<T>

  /** The seconds slept after failed attempt 0, 1 and 2. */
  const RetryDelays: seq<nat> := [2, 5, 10]

  /** The client timeouts of the three scrape attempts. */
  const ScrapeTimeouts: seq<nat> := [120, 150, 180]

  /** The client timeouts of the status requests: three attempts of 30 seconds, or one. */
  function StatusTimeouts(retryOnConnectionError: bool): (t: seq<nat>)
    ensures |t| == if retryOnConnectionError then 3 else 1
  {
    if retryOnConnectionError then [30, 30, 30] else [30]
  }

  /** The retry loop from attempt `i` on, `spent` seconds into the call: attempt `i` is made
      with timeout `timeouts[i]`, and after a `Retry` the loop sleeps `RetryDelays[i]` and
      makes the next one. A `Retry` on the last attempt leaves the loop for the closing
      "unexpected error" raise. */
  function RetryFrom<T>(decide: (Transport<T>, bool) -> Verdict<T>, net: Network<T>, timeouts: seq<nat>,
                        i: nat, spent: nat): Call<T>
    requires i < |timeouts| <= |RetryDelays|
    decreases |timeouts| - i
  {
    var a := net(i, timeouts[i]);
    match decide(a.outcome, i == |timeouts| - 1)
    case Return(v) => Call(Got(v), i + 1, spent + a.elapsed)
    case Raise(e) => Call(Raised(e), i + 1, spent + a.elapsed)
    case Retry =>
      if i == |timeouts| - 1 then Call(Raised(ApiError(Unexpected)), i + 1, spent + a.elapsed)
      else RetryFrom(decide, net, timeouts, i + 1, spent + a.elapsed + RetryDelays[i])
  }

  /** The seconds attempts `i` to `j - 1` took. */
  function TransferTime<T>(net: Network<T>, timeouts: seq<nat>, i: nat, j: nat): nat
    requires i <= j <= |timeouts|
    decreases j - i
  {
    if i == j then 0 else net(i, timeouts[i]).elapsed + TransferTime(net, timeouts, i + 1, j)
  }

  /** The seconds slept after attempts `i` to `j - 1`. */
  function Backoff(i: nat, j: nat): nat
    requires i <= j <= |RetryDelays|
    decreases j - i
  {
    if i == j then 0 else RetryDelays[i] + Backoff(i + 1, j)
  }

  /** A retry loop makes at most one request per timeout; every request before its last was
      judged worth retrying; the last one's verdict is the call's result; and the call takes
      the requests' time plus one back-off sleep between each two requests. */
  lemma {:induction false} RetryShape<T>(decide: (Transport<T>, bool) -> Verdict<T>, net: Network<T>, timeouts: seq<nat>,
                                         i: nat, spent: nat)
    requires i < |timeouts| <= |RetryDelays|
    ensures var c := RetryFrom(decide, net, timeouts, i, spent);
      i < c.attempts <= |timeouts|
        && c.elapsed == spent + TransferTime(net, timeouts, i, c.attempts) + Backoff(i, c.attempts - 1)
    ensures var c := RetryFrom(decide, net, timeouts, i, spent);
      forall k :: i <= k < c.attempts - 1 ==> decide(net(k, timeouts[k]).outcome, k == |timeouts| - 1).Retry?
    ensures var c := RetryFrom(decide, net, timeouts, i, spent);
      c.attempts <= |timeouts| &&
      var last := decide(net(c.attempts - 1, timeouts[c.attempts - 1]).outcome, c.attempts == |timeouts|);
        (last.Return? ==> c.result == Got(last.value))
          && (last.Raise? ==> c.result == Raised(last.error))
          && (last.Retry? ==> c.attempts == |timeouts| && c.result == Raised(ApiError(Unexpected)))
    decreases |timeouts| - i
  {
    var a := net(i, timeouts[i]);
    if decide(a.outcome, i == |timeouts| - 1).Retry? && i < |timeouts| - 1 {
      RetryShape(decide, net, timeouts, i + 1, spent + a.elapsed + RetryDelays[i]);
    }
  }

  /** The retry loop shared by `scrape_url` and `get_crawl_status`. */
  method RetryLoop<T>(decide: (Transport<T>, bool) -> Verdict<T>, net: Network<T>, timeouts: seq<nat>) returns (c: Call<T>)
    requires 0 < |timeouts| <= |RetryDelays|
    ensures c == RetryFrom(decide, net, timeouts, 0, 0)
  {
    var spent: nat := 0;
    var attempt := 0;
    while attempt < |timeouts|
      invariant 0 <= attempt <= |timeouts|
      invariant attempt < |timeouts| ==> RetryFrom(decide, net, timeouts, attempt, spent) == RetryFrom(decide, net, timeouts, 0, 0)
      invariant attempt == |timeouts| ==> Call(Raised(ApiError(Unexpected)), attempt, spent) == RetryFrom(decide, net, timeouts, 0, 0)
    {
      var a := net(attempt, timeouts[attempt]);
      spent := spent + a.elapsed;
      match decide(a.outcome, attempt == |timeouts| - 1) {
        case Return(v) =>
          return Call(Got(v), attempt + 1, spent);
        case Raise(e) =>
          return Call(Raised(e), attempt + 1, spent);
        case Retry =>
          if attempt < |timeouts| - 1 {
            spent := spent + RetryDelays[attempt];
          }
      }
      attempt := attempt + 1;
    }
    c := Call(Raised(ApiError(Unexpected)), attempt, spent);
  }

  /** The outcome of one scrape attempt: an HTTP 408 is retried and on the last attempt
      raises a timeout error; any other HTTP error status raises an API error at once; a
      connection failure, a client timeout, another request failure or an unreadable body
      is retried and on the last attempt raises the matching error. */
  function ScrapeVerdict(o: Transport<ScrapeBody>, last: bool): Verdict<ScrapeBody> {
    match o
    case Response(code, body) =>
      if IsHttpError(code) then
        if code == 408 then (if last then Raise(TimeoutError(ServerTimeout)) else Retry)
        else Raise(ApiError(HttpStatus(code)))
      else if body.None? then (if last then Raise(ApiError(RequestException)) else Retry)
      else Return(body.value)
    case ConnectionFailed => if last then Raise(ConnectionError(Unreachable)) else Retry
    case TimedOut => if last then Raise(TimeoutError(RequestTimedOut)) else Retry
    case RequestFailed => if last then Raise(ApiError(RequestException)) else Retry
  }

  /** The outcome of one status attempt: only a connection failure is retried; a client
      timeout raises a timeout error at once; an HTTP error status, an unreadable body or
      another request failure raises an API error. */
  function StatusVerdict(o: Transport<StatusData>, last: bool): Verdict<StatusData> {
    match o
    case Response(code, body) =>
      if IsHttpError(code) then Raise(ApiError(HttpStatus(code)))
      else if body.None? then Raise(ApiError(RequestException))
      else Return(body.value)
    case ConnectionFailed => if last then Raise(ConnectionError(Unreachable)) else Retry
    case TimedOut => Raise(TimeoutError(RequestTimedOut))
    case RequestFailed => Raise(ApiError(RequestException))
  }

  /** `scrape_url(url)` */
  method ScrapeUrl(net: Network<ScrapeBody>) returns (c: Call<ScrapeBody>)
    ensures c == RetryFrom(ScrapeVerdict, net, ScrapeTimeouts, 0, 0)
  {
    c := RetryLoop(ScrapeVerdict, net, ScrapeTimeouts);
  }

  /** `get_crawl_status(job_id, retry_on_connection_error)` */
  method GetCrawlStatus(net: Network<StatusData>, retryOnConnectionError: bool) returns (c: Call<StatusData>)
    ensures c == RetryFrom(StatusVerdict, net, StatusTimeouts(retryOnConnectionError), 0, 0)
  {
    c := RetryLoop(StatusVerdict, net, StatusTimeouts(retryOnConnectionError));
  }

  /** An outcome worth another scrape attempt. */
  predicate ScrapeRetryable(o: Transport<ScrapeBody>) {
    !o.Response? || o.code == 408 || (!IsHttpError(o.code) && o.body.None?)
  }

  /** A scrape makes at most three requests, with timeouts 120, 150 and 180 seconds and
      sleeps of 2 and 5 seconds between them. It stops early only on success or on an HTTP
      error other than 408, which raises an API error without a retry; every earlier request
      failed in a retryable way. It raises the server-timeout error exactly when the third
      request got a 408, whatever retryable failures the first two met, and never reaches
      the closing "unexpected" raise. */
  lemma ScrapeUrlPolicy(net: Network<ScrapeBody>)
    ensures var c := RetryFrom(ScrapeVerdict, net, ScrapeTimeouts, 0, 0);
      1 <= c.attempts <= 3
        && c.elapsed == TransferTime(net, ScrapeTimeouts, 0, c.attempts) + Backoff(0, c.attempts - 1)
        && c.result != Raised(ApiError(Unexpected))
    ensures var c := RetryFrom(ScrapeVerdict, net, ScrapeTimeouts, 0, 0);
      forall k :: 0 <= k < c.attempts - 1 ==> ScrapeRetryable(net(k, ScrapeTimeouts[k]).outcome)
    ensures var c := RetryFrom(ScrapeVerdict, net, ScrapeTimeouts, 0, 0);
      c.attempts <= 3 &&
      var o := net(c.attempts - 1, ScrapeTimeouts[c.attempts - 1]).outcome;
        (c.result.Got? <==> o.Response? && !IsHttpError(o.code) && o.body.Some?)
          && (c.result.Got? ==> c.result.value == o.body.value)
          && (o.Response? && IsHttpError(o.code) && o.code != 408 ==> c.result == Raised(ApiError(HttpStatus(o.code))))
          && (c.attempts < 3 ==> c.result.Got? || (o.Response? && IsHttpError(o.code) && o.code != 408))
          && (c.result == Raised(TimeoutError(ServerTimeout)) <==> c.attempts == 3 && o.Response? && o.code == 408)
  {
    RetryShape(ScrapeVerdict, net, ScrapeTimeouts, 0, 0);
  }

  /** The errors a status request can raise. */
  predicate StatusCallError(e: CrawlerError) {
    e == ConnectionError(Unreachable) || e == TimeoutError(RequestTimedOut)
      || (e.ApiError? && (e.api.HttpStatus? || e.api == RequestException))
  }

  /** A status request is tried three times when retrying is on and once otherwise; only
      connection failures are retried; a connection error is raised exactly when every
      permitted attempt failed to connect; a client timeout raises a timeout error on the
      spot. */
  lemma GetCrawlStatusPolicy(net: Network<StatusData>, retryOnConnectionError: bool)
    ensures var c := RetryFrom(StatusVerdict, net, StatusTimeouts(retryOnConnectionError), 0, 0);
      var n := if retryOnConnectionError then 3 else 1;
      1 <= c.attempts <= n && c.result != Raised(ApiError(Unexpected))
        && (forall k :: 0 <= k < c.attempts - 1 ==> net(k, 30).outcome.ConnectionFailed?)
    ensures var c := RetryFrom(StatusVerdict, net, StatusTimeouts(retryOnConnectionError), 0, 0);
      var n := if retryOnConnectionError then 3 else 1;
      c.attempts <= n &&
      var o := net(c.attempts - 1, 30).outcome;
        (c.result.Raised? && c.result.error.ConnectionError? <==> c.attempts == n && o.ConnectionFailed?)
          && (o.TimedOut? <==> c.result == Raised(TimeoutError(RequestTimedOut)))
          && (c.result.Got? <==> o.Response? && !IsHttpError(o.code) && o.body.Some?)
    ensures var c := RetryFrom(StatusVerdict, net, StatusTimeouts(retryOnConnectionError), 0, 0);
      c.result.Raised? ==> StatusCallError(c.result.error)
  {
    var timeouts := StatusTimeouts(retryOnConnectionError);
    RetryShape(StatusVerdict, net, timeouts, 0, 0);
    assert forall k :: 0 <= k < |timeouts| ==> timeouts[k] == 30;
  }

  /** The job handle of a crawl-start answer: `id` when truthy, else `jobId`; neither gives
      an API error. */
  function JobId(b: StartBody): Fetched<string> {
    var id := OrElse(b.id, b.jobId);
    if Truthy(id) then Got(id.value) else Raised(ApiError(NoJobId))
  }

  /** `crawl_website(url, ...)`: one request, no retry. */
  function StartCrawl(o: Transport<StartBody>): Fetched<string> {
    match o
    case Response(code, body) =>
      if IsHttpError(code) then Raised(ApiError(HttpStatus(code)))
      else if body.None? then Raised(ApiError(RequestException))
      else JobId(body.value)
    case ConnectionFailed => Raised(ConnectionError(Unreachable))
    case TimedOut => Raised(TimeoutError(RequestTimedOut))
    case RequestFailed => Raised(ApiError(RequestException))
  }

  /** A crawl starts with a non-empty handle, taken from `id` when that is truthy and from
      `jobId` otherwise, exactly when the service answered without an error status and one
      of the two is truthy; an answer with neither raises an API error. */
  lemma StartCrawlJobId(o: Transport<StartBody>)
    ensures var r := StartCrawl(o);
      r.Got? <==> o.Response? && !IsHttpError(o.code) && o.body.Some? && (Truthy(o.body.value.id) || Truthy(o.body.value.jobId))
    ensures var r := StartCrawl(o);
      r.Got? ==> (r.value != ""
        && (Truthy(o.body.value.id) ==> r.value == o.body.value.id.value)
        && (!Truthy(o.body.value.id) ==> r.value == o.body.value.jobId.value))
    ensures var r := StartCrawl(o);
      (o.Response? && !IsHttpError(o.code) && o.body.Some? && !Truthy(o.body.value.id) && !Truthy(o.body.value.jobId))
        ==> r == Raised(ApiError(NoJobId))
  {
  }

  /** The requests `check_connection` may make: GET /health, then GET / and GET /v1, then
      HEAD /. */
  datatype Probe = Health | Root | V1 | Head

  type Probes = Probe -> Transport<()>

  /** The fallback check succeeds when the root answers at all, or when the root cannot be
      reached or times out and then /v1 answers, or when both cannot be reached or time out
      and the HEAD request answers. Another request failure ends it unsuccessfully. */
  predicate AlternativeOk(probes: Probes) {
    var root, v1 := probes(Root), probes(V1);
    root.Response?
    || ((root.ConnectionFailed? || root.TimedOut?)
        && (v1.Response? || ((v1.ConnectionFailed? || v1.TimedOut?) && probes(Head).Response?)))
  }

  /** `_check_connection_alternative()`: no status check is made, so any answer counts. */
  method CheckConnectionAlternative(probes: Probes) returns (ok: bool)
    ensures ok <==> AlternativeOk(probes)
  {
    var urls := [Root, V1];
    assert urls[0] == Root && urls[1] == V1;
    var i := 0;
    while i < |urls|
      invariant 0 <= i <= |urls|
      invariant forall k :: 0 <= k < i ==> probes(urls[k]).ConnectionFailed? || probes(urls[k]).TimedOut?
    {
      match probes(urls[i]) {
        case Response(_, _) =>
          return true;
        case ConnectionFailed =>
        case TimedOut =>
        case RequestFailed =>
          // not caught inside the loop: the outer handler reports failure
          return false;
      }
      i := i + 1;
    }
    ok := probes(Head).Response?;
  }

  /** `check_connection()`: it never raises. A successful health check is true; an HTTP 404
      or an unexpected failure of the health request falls back to the other probes; any
      other error status, a connection failure or a timeout is false. */
  method CheckConnection(probes: Probes) returns (ok: bool)
    ensures var h := probes(Health);
      (h.Response? && !IsHttpError(h.code) ==> ok)
        && ((h.Response? && IsHttpError(h.code) && h.code != 404) || h.ConnectionFailed? || h.TimedOut? ==> !ok)
        && ((h.Response? && h.code == 404) || h.RequestFailed? ==> (ok <==> AlternativeOk(probes)))
  {
    match probes(Health) {
      case Response(code, _) =>
        if !IsHttpError(code) {
          return true;
        }
        if code == 404 {
          ok := CheckConnectionAlternative(probes);
          return;
        }
        return false;
      case ConnectionFailed =>
        return false;
      case TimedOut =>
        return false;
      case RequestFailed =>
        ok := CheckConnectionAlternative(probes);
    }
  }
}
