/** The crawler's exception hierarchy (firecrawl_crawler/exceptions.py) and the way Python's
    `except` clauses pick a handler for it. */
module Errors {
  import opened Wrappers

  /** Why a plain API error was raised. */
  datatype ApiReason =
    | HttpStatus(code: int)        // the server answered with an HTTP error status
    | NoJobId                      // a crawl start response carried no job id
    | RequestException             // any other request failure, including an unreadable body
    | JobFailed(message: string)   // the crawl job reported status "failed"
    | WaitLoopExited               // the wait loop ended without a time limit
    | Unexpected                   // the "should never be reached" fall-through of a retry loop

  /** Why a connection error was raised. */
  datatype ConnectionReason =
    | Unreachable                  // the last permitted attempt could not connect
    | PersistentDuringWait         // five status fetches in a row failed to connect

  /** Why a timeout error was raised. */
  datatype TimeoutReason =
    | ServerTimeout                // HTTP 408 on the last scrape attempt
    | RequestTimedOut              // the client-side timeout of a request expired
    | WaitExpired(lastStatus: string)  // the wait loop used up its time limit

  datatype CrawlerError =
    | ApiError(api: ApiReason)                     // FirecrawlAPIError itself
    | ConnectionError(connection: ConnectionReason) // FirecrawlConnectionError
    | TimeoutError(timeout: TimeoutReason)          // FirecrawlTimeoutError
    | StorageError
    | SitemapError
    | ConfigurationError
    | BuiltinError(name: string)  // a Python built-in exception: KeyError, NameError, ...

  /** The classes an `except` clause can name. */
  datatype ErrorClass =
    | ConnectionClass | TimeoutClass | ApiClass | StorageClass | CrawlerClass | ExceptionClass

  /** `isinstance(e, c)`: ConnectionError and TimeoutError are subclasses of APIError,
      which like StorageError is a FirecrawlCrawlerError; everything is an Exception. */
  predicate IsInstance(e: CrawlerError, c: ErrorClass) {
    match c
    case ConnectionClass => e.ConnectionError?
    case TimeoutClass => e.TimeoutError?
    case ApiClass => e.ApiError? || e.ConnectionError? || e.TimeoutError?
    case StorageClass => e.StorageError?
    case CrawlerClass => !e.BuiltinError?
    case ExceptionClass => true
  }

  /** The index of the first `except` clause of `chain` that catches `e`, as Python tries
      them top to bottom; `None` when the error escapes. */
  function Dispatch(chain: seq<ErrorClass>, e: CrawlerError): (r: Option<nat>)
    ensures r.Some? ==> r.value < |chain| && IsInstance(e, chain[r.value])
    ensures r.Some? ==> forall i :: 0 <= i < r.value ==> !IsInstance(e, chain[i])
    ensures r.None? ==> forall i :: 0 <= i < |chain| ==> !IsInstance(e, chain[i])
  {
    if chain == [] then None
    else if IsInstance(e, chain[0]) then Some(0)
    else match Dispatch(chain[1..], e)
      case None => None
      case Some(i) => Some(i + 1)
  }

  /** The handler order of the command-line entry points: connection, timeout, API, storage,
      then everything else (main.py:54-72). */
  const CommandHandlers: seq<ErrorClass> :=
    [ConnectionClass, TimeoutClass, ApiClass, StorageClass, ExceptionClass]

  /** Every error reaches a handler, and the most specific one: because the two subclasses are
      listed before APIError, neither is reported as a generic API error. */
  lemma CommandHandlersMostSpecific(e: CrawlerError)
    ensures Dispatch(CommandHandlers, e).Some?
    ensures e.ConnectionError? <==> Dispatch(CommandHandlers, e) == Some(0)
    ensures e.TimeoutError? <==> Dispatch(CommandHandlers, e) == Some(1)
    ensures e.ApiError? <==> Dispatch(CommandHandlers, e) == Some(2)
    ensures e.StorageError? <==> Dispatch(CommandHandlers, e) == Some(3)
  {
    var r := Dispatch(CommandHandlers, e);
    assert IsInstance(e, CommandHandlers[4]);
    if e.ConnectionError? {
      assert IsInstance(e, CommandHandlers[0]);
    } else if e.TimeoutError? {
      assert IsInstance(e, CommandHandlers[1]);
    } else if e.ApiError? {
      assert IsInstance(e, CommandHandlers[2]);
    } else if e.StorageError? {
      assert IsInstance(e, CommandHandlers[3]);
    }
  }
}
