/** The poll controller of `FirecrawlClient.wait_for_crawl` (firecrawl_crawler/api.py): it
    asks for a crawl job's status until the job completes with pages, fails, keeps
    reporting completion without pages, loses the connection five times in a row, or runs
    out of time; meanwhile it may hand newly seen pages to the store.

    Each `get_crawl_status` call is one `Poll` from a script, with the seconds it took; the
    clock counts whole seconds from the start and advances by the calls and the sleeps. The
    script is finite, so a run that would go on polling past its end stops with
    `OutOfScript`. Saves are recorded as the pages handed to `save_single_page`, in order;
    whether the n-th save raises is given by `saveFails`. */
module CrawlWait {
  import opened Wrappers
  import opened Errors
  import opened Records
  import opened Api

  /** One status call as the controller sees it: its result and the seconds it took. */
  datatype Poll = Poll(result: Fetched<StatusData>, elapsed: nat)

  /** The arguments and surroundings of a wait: `max_wait_time` (`None` for no limit),
      `poll_interval`, whether an incremental store was given, the successive status calls,
      and the positions (among all saves) of the saves that raise. */
  datatype WaitConfig = WaitConfig(maxWait: Option<int>, pollInterval: nat, saving: bool, polls: seq<Poll>,
                                   saveFails: set<nat>)

  /** The controller's variables: the clock, the next status call, the consecutive
      connection errors, the count of "completed" answers without pages, the keys in
      `saved_page_urls`, the pages handed to the store while waiting and those handed over
      on completion, and `status_data` (`None` while no call has succeeded). */
  datatype Waiting = Waiting(clock: nat, next: nat, errors: nat, empty: nat, saved: set<string>,
                             calls: seq<Page>, finalCalls: seq<Page>, last: Option<StatusData>)

  /** How a wait ends: the document returned, the exception raised, or the end of the
      script. */
  datatype Outcome = Returned(data: StatusData) | Threw(error: CrawlerError) | OutOfScript

  /** The result of one pass of a loop: the wait is over, or it goes on from a state. */
  datatype Turn = Done(outcome: Outcome, state: Waiting) | Continue(state: Waiting)

  const MaxConnectionErrors: nat := 5
  const MaxCompletedWithoutData: nat := 3
  const MaxDataWait: int := 60

  const Start: Waiting := Waiting(0, 0, 0, 0, {}, [], [], None)

  function Min(a: int, b: int): int {
    if a <= b then a else b
  }

  /** The loop condition: no limit, or time left. */
  predicate InTime(cfg: WaitConfig, clock: nat) {
    cfg.maxWait.None? || clock < cfg.maxWait.value
  }

  /** How long the controller waits for pages after the first "completed" answer without
      them: 60 seconds, or the time left when that is shorter. */
  function DataWaitBudget(cfg: WaitConfig, clock: nat): (b: int)
    ensures b <= MaxDataWait
    ensures cfg.maxWait.Some? ==> b <= cfg.maxWait.value - clock
  {
    if cfg.maxWait.None? then MaxDataWait else Min(MaxDataWait, cfg.maxWait.value - clock)
  }

  /** What leaving the main loop raises. With a limit it is a timeout error naming the last
      status ("unknown" when the document has none); when no status call has succeeded,
      `status_data` was never bound and reading it raises UnboundLocalError instead. Without
      a limit the loop cannot be left this way (see `NoLimitNeverExpires`). */
  function Expired(cfg: WaitConfig, last: Option<StatusData>): Outcome {
    if cfg.maxWait.None? then Threw(ApiError(WaitLoopExited))
    else if last.None? then Threw(BuiltinError("UnboundLocalError"))
    else Threw(TimeoutError(WaitExpired(last.value.status.GetOr("unknown"))))
  }

  /** The incremental save of one answer's pages: each page whose key is not yet saved is
      handed to the store and its key recorded; a save that raises ends the batch (the key
      of that page stays unrecorded), and the handler swallows the exception. `calls` is
      every page handed over so far, so the next save is number `|calls|`. */
  function SaveNew(fails: set<nat>, pages: seq<Page>, saved: set<string>, calls: seq<Page>): (r: (set<string>, seq<Page>))
    decreases |pages|
  {
    if pages == [] then (saved, calls)
    else if PageKey(pages[0]) in saved then SaveNew(fails, pages[1..], saved, calls)
    else if |calls| in fails then (saved, calls + [pages[0]])
    else SaveNew(fails, pages[1..], saved + {PageKey(pages[0])}, calls + [pages[0]])
  }

  /** The save on completion: the pages whose key was not saved while waiting are handed
      over in order, after those in `handed`, until one raises; keys are neither rechecked
      nor recorded, so a key that occurs twice is handed over twice. `count` saves were
      made before this one began. */
  function SaveRemaining(fails: set<nat>, pages: seq<Page>, saved: set<string>, count: nat, handed: seq<Page>): (r: seq<Page>)
    decreases |pages|
  {
    if pages == [] then handed
    else if PageKey(pages[0]) in saved then SaveRemaining(fails, pages[1..], saved, count, handed)
    else if count + |handed| in fails then handed + [pages[0]]
    else SaveRemaining(fails, pages[1..], saved, count, handed + [pages[0]])
  }

  /** The pages of a fresh answer, when saving: handed to the store as `SaveNew` says. */
  function Received(cfg: WaitConfig, st: Waiting, sd: StatusData): Waiting {
    if sd.data != [] && cfg.saving then
      var (saved, calls) := SaveNew(cfg.saveFails, sd.data, st.saved, st.calls);
      st.(saved := saved, calls := calls)
    else st
  }

  /** The last status call after the wait for pages: its pages are returned when there are
      any; otherwise its document becomes `status_data` and the main loop goes on. */
  function FinalCheck(cfg: WaitConfig, st: Waiting): (t: Turn)
    ensures t.state.next >= st.next
    ensures t.state.calls == st.calls && t.state.saved == st.saved && t.state.errors == st.errors
    ensures t.state.empty == st.empty && t.state.finalCalls == st.finalCalls
    ensures st.last.Some? ==> t.state.last.Some?
  {
    if st.next >= |cfg.polls| then Done(OutOfScript, st)
    else
      var poll := cfg.polls[st.next];
      var st1 := st.(next := st.next + 1, clock := st.clock + poll.elapsed);
      match poll.result
      case Raised(e) => Done(Threw(e), st1)
      case Got(fd) =>
        if fd.data != [] then Done(Returned(fd), st1.(last := Some(fd)))
        else Continue(st1.(last := Some(fd)))
  }

  /** The wait for pages that follows the first "completed" answer without them, begun at
      `start` with `budget` seconds, then the final check. While time is left it keeps
      asking: pages are returned at once (without being saved), a status other than
      "completed" resets the count and cuts the wait short; any exception of these calls
      escapes the controller. */
  function AwaitData(cfg: WaitConfig, st: Waiting, start: nat, budget: int): (t: Turn)
    ensures t.state.next >= st.next
    ensures t.state.calls == st.calls && t.state.saved == st.saved && t.state.errors == st.errors
    ensures t.state.empty == st.empty || t.state.empty == 0
    ensures t.state.finalCalls == st.finalCalls
    ensures st.last.Some? ==> t.state.last.Some?
    decreases |cfg.polls| - st.next
  {
    if InTime(cfg, st.clock) && st.clock - start < budget then
      if st.next >= |cfg.polls| then Done(OutOfScript, st)
      else
        var poll := cfg.polls[st.next];
        var st1 := st.(next := st.next + 1, clock := st.clock + poll.elapsed);
        match poll.result
        case Raised(e) => Done(Threw(e), st1)
        case Got(sd) =>
          if sd.data != [] then Done(Returned(sd), st1.(last := Some(sd)))
          else if sd.status.GetOr("completed") != "completed" then FinalCheck(cfg, st1.(last := Some(sd), empty := 0))
          else AwaitData(cfg, st1.(last := Some(sd), clock := st1.clock + cfg.pollInterval), start, budget)
    else FinalCheck(cfg, st)
  }

  /** A "completed" answer without pages. The count goes up; only the first time is there a
      wait for pages; at the third the empty document is returned; otherwise the controller
      sleeps and polls again. */
  function CompletedEmpty(cfg: WaitConfig, st: Waiting): (t: Turn)
    requires st.last.Some?
    ensures t.state.next >= st.next
    ensures t.state.calls == st.calls && t.state.saved == st.saved && t.state.errors == st.errors
    ensures t.state.finalCalls == st.finalCalls
    ensures st.empty != 0 ==> t.state.next == st.next
    ensures st.empty + 1 >= MaxCompletedWithoutData ==> t == Done(Returned(st.last.value), st.(empty := st.empty + 1))
    ensures st.empty + 1 < MaxCompletedWithoutData && st.empty != 0 ==>
      t == Continue(st.(empty := st.empty + 1, clock := st.clock + cfg.pollInterval))
  {
    var st1 := st.(empty := st.empty + 1);
    var after := if st1.empty == 1 then AwaitData(cfg, st1, st1.clock, DataWaitBudget(cfg, st1.clock)) else Continue(st1);
    match after
    case Done(o, s) => Done(o, s)
    case Continue(s) =>
      if s.empty >= MaxCompletedWithoutData then Done(Returned(s.last.value), s)
      else Continue(s.(clock := s.clock + cfg.pollInterval))
  }

  /** One pass of the main loop from the status call on. A connection error counts and,
      at the fifth in a row, gives up; any other exception of the call escapes. A successful
      call resets the count and may save pages; "completed" with pages returns them after
      saving the rest, "completed" without pages is `CompletedEmpty`, "failed" raises an API
      error with the job's message, and any other status resets the empty count. */
  function MainTurn(cfg: WaitConfig, st: Waiting): (t: Turn)
    requires st.next < |cfg.polls|
    ensures t.state.next > st.next
  {
    var poll := cfg.polls[st.next];
    var st1 := st.(next := st.next + 1, clock := st.clock + poll.elapsed);
    match poll.result
    case Raised(e) =>
      if !e.ConnectionError? then Done(Threw(e), st1)
      else if st.errors + 1 >= MaxConnectionErrors then Done(Threw(ConnectionError(PersistentDuringWait)), st1.(errors := st.errors + 1))
      else Continue(st1.(errors := st.errors + 1, clock := st1.clock + 2 * cfg.pollInterval))
    case Got(sd) =>
      var st2 := Received(cfg, st1.(errors := 0, last := Some(sd)), sd);
      if sd.status == Some("completed") then
        if sd.data != [] then
          Done(Returned(sd), st2.(finalCalls := if cfg.saving then SaveRemaining(cfg.saveFails, sd.data, st2.saved, |st2.calls|, []) else []))
        else CompletedEmpty(cfg, st2)
      else if sd.status == Some("failed") then Done(Threw(ApiError(JobFailed(sd.error.GetOr("Unknown error")))), st2)
      else Continue(st2.(empty := 0, clock := st2.clock + cfg.pollInterval))
  }

  /** The main loop from state `st` to its end. */
  function Run(cfg: WaitConfig, st: Waiting): (r: (Outcome, Waiting))
    decreases |cfg.polls| - st.next
  {
    if !InTime(cfg, st.clock) then (Expired(cfg, st.last), st)
    else if st.next >= |cfg.polls| then (OutOfScript, st)
    else match MainTurn(cfg, st)
      case Done(o, s) => (o, s)
      case Continue(s) => Run(cfg, s)
  }

  /** The incremental save loop (the pages of the answer are rechecked one by one, so
      filtering them first, as the source does, changes nothing). */
  method SaveNewPages(fails: set<nat>, pages: seq<Page>, saved0: set<string>, calls0: seq<Page>)
    returns (saved: set<string>, calls: seq<Page>)
    ensures (saved, calls) == SaveNew(fails, pages, saved0, calls0)
  {
    saved, calls := saved0, calls0;
    var i := 0;
    while i < |pages|
      invariant 0 <= i <= |pages|
      invariant SaveNew(fails, pages[i..], saved, calls) == SaveNew(fails, pages, saved0, calls0)
    {
      var page := pages[i];
      assert pages[i..][1..] == pages[i + 1..];
      var key := PageKey(page);
      if key !in saved {
        var raises := |calls| in fails;
        calls := calls + [page];
        if raises {
          return;
        }
        saved := saved + {key};
      }
      i := i + 1;
    }
  }

  /** The save of the remaining pages on completion. */
  method SaveRemainingPages(fails: set<nat>, pages: seq<Page>, saved: set<string>, count: nat) returns (handed: seq<Page>)
    ensures handed == SaveRemaining(fails, pages, saved, count, [])
  {
    handed := [];
    var i := 0;
    while i < |pages|
      invariant 0 <= i <= |pages|
      invariant SaveRemaining(fails, pages[i..], saved, count, handed) == SaveRemaining(fails, pages, saved, count, [])
    {
      var page := pages[i];
      assert pages[i..][1..] == pages[i + 1..];
      if PageKey(page) !in saved {
        var raises := count + |handed| in fails;
        handed := handed + [page];
        if raises {
          return;
        }
      }
      i := i + 1;
    }
  }

  /** The wait for pages and the final check. */
  method AwaitDataLoop(cfg: WaitConfig, st0: Waiting, start: nat, budget: int) returns (t: Turn)
    ensures t == AwaitData(cfg, st0, start, budget)
  {
    hide InTime, FinalCheck;
    var st := st0;
    while InTime(cfg, st.clock) && st.clock - start < budget
      invariant AwaitData(cfg, st, start, budget) == AwaitData(cfg, st0, start, budget)
      decreases |cfg.polls| - st.next
    {
      if st.next >= |cfg.polls| {
        return Done(OutOfScript, st);
      }
      var poll := cfg.polls[st.next];
      st := st.(next := st.next + 1, clock := st.clock + poll.elapsed);
      if poll.result.Raised? {
        return Done(Threw(poll.result.error), st);
      }
      var sd := poll.result.value;
      st := st.(last := Some(sd));
      if sd.data != [] {
        return Done(Returned(sd), st);
      }
      if sd.status.GetOr("completed") != "completed" {
        st := st.(empty := 0);
        break;
      }
      st := st.(clock := st.clock + cfg.pollInterval);
    }
    t := FinalCheckCall(cfg, st);
  }

  /** The last status call after the wait for pages. */
  method FinalCheckCall(cfg: WaitConfig, st0: Waiting) returns (t: Turn)
    ensures t == FinalCheck(cfg, st0)
  {
    if st0.next >= |cfg.polls| {
      return Done(OutOfScript, st0);
    }
    var poll := cfg.polls[st0.next];
    var st := st0.(next := st0.next + 1, clock := st0.clock + poll.elapsed);
    if poll.result.Raised? {
      return Done(Threw(poll.result.error), st);
    }
    var fd := poll.result.value;
    st := st.(last := Some(fd));
    t := if fd.data != [] then Done(Returned(fd), st) else Continue(st);
  }

  /** `wait_for_crawl(job_id, max_wait_time, poll_interval, incremental_save)` */
  method WaitForCrawl(cfg: WaitConfig) returns (outcome: Outcome, final: Waiting)
    ensures (outcome, final) == Run(cfg, Start)
  {
    hide SaveNew, SaveRemaining, AwaitData, Expired, DataWaitBudget;
    var st := Start;
    while InTime(cfg, st.clock)
      invariant Run(cfg, st) == Run(cfg, Start)
      decreases |cfg.polls| - st.next
    {
      if st.next >= |cfg.polls| {
        return OutOfScript, st;
      }
      ghost var before := st;
      var poll := cfg.polls[st.next];
      st := st.(next := st.next + 1, clock := st.clock + poll.elapsed);
      if poll.result.Raised? {
        var e := poll.result.error;
        if !e.ConnectionError? {
          return Threw(e), st;
        }
        st := st.(errors := st.errors + 1);
        if st.errors >= MaxConnectionErrors {
          return Threw(ConnectionError(PersistentDuringWait)), st;
        }
        st := st.(clock := st.clock + 2 * cfg.pollInterval);
        continue;
      }
      var sd := poll.result.value;
      st := st.(errors := 0, last := Some(sd));
      if sd.data != [] && cfg.saving {
        var saved, calls := SaveNewPages(cfg.saveFails, sd.data, st.saved, st.calls);
        st := st.(saved := saved, calls := calls);
      }
      assert st == Received(cfg, before.(next := before.next + 1, clock := before.clock + poll.elapsed, errors := 0, last := Some(sd)), sd);
      if sd.status == Some("completed") {
        if sd.data != [] {
          if cfg.saving {
            var handed := SaveRemainingPages(cfg.saveFails, sd.data, st.saved, |st.calls|);
            st := st.(finalCalls := handed);
          } else {
            st := st.(finalCalls := []);
          }
          return Returned(sd), st;
        }
        ghost var reached := st;
        st := st.(empty := st.empty + 1);
        if st.empty == 1 {
          var t := AwaitDataLoop(cfg, st, st.clock, DataWaitBudget(cfg, st.clock));
          if t.Done? {
            return t.outcome, t.state;
          }
          st := t.state;
        }
        if st.empty >= MaxCompletedWithoutData {
          return Returned(st.last.value), st;
        }
        st := st.(clock := st.clock + cfg.pollInterval);
        assert MainTurn(cfg, before) == CompletedEmpty(cfg, reached) == Continue(st);
        continue;
      } else if sd.status == Some("failed") {
        return Threw(ApiError(JobFailed(sd.error.GetOr("Unknown error")))), st;
      }
      st := st.(empty := 0, clock := st.clock + cfg.pollInterval);
    }
    return Expired(cfg, st.last), st;
  }

  // ---------------------------------------------------------------------------------
  // What a wait can end with

  /** Some status call before the `n`-th gave `r`. */
  predicate Polled(cfg: WaitConfig, n: nat, r: Fetched<StatusData>) {
    exists k :: 0 <= k < n && k < |cfg.polls| && cfg.polls[k].result == r
  }

  /** Some status call before the `n`-th reported the job failed with `message` (or with
      none, "Unknown error"). */
  predicate FailedJob(cfg: WaitConfig, n: nat, message: string) {
    exists k :: 0 <= k < n && k < |cfg.polls| && cfg.polls[k].result.Got?
      && cfg.polls[k].result.value.status == Some("failed")
      && message == cfg.polls[k].result.value.error.GetOr("Unknown error")
  }

  predicate ConnectionFailure(p: Poll) {
    p.result.Raised? && p.result.error.ConnectionError?
  }

  /** The status calls `n - count` to `n - 1` all failed to connect. */
  predicate FailuresBefore(cfg: WaitConfig, n: nat, count: nat) {
    count <= n <= |cfg.polls| && forall k :: n - count <= k < n ==> ConnectionFailure(cfg.polls[k])
  }

  /** Every status call of the script fails, if at all, as `get_crawl_status` can. */
  predicate StatusPolls(cfg: WaitConfig) {
    forall k :: 0 <= k < |cfg.polls| && cfg.polls[k].result.Raised? ==> StatusCallError(cfg.polls[k].result.error)
  }

  /** A page key is handed to the store again only after an earlier save of it raised. */
  predicate RepeatsOnlyAfterFailure(fails: set<nat>, calls: seq<Page>) {
    forall i, j :: 0 <= i < j < |calls| && PageKey(calls[i]) == PageKey(calls[j]) ==> i in fails
  }

  /** The saves so far and `saved_page_urls` agree: every save that did not raise recorded
      its key. */
  predicate SaveLedger(fails: set<nat>, saved: set<string>, calls: seq<Page>) {
    RepeatsOnlyAfterFailure(fails, calls)
      && forall i :: 0 <= i < |calls| && i !in fails ==> PageKey(calls[i]) in saved
  }

  /** What holds whenever the main loop is about to test its condition: the error count is
      the run of connection failures just before the next call, `status_data` is unbound
      only while no call has succeeded, and the saves agree with the recorded keys. */
  predicate Between(cfg: WaitConfig, st: Waiting) {
    st.errors < MaxConnectionErrors && FailuresBefore(cfg, st.next, st.errors)
      && (st.last.None? ==> forall k :: 0 <= k < st.next ==> cfg.polls[k].result.Raised?)
      && SaveLedger(cfg.saveFails, st.saved, st.calls)
  }

  /** How a wait that ended in state `f` can have ended: with a document one of its calls
      returned, which has pages or reports completion; with five connection failures in a
      row; with an exception of one of its calls; with the job's failure message; with
      the limit used up (the timeout error, or UnboundLocalError when no call ever
      succeeded); or at the end of the script. */
  predicate Explained(cfg: WaitConfig, o: Outcome, f: Waiting) {
    match o
    case Returned(d) => Polled(cfg, f.next, Got(d)) && (d.data != [] || d.status == Some("completed"))
    case Threw(e) =>
      (e == ConnectionError(PersistentDuringWait) && FailuresBefore(cfg, f.next, MaxConnectionErrors))
        || Polled(cfg, f.next, Raised(e))
        || (e.ApiError? && e.api.JobFailed? && FailedJob(cfg, f.next, e.api.message))
        || (cfg.maxWait.Some? && o == Expired(cfg, f.last)
            && (f.last.None? ==> forall k :: 0 <= k < f.next && k < |cfg.polls| ==> cfg.polls[k].result.Raised?))
    case OutOfScript => f.next == |cfg.polls|
  }

  /** A save batch keeps the ledger. */
  lemma {:induction false} SaveNewKeepsLedger(fails: set<nat>, pages: seq<Page>, saved: set<string>, calls: seq<Page>)
    requires SaveLedger(fails, saved, calls)
    ensures SaveLedger(fails, SaveNew(fails, pages, saved, calls).0, SaveNew(fails, pages, saved, calls).1)
    decreases |pages|
  {
    if pages == [] {
    } else if PageKey(pages[0]) in saved {
      SaveNewKeepsLedger(fails, pages[1..], saved, calls);
    } else {
      var calls1 := calls + [pages[0]];
      var saved1 := if |calls| in fails then saved else saved + {PageKey(pages[0])};
      forall i, j | 0 <= i < j < |calls1| && PageKey(calls1[i]) == PageKey(calls1[j])
        ensures i in fails
      {
        if j == |calls| {
          assert PageKey(calls[i]) !in saved;
        }
      }
      assert SaveLedger(fails, saved1, calls1);
      if |calls| !in fails {
        SaveNewKeepsLedger(fails, pages[1..], saved1, calls1);
      }
    }
  }

  /** The pages of `pages` whose key is not in `saved`, in order. */
  function Unsaved(pages: seq<Page>, saved: set<string>): seq<Page> {
    if pages == [] then []
    else (if PageKey(pages[0]) in saved then [] else [pages[0]]) + Unsaved(pages[1..], saved)
  }

  /** The save on completion hands over, after `handed`, only pages of the answer whose key
      was not saved while waiting. */
  lemma {:induction false} SaveRemainingHandsUnsaved(fails: set<nat>, pages: seq<Page>, saved: set<string>, count: nat,
                                                     handed: seq<Page>)
    ensures var r := SaveRemaining(fails, pages, saved, count, handed);
      |handed| <= |r| && r[..|handed|] == handed
        && forall i :: |handed| <= i < |r| ==> r[i] in pages && PageKey(r[i]) !in saved
    decreases |pages|
  {
    if pages != [] {
      var r := SaveRemaining(fails, pages, saved, count, handed);
      if PageKey(pages[0]) in saved {
        SaveRemainingHandsUnsaved(fails, pages[1..], saved, count, handed);
        assert r == SaveRemaining(fails, pages[1..], saved, count, handed);
      } else if count + |handed| in fails {
        assert r == handed + [pages[0]];
      } else {
        var handed1 := handed + [pages[0]];
        SaveRemainingHandsUnsaved(fails, pages[1..], saved, count, handed1);
        assert r == SaveRemaining(fails, pages[1..], saved, count, handed1);
        assert r[..|handed1|] == handed1;
        assert r[..|handed|] == handed1[..|handed|] == handed;
      }
    }
  }

  /** When none of its saves raises, the save on completion hands over exactly the pages of
      the answer whose key was not saved while waiting, in order. */
  lemma {:induction false} SaveRemainingWithoutFailures(fails: set<nat>, pages: seq<Page>, saved: set<string>,
                                                        count: nat, handed: seq<Page>)
    requires forall k :: k in fails ==> k < count
    ensures SaveRemaining(fails, pages, saved, count, handed) == handed + Unsaved(pages, saved)
    decreases |pages|
  {
    if pages != [] {
      hide PageKey;
      var handed1 := if PageKey(pages[0]) in saved then handed else handed + [pages[0]];
      assert count + |handed| !in fails;
      assert SaveRemaining(fails, pages, saved, count, handed) == SaveRemaining(fails, pages[1..], saved, count, handed1);
      SaveRemainingWithoutFailures(fails, pages[1..], saved, count, handed1);
      assert Unsaved(pages, saved) == (if PageKey(pages[0]) in saved then [] else [pages[0]]) + Unsaved(pages[1..], saved);
      assert handed1 + Unsaved(pages[1..], saved) == handed + Unsaved(pages, saved);
    }
  }

  /** The wait for pages ends with an answer that has pages or with an exception of one
      of its own calls, and saves nothing. */
  lemma {:induction false} AwaitDataEnds(cfg: WaitConfig, st: Waiting, start: nat, budget: int)
    requires st.next <= |cfg.polls| && st.last.Some?
    ensures var t := AwaitData(cfg, st, start, budget);
      t.state.next <= |cfg.polls| && t.state.last.Some?
        && (t.Done? && t.outcome.Returned? ==> t.outcome.data.data != [] && Polled(cfg, t.state.next, Got(t.outcome.data)))
        && (t.Done? && t.outcome.Threw? ==> Polled(cfg, t.state.next, Raised(t.outcome.error)))
        && (t.Done? && t.outcome.OutOfScript? ==> t.state.next == |cfg.polls|)
    decreases |cfg.polls| - st.next
  {
    if InTime(cfg, st.clock) && st.clock - start < budget && st.next < |cfg.polls| {
      var poll := cfg.polls[st.next];
      var st1 := st.(next := st.next + 1, clock := st.clock + poll.elapsed);
      if poll.result.Got? && poll.result.value.data == [] && poll.result.value.status.GetOr("completed") == "completed" {
        AwaitDataEnds(cfg, st1.(last := Some(poll.result.value), clock := st1.clock + cfg.pollInterval), start, budget);
      }
    }
  }

  /** A "completed" answer without pages ends the wait only with a document that has pages
      or is that completed one, with an exception of a call, or at the end of the script. */
  lemma CompletedEmptyEnds(cfg: WaitConfig, st: Waiting)
    requires st.next <= |cfg.polls| && st.last.Some? && st.last.value.status == Some("completed")
    requires Polled(cfg, st.next, Got(st.last.value))
    ensures var t := CompletedEmpty(cfg, st);
      t.state.next <= |cfg.polls| && t.state.last.Some?
        && (t.Done? ==> Explained(cfg, t.outcome, t.state))
  {
    hide Expired;
    var st1 := st.(empty := st.empty + 1);
    if st1.empty == 1 {
      AwaitDataEnds(cfg, st1, st1.clock, DataWaitBudget(cfg, st1.clock));
    }
  }

  /** One pass of the main loop keeps `Between`, or ends the wait in an explained way with
      the ledger kept. */
  lemma MainTurnKeeps(cfg: WaitConfig, st: Waiting)
    requires Between(cfg, st) && st.next < |cfg.polls|
    ensures var t := MainTurn(cfg, st);
      (t.Continue? ==> Between(cfg, t.state))
        && (t.Done? ==> Explained(cfg, t.outcome, t.state) && SaveLedger(cfg.saveFails, t.state.saved, t.state.calls))
  {
    hide Expired, SaveRemaining;
    var poll := cfg.polls[st.next];
    var st1 := st.(next := st.next + 1, clock := st.clock + poll.elapsed);
    if poll.result.Got? {
      var sd := poll.result.value;
      assert Polled(cfg, st1.next, Got(sd));
      if sd.data != [] && cfg.saving {
        SaveNewKeepsLedger(cfg.saveFails, sd.data, st.saved, st.calls);
      }
      var st2 := Received(cfg, st1.(errors := 0, last := Some(sd)), sd);
      if sd.status == Some("completed") && sd.data == [] {
        CompletedEmptyEnds(cfg, st2);
      } else if sd.status == Some("failed") {
        assert FailedJob(cfg, st2.next, sd.error.GetOr("Unknown error"));
      }
    } else if !poll.result.error.ConnectionError? {
      assert Polled(cfg, st1.next, poll.result);
    }
  }

  /** The main loop from a state satisfying `Between` ends in an explained way, with the
      ledger kept. */
  lemma {:induction false} RunEnds(cfg: WaitConfig, st: Waiting)
    requires Between(cfg, st)
    ensures Explained(cfg, Run(cfg, st).0, Run(cfg, st).1)
    ensures SaveLedger(cfg.saveFails, Run(cfg, st).1.saved, Run(cfg, st).1.calls)
    decreases |cfg.polls| - st.next
  {
    hide MainTurn;
    if InTime(cfg, st.clock) && st.next < |cfg.polls| {
      MainTurnKeeps(cfg, st);
      if MainTurn(cfg, st).Continue? {
        RunEnds(cfg, MainTurn(cfg, st).state);
      }
    }
  }

  /** Every wait ends in one of the explained ways, and no page key is handed to the store
      twice while waiting unless its earlier save raised. */
  lemma WaitEnds(cfg: WaitConfig)
    ensures Explained(cfg, Run(cfg, Start).0, Run(cfg, Start).1)
    ensures RepeatsOnlyAfterFailure(cfg.saveFails, Run(cfg, Start).1.calls)
  {
    RunEnds(cfg, Start);
  }

  /** The controller gives up on the connection only after five status calls in a row
      failed to connect. */
  lemma PersistentNeedsFiveFailures(cfg: WaitConfig)
    requires StatusPolls(cfg)
    ensures Run(cfg, Start).0 == Threw(ConnectionError(PersistentDuringWait)) ==>
      FailuresBefore(cfg, Run(cfg, Start).1.next, MaxConnectionErrors)
  {
    WaitEnds(cfg);
    assert forall k :: 0 <= k < |cfg.polls| ==> cfg.polls[k].result != Raised(ConnectionError(PersistentDuringWait));
  }

  /** Without a time limit the wait never raises its timeout error, never reaches the
      closing "loop exited" error and never fails on an unbound `status_data`: it raises
      only a status call's own error, the persistent-connection error or the job's
      failure. */
  lemma NoLimitNeverExpires(cfg: WaitConfig)
    requires cfg.maxWait.None? && StatusPolls(cfg)
    ensures var o := Run(cfg, Start).0;
      o.Threw? ==>
        (StatusCallError(o.error) || o.error == ConnectionError(PersistentDuringWait)
         || (o.error.ApiError? && o.error.api.JobFailed?))
  {
    WaitEnds(cfg);
    var (o, f) := Run(cfg, Start);
    if o.Threw? && Polled(cfg, f.next, Raised(o.error)) {
      var k :| 0 <= k < f.next && k < |cfg.polls| && cfg.polls[k].result == Raised(o.error);
      assert StatusCallError(cfg.polls[k].result.error);
    }
  }

  /** Conversely, without a time limit, a run of connection failures long enough to reach
      five in a row makes the controller give up. */
  lemma {:induction false} FailuresGiveUp(cfg: WaitConfig, st: Waiting)
    requires cfg.maxWait.None? && st.errors < MaxConnectionErrors
    requires st.next + (MaxConnectionErrors - st.errors) <= |cfg.polls|
    requires forall k :: st.next <= k < st.next + (MaxConnectionErrors - st.errors) ==> ConnectionFailure(cfg.polls[k])
    ensures Run(cfg, st).0 == Threw(ConnectionError(PersistentDuringWait))
    decreases MaxConnectionErrors - st.errors
  {
    assert ConnectionFailure(cfg.polls[st.next]);
    if st.errors + 1 < MaxConnectionErrors {
      FailuresGiveUp(cfg, MainTurn(cfg, st).state);
    }
  }

  /** As written, a limit that is used up before the first status call makes the
      controller read the never-bound `status_data`, raising UnboundLocalError rather than
      its timeout error. */
  lemma UsedUpLimitUnbound(cfg: WaitConfig)
    requires cfg.maxWait.Some? && cfg.maxWait.value <= 0
    ensures Run(cfg, Start) == (Threw(BuiltinError("UnboundLocalError")), Start)
  {
  }
}
