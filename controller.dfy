/** The scrape controller: a cursor over a queue of URLs with running and paused
    flags, per-URL retries with capped exponential backoff, a rate-limit pause
    between URLs and counters of processed URLs, errors and emails found.

    Time is not modelled: every sleep is recorded as a `Sleep` event of the run's
    trace, and the page fetch is an oracle `fetch(i, k)` giving the outcome of the
    k-th attempt at the i-th URL. The operator's pause, resume and stop calls can
    only take effect while the run awaits; they come from a `timeline` of which one
    entry is consumed at each such point: after each URL, and at each 100 ms tick
    of the pause wait. */
module Controller {
  import opened Wrappers
  import opened Text
  import opened Records

  datatype Stats = Stats(processed: nat, errors: nat, emailsFound: nat)

  const NoStats: Stats := Stats(0, 0, 0)

  /** What the operator did while the run was waiting. */
  datatype Control = Quiet | PauseCmd | ResumeCmd | StopCmd

  /** The outcome of one `performScrape` call. */
  datatype Attempt = Fetched(records: seq<Contact>) | Failed(message: string)

  /** `scrapeUrl`: the first successful attempt's records, or the last error
      (`undefined`, that is None, when no attempt was made). */
  datatype Retried = Succeeded(records: seq<Contact>) | GaveUp(lastError: Option<string>)

  /** What the run does that the outside can see: callbacks and sleeps. */
  datatype Event =
    | Progress(current: nat, total: nat, url: string)
    | Sleep(ms: int)
    | Found(records: seq<Contact>)
    | Error(url: string, message: string)

  /** Finished normally; crashed on `error.message` of an undefined error; waiting
      forever in the pause loop; or refused because a run is active. */
  datatype Outcome = Finished | Crashed | Suspended | AlreadyRunning

  // ---------------------------------------------------------------- backoff

  function Pow2(n: nat): (r: nat)
    ensures r >= 1
  {
    if n == 0 then 1 else 2 * Pow2(n - 1)
  }

  /** `Math.min(1000 * Math.pow(2, attempt - 1), 10000)`. */
  function Backoff(attempt: int): int
    requires attempt >= 1
  {
    if 1000 * Pow2(attempt - 1) < 10000 then 1000 * Pow2(attempt - 1) else 10000
  }

  /** The delays after failed attempts 1 to n. */
  function Backoffs(n: nat): (r: seq<int>)
    ensures |r| == n && forall j :: 0 <= j < n ==> r[j] == Backoff(j + 1)
  {
    seq(n, j requires 0 <= j => Backoff(j + 1))
  }

  lemma {:induction false} Pow2Monotone(m: nat, n: nat)
    requires m <= n
    ensures Pow2(m) <= Pow2(n)
    decreases n
  {
    if m < n {
      Pow2Monotone(m, n - 1);
    }
  }

  /** The delay starts at one second, never decreases from one attempt to the
      next, never exceeds ten seconds and reaches the cap at the fifth attempt. */
  lemma BackoffBounds(k: int)
    requires k >= 1
    ensures 1000 <= Backoff(k) <= 10000
    ensures Backoff(k) <= Backoff(k + 1)
    ensures k >= 5 ==> Backoff(k) == 10000
    ensures Backoff(1) == 1000 && Backoff(2) == 2000 && Backoff(3) == 4000 && Backoff(4) == 8000
  {
    Pow2Monotone(k - 1, k);
    if k >= 5 {
      Pow2Monotone(4, k - 1);
    }
  }

  // ---------------------------------------------------------------- retries

  /** The retry loop from attempt `k` on, with the last error seen and the delays
      slept so far. */
  function RetryFrom(fetch: (nat, nat) -> Attempt, i: nat, k: int, maxRetries: int,
                     last: Option<string>, delays: seq<int>): (Retried, seq<int>)
    requires k >= 1
    decreases maxRetries - k + 1
  {
    if k > maxRetries then (GaveUp(last), delays)
    else match fetch(i, k)
      case Fetched(rs) => (Succeeded(rs), delays)
      case Failed(m) =>
        RetryFrom(fetch, i, k + 1, maxRetries, Some(m), if k < maxRetries then delays + [Backoff(k)] else delays)
  }

  /** `scrapeUrl(url, maxRetries)` for the i-th URL: its result and the delays it slept. */
  function Retry(fetch: (nat, nat) -> Attempt, i: nat, maxRetries: int): (Retried, seq<int>)
  {
    RetryFrom(fetch, i, 1, maxRetries, None, [])
  }

  lemma {:induction false} RetryFromCharacterised(fetch: (nat, nat) -> Attempt, i: nat, k: int, maxRetries: int,
                                                 last: Option<string>, delays: seq<int>)
    requires 1 <= k <= maxRetries
    requires delays == Backoffs(k - 1)
    requires forall j :: 1 <= j < k ==> fetch(i, j).Failed?
    ensures var (r, ds) := RetryFrom(fetch, i, k, maxRetries, last, delays);
      && (r.Succeeded? ==>
            exists n :: 1 <= n <= maxRetries && fetch(i, n) == Fetched(r.records)
              && (forall j :: 1 <= j < n ==> fetch(i, j).Failed?) && ds == Backoffs(n - 1))
      && (r.GaveUp? ==>
            (forall j :: 1 <= j <= maxRetries ==> fetch(i, j).Failed?)
              && r.lastError == Some(fetch(i, maxRetries).message) && ds == Backoffs(maxRetries - 1))
    decreases maxRetries - k
  {
    match fetch(i, k)
    case Fetched(rs) =>
    case Failed(m) =>
      if k < maxRetries {
        assert delays + [Backoff(k)] == Backoffs(k);
        RetryFromCharacterised(fetch, i, k + 1, maxRetries, Some(m), delays + [Backoff(k)]);
      }
  }

  /** `scrapeUrl` makes at most `maxRetries` attempts and returns the first success,
      having slept the backoff after each failed attempt but the last; when every
      attempt fails it gives up with the last error, and with none if no attempt was made. */
  lemma RetryCharacterised(fetch: (nat, nat) -> Attempt, i: nat, maxRetries: int)
    ensures var (r, ds) := Retry(fetch, i, maxRetries);
      && (r.Succeeded? ==>
            exists n :: 1 <= n <= maxRetries && fetch(i, n) == Fetched(r.records)
              && (forall j :: 1 <= j < n ==> fetch(i, j).Failed?) && ds == Backoffs(n - 1))
      && (r.GaveUp? ==> forall j :: 1 <= j <= maxRetries ==> fetch(i, j).Failed?)
      && (r.GaveUp? && maxRetries >= 1 ==> r.lastError == Some(fetch(i, maxRetries).message) && ds == Backoffs(maxRetries - 1))
      && (maxRetries < 1 ==> r == GaveUp(None) && ds == [])
  {
    if maxRetries >= 1 {
      RetryFromCharacterised(fetch, i, 1, maxRetries, None, []);
    }
  }

  // ---------------------------------------------------------------- the run

  datatype Config = Config(
    queue: seq<string>,
    rateLimit: int,
    maxRetries: int,
    fetch: (nat, nat) -> Attempt,
    timeline: seq<Control>)

  /** The run between two steps: `i` URLs dispatched, `t` timeline entries consumed. */
  datatype Snapshot = Snapshot(
    i: nat,
    running: bool,
    paused: bool,
    results: seq<Contact>,
    stats: Stats,
    trace: seq<Event>,
    t: nat)

  /** The flags after an operator call: `pause`, `resume` and `stop`. */
  function Apply(e: Control, running: bool, paused: bool): (bool, bool)
  {
    match e
    case Quiet => (running, paused)
    case PauseCmd => (running, true)
    case ResumeCmd => (running, false)
    case StopCmd => (false, false)
  }

  /** One waiting point: the next timeline entry, if any, takes effect. */
  function Poll(c: Config, s: Snapshot): (r: Snapshot)
    ensures r.i == s.i && r.results == s.results && r.stats == s.stats && r.trace == s.trace
    ensures s.t < |c.timeline| ==> r.t == s.t + 1
    ensures s.t >= |c.timeline| ==> r == s
  {
    if s.t < |c.timeline| then
      var (running, paused) := Apply(c.timeline[s.t], s.running, s.paused);
      s.(running := running, paused := paused, t := s.t + 1)
    else s
  }

  function Sleeps(ds: seq<int>): seq<Event>
  {
    seq(|ds|, k requires 0 <= k < |ds| => Sleep(ds[k]))
  }

  /** The records a URL adds to the results. */
  function Gained(r: Retried): seq<Contact>
  {
    if r.Succeeded? then r.records else []
  }

  /** The counters after a URL: a success adds one processed URL and its record
      count, a failure one error. */
  function Count(st: Stats, r: Retried): Stats
  {
    match r
    case Succeeded(rs) => st.(processed := st.processed + 1, emailsFound := st.emailsFound + |rs|)
    case GaveUp(_) => st.(errors := st.errors + 1)
  }

  /** What one pass of the loop body for the i-th URL shows: the progress report,
      the backoff sleeps, then `onResult` and the rate-limit sleep (skipped after
      the last URL), or `onError`, or nothing more when the pass crashes. */
  function Steps(c: Config, i: nat, r: Retried, ds: seq<int>): seq<Event>
    requires i < |c.queue|
  {
    [Progress(i + 1, |c.queue|, c.queue[i])] + Sleeps(ds) +
    match r
    case Succeeded(rs) => [Found(rs)] + (if i < |c.queue| - 1 then [Sleep(c.rateLimit)] else [])
    case GaveUp(None) => []
    case GaveUp(Some(m)) => [Error(c.queue[i], m)]
  }

  /** One pass of the loop body for URL `s.i`; the flag says the pass crashed. */
  function Dispatch(c: Config, s: Snapshot): (Snapshot, bool)
    requires s.i < |c.queue|
  {
    var (r, ds) := Retry(c.fetch, s.i, c.maxRetries);
    (s.(i := s.i + 1, results := s.results + Gained(r), stats := Count(s.stats, r),
        trace := s.trace + Steps(c, s.i, r, ds)),
     r == GaveUp(None))
  }

  /** The `for` loop of `startScraping` from snapshot `s` on: the snapshot where it
      leaves the loop, and how. */
  function Loop(c: Config, s: Snapshot): (r: (Snapshot, Outcome))
    requires s.i <= |c.queue| && s.t <= |c.timeline|
    ensures r.0.i <= |c.queue| && r.0.t <= |c.timeline|
    decreases |c.queue| - s.i, |c.timeline| - s.t
  {
    if !(s.i < |c.queue| && s.running) then (s, Finished)
    else if s.paused then
      if s.t == |c.timeline| then (s, Suspended)
      else Loop(c, Poll(c, s.(trace := s.trace + [Sleep(100)])))
    else
      var (d, crashed) := Dispatch(c, s);
      if crashed then (d, Crashed) else Loop(c, Poll(c, d))
  }

  /** The snapshot right after `startScraping` sets its flags: the queue is new and
      the counters are reset, but earlier results are kept. */
  function Start(previous: seq<Contact>): Snapshot
  {
    Snapshot(0, true, false, previous, NoStats, [], 0)
  }

  /** The whole call: the loop, then the `finally` block clearing both flags
      (which a run waiting forever never reaches). */
  function Run(c: Config, previous: seq<Contact>): (Snapshot, Outcome)
  {
    var (s, out) := Loop(c, Start(previous));
    if out == Suspended then (s, out) else (s.(running := false, paused := false), out)
  }

  // ---------------------------------------------------------------- trace views

  /** The `onProgress` calls of a trace, in order. */
  function Progresses(trace: seq<Event>): seq<Event>
  {
    if trace == [] then [] else (if trace[0].Progress? then [trace[0]] else []) + Progresses(trace[1..])
  }

  /** The records passed to `onResult`, concatenated in order. */
  function FoundRecords(trace: seq<Event>): seq<Contact>
  {
    if trace == [] then [] else (if trace[0].Found? then trace[0].records else []) + FoundRecords(trace[1..])
  }

  /** The number of `onResult` calls. */
  function FoundCount(trace: seq<Event>): nat
  {
    if trace == [] then 0 else (if trace[0].Found? then 1 else 0) + FoundCount(trace[1..])
  }

  lemma {:induction false} ViewsAppend(a: seq<Event>, b: seq<Event>)
    ensures Progresses(a + b) == Progresses(a) + Progresses(b)
    ensures FoundRecords(a + b) == FoundRecords(a) + FoundRecords(b)
    ensures FoundCount(a + b) == FoundCount(a) + FoundCount(b)
  {
    if a != [] {
      ViewsAppend(a[1..], b);
      assert (a + b)[1..] == a[1..] + b;
    } else {
      assert a + b == b;
    }
  }

  lemma {:induction false} SleepsAreQuiet(ds: seq<int>)
    ensures Progresses(Sleeps(ds)) == [] && FoundRecords(Sleeps(ds)) == [] && FoundCount(Sleeps(ds)) == 0
  {
    if ds != [] {
      SleepsAreQuiet(ds[1..]);
      assert Sleeps(ds)[1..] == Sleeps(ds[1..]);
    }
  }

  /** The progress reports of the first n URLs: the k-th reports `current = k`,
      `total` = the queue length and the k-th URL. */
  function Reports(queue: seq<string>, n: nat): (r: seq<Event>)
    requires n <= |queue|
    ensures |r| == n && forall k :: 0 <= k < n ==> r[k] == Progress(k + 1, |queue|, queue[k])
  {
    seq(n, k requires 0 <= k < n => Progress(k + 1, |queue|, queue[k]))
  }

  /** What holds at every snapshot of a run that started with `previous`. */
  predicate Accounted(c: Config, s: Snapshot, previous: seq<Contact>)
  {
    && s.i <= |c.queue|
    && Progresses(s.trace) == Reports(c.queue, s.i)
    && s.stats.processed + s.stats.errors == s.i
    && s.stats.processed == FoundCount(s.trace)
    && s.results == previous + FoundRecords(s.trace)
    && s.stats.emailsFound == |FoundRecords(s.trace)|
  }

  lemma StepsViews(c: Config, i: nat, r: Retried, ds: seq<int>)
    requires i < |c.queue|
    ensures var e := Steps(c, i, r, ds);
      Progresses(e) == [Progress(i + 1, |c.queue|, c.queue[i])]
      && FoundRecords(e) == Gained(r) && FoundCount(e) == (if r.Succeeded? then 1 else 0)
  {
    var p := [Progress(i + 1, |c.queue|, c.queue[i])];
    var tail := match r
      case Succeeded(rs) => [Found(rs)] + (if i < |c.queue| - 1 then [Sleep(c.rateLimit)] else [])
      case GaveUp(None) => []
      case GaveUp(Some(m)) => [Error(c.queue[i], m)];
    assert Steps(c, i, r, ds) == p + Sleeps(ds) + tail;
    SleepsAreQuiet(ds);
    ViewsAppend(p, Sleeps(ds));
    ViewsAppend(p + Sleeps(ds), tail);
    assert Progresses(p) == p && FoundRecords(p) == [] && FoundCount(p) == 0;
    if r.Succeeded? {
      var pause: seq<Event> := if i < |c.queue| - 1 then [Sleep(c.rateLimit)] else [];
      ViewsAppend([Found(r.records)], pause);
      assert Progresses([Found(r.records)]) == [] && FoundRecords([Found(r.records)]) == r.records;
      assert Progresses(pause) == [] && FoundRecords(pause) == [] && FoundCount(pause) == 0;
    }
  }

  lemma DispatchAccounted(c: Config, s: Snapshot, previous: seq<Contact>)
    requires s.i < |c.queue| && Accounted(c, s, previous)
    ensures Accounted(c, Dispatch(c, s).0, previous)
  {
    var (r, ds) := Retry(c.fetch, s.i, c.maxRetries);
    StepsViews(c, s.i, r, ds);
    ViewsAppend(s.trace, Steps(c, s.i, r, ds));
    assert Reports(c.queue, s.i) + [Progress(s.i + 1, |c.queue|, c.queue[s.i])] == Reports(c.queue, s.i + 1);
  }

  lemma {:induction false} LoopAccounted(c: Config, s: Snapshot, previous: seq<Contact>)
    requires s.t <= |c.timeline| && Accounted(c, s, previous)
    ensures Accounted(c, Loop(c, s).0, previous)
    decreases |c.queue| - s.i, |c.timeline| - s.t
  {
    if !(s.i < |c.queue| && s.running) {
    } else if s.paused {
      if s.t < |c.timeline| {
        var s' := s.(trace := s.trace + [Sleep(100)]);
        ViewsAppend(s.trace, [Sleep(100)]);
        assert Progresses([Sleep(100)]) == [] && FoundRecords([Sleep(100)]) == [];
        LoopAccounted(c, Poll(c, s'), previous);
      }
    } else {
      DispatchAccounted(c, s, previous);
      var (d, crashed) := Dispatch(c, s);
      if !crashed {
        LoopAccounted(c, Poll(c, d), previous);
      }
    }
  }

  /** Over a whole run: URLs are dispatched in queue order, the n-th progress report
      says `current = n` and `total` = the queue length, every dispatched URL counts
      once as processed or as an error, and the results are the earlier results
      followed by each success's records in order, counted in `emailsFound`. */
  lemma RunAccounted(c: Config, previous: seq<Contact>)
    ensures var (s, _) := Run(c, previous);
      && s.i <= |c.queue|
      && Progresses(s.trace) == Reports(c.queue, s.i)
      && s.stats.processed + s.stats.errors == s.i
      && s.stats.processed == FoundCount(s.trace)
      && s.results == previous + FoundRecords(s.trace)
      && s.stats.emailsFound == |s.results| - |previous|
  {
    assert Accounted(c, Start(previous), previous);
    LoopAccounted(c, Start(previous), previous);
  }

  /** After a URL the rate-limit pause is slept exactly when the URL succeeded and
      it was not the last one. */
  lemma RateLimitOnlyBetweenSuccesses(c: Config, s: Snapshot)
    requires s.i < |c.queue|
    ensures var (d, _) := Dispatch(c, s);
      var r := Retry(c.fetch, s.i, c.maxRetries).0;
      |d.trace| > |s.trace| && d.trace[..|s.trace|] == s.trace
      && (d.trace[|d.trace| - 1] == Sleep(c.rateLimit) <==> r.Succeeded? && s.i < |c.queue| - 1)
  {
    var (r, ds) := Retry(c.fetch, s.i, c.maxRetries);
    var e := Steps(c, s.i, r, ds);
    var d := Dispatch(c, s).0;
    assert d.trace == s.trace + e;
    assert d.trace[..|s.trace|] == s.trace;
    assert d.trace[|d.trace| - 1] == e[|e| - 1];
    var head := [Progress(s.i + 1, |c.queue|, c.queue[s.i])] + Sleeps(ds);
    match r
    case Succeeded(rs) =>
      if s.i < |c.queue| - 1 {
        assert e == head + [Found(rs), Sleep(c.rateLimit)];
      } else {
        assert e == head + [Found(rs)];
      }
    case GaveUp(None) =>
      assert e == head;
      if |ds| == 0 {
        assert e[|e| - 1] == Progress(s.i + 1, |c.queue|, c.queue[s.i]);
      } else {
        RetryCharacterised(c.fetch, s.i, c.maxRetries);
        assert false;
      }
    case GaveUp(Some(m)) =>
      assert e == head + [Error(c.queue[s.i], m)];
  }

  /** The loop stops early only because of a stop: if it finishes normally before
      the end of the queue, a `StopCmd` was among the consumed timeline entries. */
  lemma {:induction false} EarlyEndNeedsStop(c: Config, s: Snapshot)
    requires s.i <= |c.queue| && s.t <= |c.timeline|
    requires s.running || StopCmd in c.timeline[..s.t]
    ensures var (f, out) := Loop(c, s);
      f.t <= |c.timeline| && (out == Finished && f.i < |c.queue| ==> StopCmd in c.timeline[..f.t])
    decreases |c.queue| - s.i, |c.timeline| - s.t
  {
    if !(s.i < |c.queue| && s.running) {
    } else if s.paused {
      if s.t < |c.timeline| {
        var s' := s.(trace := s.trace + [Sleep(100)]);
        var p := Poll(c, s');
        assert c.timeline[..p.t] == c.timeline[..s.t] + [c.timeline[s.t]];
        EarlyEndNeedsStop(c, p);
      }
    } else {
      var (d, crashed) := Dispatch(c, s);
      if !crashed {
        var p := Poll(c, d);
        if s.t < |c.timeline| {
          assert c.timeline[..p.t] == c.timeline[..s.t] + [c.timeline[s.t]];
        }
        EarlyEndNeedsStop(c, p);
      }
    }
  }

  /** A run ends early only on a stop; a run that waits forever is paused and has
      used up the whole timeline. */
  lemma RunEndsEarlyOnlyOnStop(c: Config, previous: seq<Contact>)
    ensures var (f, out) := Run(c, previous);
      (out == Finished && f.i < |c.queue| ==> StopCmd in c.timeline[..f.t])
      && (out == Suspended ==> f.running && f.paused && f.t == |c.timeline|)
  {
    EarlyEndNeedsStop(c, Start(previous));
    LoopSuspended(c, Start(previous));
  }

  lemma {:induction false} LoopSuspended(c: Config, s: Snapshot)
    requires s.i <= |c.queue| && s.t <= |c.timeline|
    ensures var (f, out) := Loop(c, s); out == Suspended ==> f.running && f.paused && f.t == |c.timeline|
    decreases |c.queue| - s.i, |c.timeline| - s.t
  {
    if !(s.i < |c.queue| && s.running) {
    } else if s.paused {
      if s.t < |c.timeline| {
        LoopSuspended(c, Poll(c, s.(trace := s.trace + [Sleep(100)])));
      }
    } else {
      var (d, crashed) := Dispatch(c, s);
      if !crashed {
        LoopSuspended(c, Poll(c, d));
      }
    }
  }

  /** Once the run is stopped nothing more is dispatched: the loop leaves at once. */
  lemma StoppedLoopIsIdle(c: Config, s: Snapshot)
    requires s.i <= |c.queue| && s.t <= |c.timeline| && !s.running
    ensures Loop(c, s) == (s, Finished)
    ensures Progresses(Loop(c, s).0.trace) == Progresses(s.trace)
  {
  }

  // ---------------------------------------------------------------- journals

  /** The domain-to-journal table, in its listed order. */
  const JournalMap: seq<(string, string)> := [
    ("pubs.acs.org", "ACS Publications"),
    ("hindawi.com", "Hindawi"),
    ("researchsquare.com", "Research Square"),
    ("academic.oup.com", "Oxford Academic"),
    ("journals.sagepub.com", "SAGE Journals"),
    ("cureus.com", "Cureus"),
    ("onlinelibrary.wiley.com", "Wiley Online Library"),
    ("tandfonline.com", "Taylor & Francis"),
    ("link.springer.com", "Springer"),
    ("journals.plos.org", "PLOS ONE"),
    ("sciencedirect.com", "ScienceDirect")]

  /** The first entry from `k` on whose domain occurs in the URL. */
  function FirstJournal(url: string, entries: seq<(string, string)>, k: nat): (r: Option<nat>)
    requires k <= |entries|
    ensures r.Some? ==>
      (k <= r.value < |entries| && Contains(url, entries[r.value].0)
       && forall j :: k <= j < r.value ==> !Contains(url, entries[j].0))
    ensures r.None? ==> forall j :: k <= j < |entries| ==> !Contains(url, entries[j].0)
    decreases |entries| - k
  {
    if k == |entries| then None
    else if Contains(url, entries[k].0) then Some(k)
    else FirstJournal(url, entries, k + 1)
  }

  /** `extractJournalFromUrl`: the journal of the first listed domain that occurs in
      the URL, otherwise "Unknown Journal". */
  function JournalFromUrl(url: string): (journal: string)
    ensures (exists k :: 0 <= k < |JournalMap| && Contains(url, JournalMap[k].0)
               && (forall j :: 0 <= j < k ==> !Contains(url, JournalMap[j].0)) && journal == JournalMap[k].1)
      || ((forall k :: 0 <= k < |JournalMap| ==> !Contains(url, JournalMap[k].0)) && journal == "Unknown Journal")
  {
    match FirstJournal(url, JournalMap, 0)
    case Some(k) => JournalMap[k].1
    case None => "Unknown Journal"
  }

  // ---------------------------------------------------------------- the object

  class ScraperController {
    var isRunning: bool
    var isPaused: bool
    var queue: seq<string>
    var results: seq<Contact>
    var stats: Stats

    constructor()
      ensures !isRunning && !isPaused && queue == [] && results == [] && stats == NoStats
    {
      isRunning := false;
      isPaused := false;
      queue := [];
      results := [];
      stats := NoStats;
    }

    method Pause()
      modifies this
      ensures isPaused && isRunning == old(isRunning)
      ensures queue == old(queue) && results == old(results) && stats == old(stats)
    {
      isPaused := true;
    }

    method Resume()
      modifies this
      ensures !isPaused && isRunning == old(isRunning)
      ensures queue == old(queue) && results == old(results) && stats == old(stats)
    {
      isPaused := false;
    }

    method Stop()
      modifies this
      ensures !isRunning && !isPaused
      ensures queue == old(queue) && results == old(results) && stats == old(stats)
    {
      isRunning := false;
      isPaused := false;
    }

    method ClearResults()
      modifies this
      ensures results == [] && stats == NoStats
      ensures isRunning == old(isRunning) && isPaused == old(isPaused) && queue == old(queue)
    {
      results := [];
      stats := NoStats;
    }

    /** Carries out one operator call. */
    method Handle(e: Control)
      modifies this
      ensures (isRunning, isPaused) == Apply(e, old(isRunning), old(isPaused))
      ensures queue == old(queue) && results == old(results) && stats == old(stats)
    {
      match e
      case Quiet =>
      case PauseCmd => Pause();
      case ResumeCmd => Resume();
      case StopCmd => Stop();
    }

    /** `scrapeUrl` for the i-th URL: the retry loop, returning what it slept. */
    method ScrapeUrl(fetch: (nat, nat) -> Attempt, i: nat, maxRetries: int) returns (r: Retried, delays: seq<int>)
      ensures (r, delays) == Retry(fetch, i, maxRetries)
    {
      var last: Option<string> := None;
      delays := [];
      var attempt := 1;
      while attempt <= maxRetries
        invariant attempt >= 1
        invariant RetryFrom(fetch, i, attempt, maxRetries, last, delays) == Retry(fetch, i, maxRetries)
        decreases maxRetries - attempt + 1
      {
        match fetch(i, attempt) {
          case Fetched(rs) =>
            return Succeeded(rs), delays;
          case Failed(m) =>
            last := Some(m);
            if attempt < maxRetries {
              delays := delays + [Backoff(attempt)];
            }
        }
        attempt := attempt + 1;
      }
      return GaveUp(last), delays;
    }

    /** The run as a snapshot, given the loop's local state. */
    function Snap(i: nat, trace: seq<Event>, t: nat): Snapshot
      reads this
    {
      Snapshot(i, isRunning, isPaused, results, stats, trace, t)
    }

    /** The pause wait `while (isPaused && isRunning) await sleep(100)` before the i-th URL. */
    method WaitWhilePaused(c: Config, i: nat, trace: seq<Event>, t: nat) returns (trace': seq<Event>, t': nat, suspended: bool)
      requires c.queue == queue && i < |queue| && t <= |c.timeline|
      modifies this
      ensures queue == old(queue) && results == old(results) && stats == old(stats)
      ensures t' <= |c.timeline|
      ensures Loop(c, Snap(i, trace', t')) == Loop(c, old(Snap(i, trace, t)))
      ensures suspended ==> Loop(c, Snap(i, trace', t')) == (Snap(i, trace', t'), Suspended)
      ensures !suspended ==> !(isPaused && isRunning)
    {
      trace', t' := trace, t;
      while isPaused && isRunning
        invariant queue == old(queue) && results == old(results) && stats == old(stats) && t' <= |c.timeline|
        invariant Loop(c, Snap(i, trace', t')) == Loop(c, old(Snap(i, trace, t)))
        decreases |c.timeline| - t'
      {
        if t' == |c.timeline| {
          return trace', t', true;
        }
        ghost var waiting := Snap(i, trace' + [Sleep(100)], t');
        trace' := trace' + [Sleep(100)];
        Handle(c.timeline[t']);
        t' := t' + 1;
        assert Snap(i, trace', t') == Poll(c, waiting);
      }
      suspended := false;
    }

    /** One pass of the loop body for the i-th URL, with the run's settings in `c`. */
    method Pass(c: Config, i: nat, ghost t: nat, trace: seq<Event>) returns (trace': seq<Event>, crashed: bool)
      requires c.queue == queue && i < |queue|
      modifies this
      ensures queue == old(queue)
      ensures Dispatch(c, old(Snap(i, trace, t))) == (Snap(i + 1, trace', t), crashed)
    {
      var url := queue[i];
      trace' := trace + [Progress(i + 1, |queue|, url)];
      var r, delays := ScrapeUrl(c.fetch, i, c.maxRetries);
      trace' := trace' + Sleeps(delays);
      ghost var head := trace';
      ghost var tail: seq<Event>;
      crashed := false;
      match r {
        case Succeeded(rs) =>
          results := results + rs;
          stats := stats.(processed := stats.processed + 1, emailsFound := stats.emailsFound + |rs|);
          trace' := trace' + [Found(rs)];
          if i < |queue| - 1 {
            trace' := trace' + [Sleep(c.rateLimit)];
          }
          tail := [Found(rs)] + (if i < |c.queue| - 1 then [Sleep(c.rateLimit)] else []);
        case GaveUp(last) =>
          stats := stats.(errors := stats.errors + 1);
          if last.None? {
            crashed := true;
            tail := [];
          } else {
            trace' := trace' + [Error(url, last.value)];
            tail := [Error(url, last.value)];
          }
      }
      assert trace' == head + tail;
      assert Steps(c, i, r, delays) == [Progress(i + 1, |queue|, url)] + Sleeps(delays) + tail;
      assert trace' == trace + Steps(c, i, r, delays);
      assert results == old(results) + Gained(r) && stats == Count(old(stats), r);
      assert crashed == (r == GaveUp(None));
    }

    /** `startScraping(urls, { rateLimit, maxRetries })`. */
    method StartScraping(urls: seq<string>, rateLimit: int, maxRetries: int, fetch: (nat, nat) -> Attempt,
                         timeline: seq<Control>) returns (outcome: Outcome, trace: seq<Event>)
      modifies this
      ensures old(isRunning) ==>
        (outcome == AlreadyRunning && trace == [] && isRunning && isPaused == old(isPaused)
         && queue == old(queue) && results == old(results) && stats == old(stats))
      ensures !old(isRunning) ==>
        var (s, out) := Run(Config(urls, rateLimit, maxRetries, fetch, timeline), old(results));
        outcome == out && trace == s.trace && queue == urls
        && results == s.results && stats == s.stats && isRunning == s.running && isPaused == s.paused
    {
      if isRunning {
        return AlreadyRunning, [];
      }
      var c := Config(urls, rateLimit, maxRetries, fetch, timeline);
      ghost var previous := results;
      isRunning := true;
      isPaused := false;
      queue := urls;
      stats := NoStats;
      assert Snap(0, [], 0) == Start(previous);
      var i, t;
      i, trace, t, outcome := ProcessQueue(c);
      if outcome != Suspended {
        isRunning := false;
        isPaused := false;
      }
    }

    /** The `for` loop of `startScraping`, from the first URL until it is left. */
    method ProcessQueue(c: Config) returns (i: nat, trace: seq<Event>, t: nat, outcome: Outcome)
      requires c.queue == queue
      modifies this
      ensures queue == old(queue)
      ensures Loop(c, old(Snap(0, [], 0))) == (Snap(i, trace, t), outcome)
    {
      i, trace, t := 0, [], 0;
      while i < |queue| && isRunning
        invariant queue == c.queue && i <= |queue| && t <= |c.timeline|
        invariant Loop(c, Snap(i, trace, t)) == Loop(c, old(Snap(0, [], 0)))
        decreases |queue| - i
      {
        var stop;
        i, trace, t, stop, outcome := Turn(c, i, trace, t);
        if stop {
          return;
        }
      }
      outcome := Finished;
    }

    /** One pass of the loop body once the `isRunning` check has passed: the pause
        wait, the URL, then the operator's next action. `stop` says the loop is
        left, with `outcome`. */
    method Turn(c: Config, i: nat, trace: seq<Event>, t: nat)
      returns (i': nat, trace': seq<Event>, t': nat, stop: bool, outcome: Outcome)
      requires c.queue == queue && i < |queue| && t <= |c.timeline| && isRunning
      modifies this
      ensures queue == old(queue) && i' <= |queue| && t' <= |c.timeline|
      ensures stop ==> Loop(c, old(Snap(i, trace, t))) == (Snap(i', trace', t'), outcome)
      ensures !stop ==> i' == i + 1 && Loop(c, Snap(i', trace', t')) == Loop(c, old(Snap(i, trace, t)))
    {
      var suspended;
      trace', t', suspended := WaitWhilePaused(c, i, trace, t);
      if suspended {
        return i, trace', t', true, Suspended;
      }
      if !isRunning {
        return i, trace', t', true, Finished;
      }
      ghost var before := Snap(i, trace', t');
      var crashed;
      trace', crashed := Pass(c, i, t', trace');
      if crashed {
        return i + 1, trace', t', true, Crashed;
      }
      ghost var after := Snap(i + 1, trace', t');
      if t' < |c.timeline| {
        Handle(c.timeline[t']);
        t' := t' + 1;
      }
      i', stop, outcome := i + 1, false, Finished;
      assert Snap(i', trace', t') == Poll(c, after);
    }
  }
}
