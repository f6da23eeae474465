/** The renderer application's own scraping run: the URL queue shown on screen,
    the running and paused flags, the data manager that stores the results, and
    the loop that processes the queued URLs one by one.

    Time is not modelled. Every wait is recorded as an event of the run's trace:
    a `PauseTick` per 100 ms spent in the pause wait, a `RateWait` for the rate
    limit between URLs. The records found for the i-th URL come from the oracle
    `extract(i)`, which is `None` when processing that URL throws. The operator's
    buttons can only take effect while the run awaits; they come from a
    `timeline` of which one entry is consumed at each await point. */
module App {
  import opened Wrappers
  import opened Seqs
  import opened Records
  import opened DataStore
  import opened Ui

  /** What the operator did during one await: nothing, the Pause/Resume button, or Stop. */
  datatype Control = Idle | TogglePause | StopRun

  /** What the run shows: waits, `updateProgress(processed, total)` calls, and the
      reset done by `stopScraping` (the "Stopped" status and a zero progress bar). */
  datatype Event = PauseTick | RateWait(ms: int) | Progressed(current: nat, total: nat) | Reset

  datatype AppConfig = AppConfig(
    urls: seq<string>,
    rateLimit: int,
    extract: nat -> Option<seq<Contact>>,
    newId: nat -> (nat -> string),
    now: nat -> string,
    timeline: seq<Control>)

  /** The run between two steps: `i` URLs processed, `t` timeline entries consumed;
      `results` and `keys` are the data manager's results and key map. */
  datatype AppSnap = AppSnap(
    i: nat,
    running: bool,
    paused: bool,
    items: seq<QueueItem>,
    results: seq<Contact>,
    keys: set<string>,
    trace: seq<Event>,
    t: nat)

  /** `getQueuedUrls`: the text of every queue entry, empty ones included, in order. */
  function Urls(items: seq<QueueItem>): (r: seq<string>)
    ensures |r| == |items| && forall k :: 0 <= k < |items| ==> r[k] == items[k].url
  {
    seq(|items|, k requires 0 <= k < |items| => items[k].url)
  }

  /** The flags and trace after an operator action: `pauseScraping` flips the
      paused flag, `stopScraping` clears both flags and resets the display. */
  function Flip(e: Control, running: bool, paused: bool, trace: seq<Event>): (bool, bool, seq<Event>)
  {
    match e
    case Idle => (running, paused, trace)
    case TogglePause => (running, !paused, trace)
    case StopRun => (false, false, trace + [Reset])
  }

  /** One await point: the next timeline entry, if any, takes effect. */
  function Tick(c: AppConfig, s: AppSnap): (r: AppSnap)
    ensures r.i == s.i && r.items == s.items && r.results == s.results && r.keys == s.keys
    ensures s.t < |c.timeline| ==> r.t == s.t + 1
    ensures s.t >= |c.timeline| ==> r == s
    ensures !s.running ==> !r.running
  {
    if s.t < |c.timeline| then
      var (running, paused, trace) := Flip(c.timeline[s.t], s.running, s.paused, s.trace);
      s.(running := running, paused := paused, trace := trace, t := s.t + 1)
    else s
  }

  /** `processUrl` for the i-th URL followed by the progress report: the entry
      turns "processing", then "completed" with its records offered to the data
      manager one by one, or "error" when processing throws. */
  function Process(c: AppConfig, s: AppSnap): AppSnap
    requires s.i < |c.urls|
  {
    var url := c.urls[s.i];
    var busy := Restatus(s.items, url, "processing");
    var done := match c.extract(s.i)
      case None => s.(items := Restatus(busy, url, "error"))
      case Some(recs) =>
        s.(items := Restatus(busy, url, "completed"),
           results := s.results + StampAll(DedupFrom(recs, Key, s.keys), c.newId(s.i), c.now(s.i)),
           keys := s.keys + KeySet(recs, Key));
    done.(i := s.i + 1, trace := s.trace + [Progressed(s.i + 1, |c.urls|)])
  }

  /** The `for` loop of `processUrls` from snapshot `s` on: where it leaves the
      loop, and whether it is left waiting forever in the pause wait. */
  function Loop(c: AppConfig, s: AppSnap): (r: (AppSnap, bool))
    requires s.i <= |c.urls| && s.t <= |c.timeline|
    ensures r.0.i <= |c.urls| && r.0.t <= |c.timeline|
    decreases |c.urls| - s.i, |c.timeline| - s.t, 1
  {
    if !(s.i < |c.urls| && s.running) then (s, false)
    else Await(c, s)
  }

  /** One pass of the loop body once the `isRunning` check has passed: the pause
      wait (which looks at the paused flag only), the URL, then the rate-limit
      wait unless it was the last URL. */
  function Await(c: AppConfig, s: AppSnap): (r: (AppSnap, bool))
    requires s.i < |c.urls| && s.t <= |c.timeline|
    ensures r.0.i <= |c.urls| && r.0.t <= |c.timeline|
    decreases |c.urls| - s.i, |c.timeline| - s.t, 0
  {
    if s.paused then
      if s.t == |c.timeline| then (s, true)
      else Await(c, Tick(c, s.(trace := s.trace + [PauseTick])))
    else
      var p := Process(c, s);
      if p.i < |c.urls| then Loop(c, Tick(c, p.(trace := p.trace + [RateWait(c.rateLimit)])))
      else Loop(c, p)
  }

  /** Past the pause wait, one pass processes the URL and, unless it was the last,
      waits out the rate limit before the loop goes on. */
  lemma AwaitProceeds(c: AppConfig, s: AppSnap)
    requires s.i < |c.urls| && s.t <= |c.timeline| && !s.paused
    ensures var p := Process(c, s);
      p.i == s.i + 1 && p.t == s.t
      && Await(c, s) == if p.i < |c.urls| then Loop(c, Tick(c, p.(trace := p.trace + [RateWait(c.rateLimit)])))
                        else Loop(c, p)
  {
  }

  /** The snapshot right after `startScraping` sets its flags. */
  function Start(items: seq<QueueItem>, results: seq<Contact>, keys: set<string>): AppSnap
  {
    AppSnap(0, true, false, items, results, keys, [], 0)
  }

  /** `startScraping` past its guards: the loop, then `stopScraping`, which a run
      waiting forever never reaches. Once the run returns, both flags are clear
      and the display has been reset. */
  function Run(c: AppConfig, items: seq<QueueItem>, results: seq<Contact>, keys: set<string>): (r: (AppSnap, bool))
    ensures !r.1 ==> !r.0.running && !r.0.paused && |r.0.trace| > 0 && r.0.trace[|r.0.trace| - 1] == Reset
  {
    var (f, suspended) := Loop(c, Start(items, results, keys));
    if suspended then (f, true)
    else (f.(running := false, paused := false, trace := f.trace + [Reset]), false)
  }

  // ---------------------------------------------------------------- properties of a run

  /** The `updateProgress` calls of a trace, in order. */
  function Progresses(trace: seq<Event>): seq<Event>
  {
    if trace == [] then [] else (if trace[0].Progressed? then [trace[0]] else []) + Progresses(trace[1..])
  }

  lemma {:induction false} ProgressesAppend(a: seq<Event>, b: seq<Event>)
    ensures Progresses(a + b) == Progresses(a) + Progresses(b)
  {
    if a != [] {
      ProgressesAppend(a[1..], b);
      assert (a + b)[1..] == a[1..] + b;
    } else {
      assert a + b == b;
    }
  }

  /** The reports after the first n URLs of a queue of `total`. */
  function Reports(total: nat, n: nat): (r: seq<Event>)
    ensures |r| == n && forall k :: 0 <= k < n ==> r[k] == Progressed(k + 1, total)
  {
    seq(n, k requires 0 <= k < n => Progressed(k + 1, total))
  }

  /** Every rate-limit wait comes right after the report of a URL that was not the last. */
  predicate RateWaitsGuarded(trace: seq<Event>, total: nat)
  {
    forall p :: 0 <= p < |trace| && trace[p].RateWait? ==>
      p > 0 && trace[p - 1].Progressed? && trace[p - 1].total == total && trace[p - 1].current < total
  }

  /** What holds at every snapshot of a run over `c.urls`. */
  predicate Accounted(c: AppConfig, s: AppSnap)
  {
    && Progresses(s.trace) == Reports(|c.urls|, s.i)
    && RateWaitsGuarded(s.trace, |c.urls|)
    && Consistent(s.results, s.keys)
  }

  lemma NoReport(trace: seq<Event>, e: Event)
    requires !e.Progressed? && !e.RateWait?
    ensures Progresses(trace + [e]) == Progresses(trace)
    ensures forall total: nat :: RateWaitsGuarded(trace, total) ==> RateWaitsGuarded(trace + [e], total)
  {
    ProgressesAppend(trace, [e]);
    assert Progresses([e]) == [];
    forall total: nat | RateWaitsGuarded(trace, total) ensures RateWaitsGuarded(trace + [e], total) {
      forall p | 0 <= p < |trace + [e]| && (trace + [e])[p].RateWait?
        ensures p > 0 && (trace + [e])[p - 1].Progressed? && (trace + [e])[p - 1].total == total
          && (trace + [e])[p - 1].current < total
      {
        assert p < |trace| && (trace + [e])[p] == trace[p];
        assert (trace + [e])[p - 1] == trace[p - 1];
      }
    }
  }

  lemma TickAccounted(c: AppConfig, s: AppSnap)
    requires Accounted(c, s)
    ensures Accounted(c, Tick(c, s))
  {
    if s.t < |c.timeline| && c.timeline[s.t] == StopRun {
      NoReport(s.trace, Reset);
    }
  }

  lemma ProcessAccounted(c: AppConfig, s: AppSnap)
    requires s.i < |c.urls| && Accounted(c, s)
    ensures Accounted(c, Process(c, s))
  {
    var e := Progressed(s.i + 1, |c.urls|);
    ProgressesAppend(s.trace, [e]);
    assert Reports(|c.urls|, s.i) + [e] == Reports(|c.urls|, s.i + 1);
    var tr := s.trace + [e];
    forall p | 0 <= p < |tr| && tr[p].RateWait?
      ensures p > 0 && tr[p - 1].Progressed? && tr[p - 1].total == |c.urls| && tr[p - 1].current < |c.urls|
    {
      assert p < |s.trace| && tr[p] == s.trace[p] && tr[p - 1] == s.trace[p - 1];
    }
    if c.extract(s.i).Some? {
      AddAllConsistent(s.results, s.keys, c.extract(s.i).value, c.newId(s.i), c.now(s.i));
    }
  }

  /** The rate-limit wait after a URL that was not the last keeps the invariant. */
  lemma RateWaitAccounted(c: AppConfig, p: AppSnap)
    requires 0 < p.i < |c.urls| && Accounted(c, p)
    requires |p.trace| > 0 && p.trace[|p.trace| - 1] == Progressed(p.i, |c.urls|)
    ensures Accounted(c, p.(trace := p.trace + [RateWait(c.rateLimit)]))
  {
    var tr := p.trace + [RateWait(c.rateLimit)];
    ProgressesAppend(p.trace, [RateWait(c.rateLimit)]);
    assert Progresses([RateWait(c.rateLimit)]) == [];
    forall q | 0 <= q < |tr| && tr[q].RateWait?
      ensures q > 0 && tr[q - 1].Progressed? && tr[q - 1].total == |c.urls| && tr[q - 1].current < |c.urls|
    {
      if q < |p.trace| {
        assert tr[q] == p.trace[q] && tr[q - 1] == p.trace[q - 1];
      } else {
        assert tr[q - 1] == p.trace[|p.trace| - 1];
      }
    }
  }

  lemma {:induction false} LoopAccounted(c: AppConfig, s: AppSnap)
    requires s.i <= |c.urls| && s.t <= |c.timeline| && Accounted(c, s)
    ensures Accounted(c, Loop(c, s).0)
    decreases |c.urls| - s.i, |c.timeline| - s.t, 1
  {
    if s.i < |c.urls| && s.running {
      AwaitAccounted(c, s);
    }
  }

  lemma {:induction false} AwaitAccounted(c: AppConfig, s: AppSnap)
    requires s.i < |c.urls| && s.t <= |c.timeline| && Accounted(c, s)
    ensures Accounted(c, Await(c, s).0)
    decreases |c.urls| - s.i, |c.timeline| - s.t, 0
  {
    if s.paused {
      if s.t < |c.timeline| {
        NoReport(s.trace, PauseTick);
        TickAccounted(c, s.(trace := s.trace + [PauseTick]));
        AwaitAccounted(c, Tick(c, s.(trace := s.trace + [PauseTick])));
      }
    } else {
      ProcessAccounted(c, s);
      var p := Process(c, s);
      if p.i < |c.urls| {
        RateWaitAccounted(c, p);
        TickAccounted(c, p.(trace := p.trace + [RateWait(c.rateLimit)]));
        LoopAccounted(c, Tick(c, p.(trace := p.trace + [RateWait(c.rateLimit)])));
      } else {
        LoopAccounted(c, p);
      }
    }
  }

  /** Over a whole run: the n-th progress report says `(n, urls.length)`, one per
      processed URL in queue order; a rate-limit wait only ever follows the report
      of a URL that was not the last; and the data manager's results and key map
      stay consistent when they were so at the start. */
  lemma RunAccounted(c: AppConfig, items: seq<QueueItem>, results: seq<Contact>, keys: set<string>)
    requires Consistent(results, keys)
    ensures var (f, _) := Run(c, items, results, keys);
      && f.i <= |c.urls|
      && Progresses(f.trace) == Reports(|c.urls|, f.i)
      && RateWaitsGuarded(f.trace, |c.urls|)
      && Consistent(f.results, f.keys)
  {
    var s0 := Start(items, results, keys);
    assert Progresses([]) == [];
    assert Accounted(c, s0);
    LoopAccounted(c, s0);
    var (f, suspended) := Loop(c, s0);
    if !suspended {
      NoReport(f.trace, Reset);
    }
  }

  /** A stop pressed while the run is paused ends the pause wait without ending
      the pass: the URL at hand is still processed and reported, and only then
      does the loop leave. */
  lemma StopWhilePausedStillProcesses(c: AppConfig, s: AppSnap)
    requires s.i < |c.urls| && s.t < |c.timeline| && s.running && s.paused
    requires c.timeline[s.t] == StopRun
    ensures var (f, suspended) := Loop(c, s);
      && !suspended && f.i == s.i + 1 && !f.running
      && Progressed(s.i + 1, |c.urls|) in f.trace
  {
    var w := Tick(c, s.(trace := s.trace + [PauseTick]));
    assert !w.running && !w.paused;
    assert Loop(c, s) == Await(c, w);
    var p := Process(c, w);
    assert !p.running && p.i == s.i + 1;
    assert p.trace[|p.trace| - 1] == Progressed(s.i + 1, |c.urls|);
    if p.i < |c.urls| {
      var r := p.(trace := p.trace + [RateWait(c.rateLimit)]);
      var q := Tick(c, r);
      assert Await(c, w) == Loop(c, q);
      assert Loop(c, q) == (q, false);
      assert q.trace[..|r.trace|] == r.trace by {
        if p.t < |c.timeline| && c.timeline[p.t] == StopRun {
          assert q.trace == r.trace + [Reset];
        }
      }
      assert q.trace[|p.trace| - 1] == r.trace[|p.trace| - 1];
    } else {
      assert Await(c, w) == (p, false);
    }
  }

  /** The loop leaves before the end of the queue only because of a stop, and it
      waits forever only when paused with the timeline used up. */
  lemma {:induction false} LoopEndsEarlyOnlyOnStop(c: AppConfig, s: AppSnap)
    requires s.i <= |c.urls| && s.t <= |c.timeline|
    requires s.running || StopRun in c.timeline[..s.t]
    ensures var (f, suspended) := Loop(c, s);
      && (!suspended && f.i < |c.urls| ==> StopRun in c.timeline[..f.t])
      && (suspended ==> f.paused && f.t == |c.timeline|)
    decreases |c.urls| - s.i, |c.timeline| - s.t, 1
  {
    if s.i < |c.urls| && s.running {
      AwaitEndsEarlyOnlyOnStop(c, s);
    }
  }

  lemma {:induction false} AwaitEndsEarlyOnlyOnStop(c: AppConfig, s: AppSnap)
    requires s.i < |c.urls| && s.t <= |c.timeline|
    requires s.running || StopRun in c.timeline[..s.t]
    ensures var (f, suspended) := Await(c, s);
      && (!suspended && f.i < |c.urls| ==> StopRun in c.timeline[..f.t])
      && (suspended ==> f.paused && f.t == |c.timeline|)
    decreases |c.urls| - s.i, |c.timeline| - s.t, 0
  {
    if s.paused {
      if s.t < |c.timeline| {
        var w := Tick(c, s.(trace := s.trace + [PauseTick]));
        assert c.timeline[..w.t] == c.timeline[..s.t] + [c.timeline[s.t]];
        AwaitEndsEarlyOnlyOnStop(c, w);
      }
    } else {
      var p := Process(c, s);
      if p.i < |c.urls| {
        var q := Tick(c, p.(trace := p.trace + [RateWait(c.rateLimit)]));
        if s.t < |c.timeline| {
          assert c.timeline[..q.t] == c.timeline[..s.t] + [c.timeline[s.t]];
        }
        LoopEndsEarlyOnlyOnStop(c, q);
      } else {
        LoopEndsEarlyOnlyOnStop(c, p);
      }
    }
  }

  // ---------------------------------------------------------------- the object

  class ScholarScraperApp {
    var isRunning: bool
    var isPaused: bool
    var items: seq<QueueItem>
    const store: DataManager

    constructor()
      ensures !isRunning && !isPaused && items == [] && fresh(store)
      ensures store.results == [] && store.duplicateMap == {} && store.Valid()
    {
      isRunning := false;
      isPaused := false;
      items := [];
      store := new DataManager();
    }

    /** `pauseScraping`. */
    method PauseScraping()
      modifies this
      ensures isPaused == !old(isPaused) && isRunning == old(isRunning) && items == old(items)
    {
      isPaused := !isPaused;
    }

    /** `stopScraping`. */
    method StopScraping()
      modifies this
      ensures !isRunning && !isPaused && items == old(items)
    {
      isRunning := false;
      isPaused := false;
    }

    /** Carries out one operator action, recording the reset a stop shows. */
    method Handle(e: Control, trace: seq<Event>) returns (trace': seq<Event>)
      modifies this
      ensures (isRunning, isPaused, trace') == Flip(e, old(isRunning), old(isPaused), trace)
      ensures items == old(items)
    {
      trace' := trace;
      match e {
        case Idle =>
        case TogglePause => PauseScraping();
        case StopRun =>
          StopScraping();
          trace' := trace + [Reset];
      }
    }

    /** `updateUrlStatus(url, status)`: every queue entry whose text is `url` takes the status. */
    method UpdateUrlStatus(url: string, status: string)
      modifies this
      ensures items == Restatus(old(items), url, status)
      ensures isRunning == old(isRunning) && isPaused == old(isPaused)
    {
      for k := 0 to |items|
        invariant |items| == |old(items)|
        invariant forall j :: 0 <= j < k ==> items[j] == Restatus(old(items), url, status)[j]
        invariant forall j :: k <= j < |items| ==> items[j] == old(items)[j]
        invariant isRunning == old(isRunning) && isPaused == old(isPaused)
      {
        if items[k].url == url {
          items := items[k := items[k].(status := status)];
        }
      }
    }

    /** The run as a snapshot, given the loop's local state. */
    function Snap(i: nat, trace: seq<Event>, t: nat): AppSnap
      reads this, store
    {
      AppSnap(i, isRunning, isPaused, items, store.results, store.duplicateMap, trace, t)
    }

    /** `processUrl` for the i-th URL; the caller adds the progress report. */
    method ProcessUrl(c: AppConfig, i: nat, ghost trace: seq<Event>, ghost t: nat)
      requires i < |c.urls|
      modifies this, store
      ensures Process(c, old(Snap(i, trace, t))) == Snap(i + 1, trace + [Progressed(i + 1, |c.urls|)], t)
      ensures old(store.Valid()) ==> store.Valid()
    {
      var url := c.urls[i];
      UpdateUrlStatus(url, "processing");
      match c.extract(i) {
        case None =>
          UpdateUrlStatus(url, "error");
        case Some(recs) =>
          var added := store.AddResults(recs, c.newId(i), c.now(i));
          UpdateUrlStatus(url, "completed");
      }
    }

    /** The pause wait `while (isPaused) await sleep(100)` before the i-th URL. */
    method WaitWhilePaused(c: AppConfig, i: nat, trace: seq<Event>, t: nat) returns (trace': seq<Event>, t': nat, suspended: bool)
      requires i < |c.urls| && t <= |c.timeline|
      modifies this
      ensures items == old(items) && t' <= |c.timeline|
      ensures Await(c, Snap(i, trace', t')) == Await(c, old(Snap(i, trace, t)))
      ensures suspended ==> Await(c, Snap(i, trace', t')) == (Snap(i, trace', t'), true)
      ensures !suspended ==> !isPaused
    {
      trace', t' := trace, t;
      while isPaused
        invariant items == old(items) && t' <= |c.timeline|
        invariant Await(c, Snap(i, trace', t')) == Await(c, old(Snap(i, trace, t)))
        decreases |c.timeline| - t'
      {
        if t' == |c.timeline| {
          return trace', t', true;
        }
        ghost var waiting := Snap(i, trace' + [PauseTick], t');
        trace' := Handle(c.timeline[t'], trace' + [PauseTick]);
        t' := t' + 1;
        assert Snap(i, trace', t') == Tick(c, waiting);
      }
      suspended := false;
    }

    /** One pass of the `processUrls` loop body for the i-th URL: the pause wait,
        the URL and its progress report, then the rate-limit wait unless it was the
        last URL. */
    method Pass(c: AppConfig, i: nat, trace: seq<Event>, t: nat) returns (trace': seq<Event>, t': nat, suspended: bool)
      requires i < |c.urls| && t <= |c.timeline|
      modifies this, store
      ensures t' <= |c.timeline|
      ensures suspended ==> Await(c, old(Snap(i, trace, t))) == (Snap(i, trace', t'), true)
      ensures !suspended ==> Loop(c, Snap(i + 1, trace', t')) == Await(c, old(Snap(i, trace, t)))
      ensures old(store.Valid()) ==> store.Valid()
    {
      trace', t', suspended := WaitWhilePaused(c, i, trace, t);
      if suspended {
        return;
      }
      ghost var before := Snap(i, trace', t');
      AwaitProceeds(c, before);
      ProcessUrl(c, i, trace', t');
      trace' := trace' + [Progressed(i + 1, |c.urls|)];
      ghost var p := Process(c, before);
      assert Snap(i + 1, trace', t') == p;
      if i + 1 < |c.urls| {
        assert Snap(i + 1, trace' + [RateWait(c.rateLimit)], t') == p.(trace := p.trace + [RateWait(c.rateLimit)]);
        trace', t' := RateLimitWait(c, i + 1, trace', t');
      }
      assert Loop(c, Snap(i + 1, trace', t')) == Await(c, before);
    }

    /** The rate-limit wait before the i-th URL, during which one operator action
        may take effect. */
    method RateLimitWait(c: AppConfig, i: nat, trace: seq<Event>, t: nat) returns (trace': seq<Event>, t': nat)
      requires t <= |c.timeline|
      modifies this
      ensures Snap(i, trace', t') == Tick(c, old(Snap(i, trace + [RateWait(c.rateLimit)], t)))
    {
      trace', t' := trace + [RateWait(c.rateLimit)], t;
      if t' < |c.timeline| {
        trace' := Handle(c.timeline[t'], trace');
        t' := t' + 1;
      }
    }

    /** `startScraping` with the rate limit, the record oracle and the operator's
        timeline: a no-op while a run is active or when the queue is empty;
        otherwise the run of `processUrls` over the queued URLs. */
    method StartScraping(rateLimit: int, extract: nat -> Option<seq<Contact>>, newId: nat -> (nat -> string),
                         now: nat -> string, timeline: seq<Control>) returns (suspended: bool, trace: seq<Event>)
      modifies this, store
      ensures old(isRunning) || old(items) == [] ==>
        && !suspended && trace == []
        && isRunning == old(isRunning) && isPaused == old(isPaused) && items == old(items)
        && store.results == old(store.results) && store.duplicateMap == old(store.duplicateMap)
      ensures !old(isRunning) && old(items) != [] ==>
        var c := AppConfig(Urls(old(items)), rateLimit, extract, newId, now, timeline);
        var (f, out) := Run(c, old(items), old(store.results), old(store.duplicateMap));
        && suspended == out && trace == f.trace
        && isRunning == f.running && isPaused == f.paused && items == f.items
        && store.results == f.results && store.duplicateMap == f.keys
      ensures old(store.Valid()) ==> store.Valid()
    {
      if isRunning {
        return false, [];
      }
      var urls := Urls(items);
      if |urls| == 0 {
        return false, [];
      }
      var c := AppConfig(urls, rateLimit, extract, newId, now, timeline);
      isRunning := true;
      isPaused := false;
      var i: nat, t: nat;
      i, trace, t, suspended := ProcessUrls(c);
      if !suspended {
        StopScraping();
        trace := trace + [Reset];
      }
    }

    /** `processUrls`: the loop over the queued URLs, from a freshly started run. */
    method ProcessUrls(c: AppConfig) returns (i: nat, trace: seq<Event>, t: nat, suspended: bool)
      requires isRunning && !isPaused
      modifies this, store
      ensures Loop(c, old(Snap(0, [], 0))) == (Snap(i, trace, t), suspended)
      ensures old(store.Valid()) ==> store.Valid()
    {
      ghost var s0 := Snap(0, [], 0);
      trace := [];
      i := 0;
      t := 0;
      while i < |c.urls| && isRunning
        invariant i <= |c.urls| && t <= |c.timeline|
        invariant Loop(c, Snap(i, trace, t)) == Loop(c, s0)
        invariant old(store.Valid()) ==> store.Valid()
        decreases |c.urls| - i
      {
        assert Loop(c, Snap(i, trace, t)) == Await(c, Snap(i, trace, t));
        trace, t, suspended := Pass(c, i, trace, t);
        if suspended {
          return;
        }
        i := i + 1;
      }
      assert Loop(c, Snap(i, trace, t)) == (Snap(i, trace, t), false);
      suspended := false;
    }
  }
}
