/** LinkedInJobScraper: the object whose fields the scraper updates as it goes (rows, seen job
    ids, resume position, poison strikes), with the methods that drive a run. The browser is
    replaced by per-call scripts of oracle answers; the state file is the field `store`, which
    every save overwrites when the disk is writable; the exported workbook is the field
    `exported`. */
module Scraper {
  import opened Common
  import opened Paging
  import opened JobIds
  import opened Detectors
  import opened Navigation
  import opened Listing
  import opened Harvest
  import opened Orchestration

  /** Why the state was saved (the `reason` written into the state file). */
  datatype SaveReason =
    | SavedOnEnteringPage(page: int)
    | SavedAfterJob(jobId: string, page: int)
    | SavedWhenBlocked
    | SavedOnSessionRestart
    | SavedOnCompletion
    | SavedOnInterrupt
    | SavedOnRuntimeError
    | SavedOnTooManyRestarts
    | SavedOnUnexpectedError

  /** The resume state file's contents (its timestamp is not modelled). */
  datatype ResumeState = ResumeState(
    reason: SaveReason,
    lastPage: Option<int>,
    lastUrl: Option<string>,
    startPage: int,
    endPage: int,
    seen: set<string>,
    rowsCollected: nat)

  /** Everything the browser answers while one list page is scraped. */
  datatype PageWorld = PageWorld(
    nav: NavScript,                        // safe_get(page_url, post_wait_xpath=<job link>)
    afterGet: Signals,                     // guard_not_blocked after the navigation
    listVisible: bool,                     // _wait_for_list_page in scrape_page
    afterScroll: Signals,                  // guard_not_blocked after scrolling
    listReady: bool,                       // _wait_for_list_page in get_jobs_from_list_page
    anchors: seq<Anchor>,                  // the job anchors find_elements returns
    detail: JobListItem -> DetailScript)   // the answers while each job is fetched

  /** The list-page wait after the user presses ENTER at the login prompt. */
  datatype LoginWait =
    | ListSeen                                  // the applied-jobs list appeared
    | LoginInterrupted                          // Ctrl-C at the prompt
    | ListMissing(first: Signals, second: Signals) // timed out; the classifier is asked twice

  /** Everything the browser answers during one pass of the outer loop. */
  datatype Attempt = Attempt(
    driverStarts: bool,        // setup_driver
    loginNav: NavScript,       // safe_get(base_url) with no post-wait element
    login: LoginWait,
    healthNav: NavScript,      // safe_get(feed, post_wait_xpath="//body")
    healthSignals: Signals,    // is_blocked_or_checkpoint in profile_healthy
    pages: int -> PageWorld)

  /** The ids of a sequence of rows. */
  function RowIds(rows: seq<Row>): set<string>
  {
    set k | 0 <= k < |rows| :: rows[k].jobId
  }

  predicate DistinctIds(rows: seq<Row>)
  {
    forall k, l :: 0 <= k < l < |rows| ==> rows[k].jobId != rows[l].jobId
  }

  lemma RowIdsAppend(rows: seq<Row>, row: Row)
    ensures RowIds(rows + [row]) == RowIds(rows) + {row.jobId}
    ensures DistinctIds(rows) && row.jobId !in RowIds(rows) ==> DistinctIds(rows + [row])
  {
    var all := rows + [row];
    forall x | x in RowIds(all) ensures x in RowIds(rows) + {row.jobId} {
      var k :| 0 <= k < |all| && all[k].jobId == x;
      if k < |rows| { assert rows[k].jobId == x; }
    }
    forall x | x in RowIds(rows) + {row.jobId} ensures x in RowIds(all) {
      if x == row.jobId {
        assert all[|rows|].jobId == x;
      } else {
        var k :| 0 <= k < |rows| && rows[k].jobId == x;
        assert all[k].jobId == x;
      }
    }
  }

  /** The outcome of one job's detail fetch on a page. */
  function Fetcher(w: PageWorld): JobListItem -> DetailOutcome
  {
    job => FetchDetail(job, w.detail(job))
  }

  /** `fetch` gives, for each job, the outcome of scrape_job_details over the page's answers. */
  ghost predicate Fetches(w: PageWorld, fetch: JobListItem -> DetailOutcome)
  {
    forall j {:trigger FetchDetail(j, w.detail(j))} :: fetch(j) == FetchDetail(j, w.detail(j))
  }

  lemma FetcherFetches(w: PageWorld)
    ensures Fetches(w, Fetcher(w))
  {
  }

  /** For each job, the checkpoint page a guard sees while its details are fetched, if one fires. */
  function Blocker(w: PageWorld): JobListItem -> Option<Signals>
  {
    job => DetailBlock(job, w.detail(job))
  }

  /** `block` gives, for each job, the checkpoint page a guard sees while its details are fetched. */
  ghost predicate Blocks(w: PageWorld, block: JobListItem -> Option<Signals>)
  {
    forall j {:trigger DetailBlock(j, w.detail(j))} :: block(j) == DetailBlock(j, w.detail(j))
  }

  lemma BlockerBlocks(w: PageWorld)
    ensures Blocks(w, Blocker(w))
  {
  }

  /** What scraping one list page does, apart from the saves and exports along the way. */
  datatype PageOutcome = PageOutcome(entered: bool, listed: bool, items: seq<JobListItem>, rows: seq<Row>, fault: Option<Fault>)

  /** scrape_page after the page has loaded, as a function of the page's answers, of the seen
      set before it and of the outcome of each job's detail fetch. */
  function ListPageSpec(p: int, w: PageWorld, seen: set<string>, fetch: JobListItem -> DetailOutcome): (r: PageOutcome)
    ensures r.entered
    ensures r.listed ==> !IsBlockedOrCheckpoint(w.afterGet) && !IsBlockedOrCheckpoint(w.afterScroll)
    ensures r.listed <==> (&& r.items == Gate(w.anchors, seen).items && w.listVisible && w.listReady
                           && !IsBlockedOrCheckpoint(w.afterGet) && !IsBlockedOrCheckpoint(w.afterScroll))
    ensures !r.listed ==> r.items == [] && r.rows == []
    ensures forall k :: 0 <= k < |r.rows| ==> r.rows[k].page == Some(p)
    ensures IsBlockedOrCheckpoint(w.afterGet) ==> r.fault == Some(Checkpoint)
    // The second guard_not_blocked, after the scroll, stops the page with a checkpoint too.
    ensures !IsBlockedOrCheckpoint(w.afterGet) && w.listVisible && IsBlockedOrCheckpoint(w.afterScroll)
            ==> r.fault == Some(Checkpoint) && r.rows == []
    ensures (&& w.listVisible && !w.listReady
             && !IsBlockedOrCheckpoint(w.afterGet) && !IsBlockedOrCheckpoint(w.afterScroll))
            ==> r.fault == Some(UnexpectedError)
    // A page whose list never shows up is skipped without an error.
    ensures !IsBlockedOrCheckpoint(w.afterGet) && !w.listVisible ==> r.fault.None? && r.rows == []
    // Only a KeyboardInterrupt inside the job loop ends a listed page with an error.
    ensures r.listed ==> (r.fault.Some? <==> r.fault == Some(KeyboardInterrupt))
  {
    if IsBlockedOrCheckpoint(w.afterGet) then PageOutcome(true, false, [], [], Some(Checkpoint))
    else if !w.listVisible then PageOutcome(true, false, [], [], None)
    else if IsBlockedOrCheckpoint(w.afterScroll) then PageOutcome(true, false, [], [], Some(Checkpoint))
    else if !w.listReady then PageOutcome(true, false, [], [], Some(UnexpectedError))
    else
      var items := Gate(w.anchors, seen).items;
      var h := HarvestJobs(items, fetch, p);
      PageOutcome(true, true, items, h.rows, if h.interrupted then Some(KeyboardInterrupt) else None)
  }

  /** The last address recorded by scrape_page once the page has loaded, starting from
      `prior`: a guard that fires records the checkpoint page's address; the job loop records
      each job's as HarvestTrail says. */
  function ListPageTrail(p: int, w: PageWorld, seen: set<string>, fetch: JobListItem -> DetailOutcome,
                         prior: Option<string>): Option<string>
  {
    if IsBlockedOrCheckpoint(w.afterGet) then w.afterGet.url
    else if !w.listVisible then prior
    else if IsBlockedOrCheckpoint(w.afterScroll) then w.afterScroll.url
    else if !w.listReady then prior
    else HarvestTrail(Gate(w.anchors, seen).items, Blocker(w), fetch, p, prior)
  }

  /** The workbook scrape_page leaves once the page has loaded, given the rows `base` before it
      and the workbook `prior`: a guard that fires saves the rows so far, the job loop saves as
      HarvestExported says, and a page whose loop ends without an interrupt is saved at its
      end. save_to_excel writes nothing when there are no rows. */
  function ListPageExport(p: int, w: PageWorld, seen: set<string>, fetch: JobListItem -> DetailOutcome,
                          base: seq<Row>, prior: seq<Row>): seq<Row>
  {
    var saved := if base != [] then base else prior;
    if IsBlockedOrCheckpoint(w.afterGet) then saved
    else if !w.listVisible then prior
    else if IsBlockedOrCheckpoint(w.afterScroll) then saved
    else if !w.listReady then prior
    else
      var items := Gate(w.anchors, seen).items;
      var h := HarvestJobs(items, fetch, p);
      var inLoop := HarvestExported(items, Blocker(w), fetch, p, base, prior);
      if h.interrupted then inLoop
      else if base + h.rows != [] then base + h.rows
      else inLoop
  }

  /** The workbook after a page is the one before it or a non-empty prefix of the rows; a page
      listed without error leaves every row saved. */
  lemma ListPageExportShape(p: int, w: PageWorld, seen: set<string>, fetch: JobListItem -> DetailOutcome,
                            base: seq<Row>, prior: seq<Row>)
    ensures var e := ListPageExport(p, w, seen, fetch, base, prior);
      var all := base + ListPageSpec(p, w, seen, fetch).rows;
      && (e == prior || (e != [] && e <= all))
      && (ListPageSpec(p, w, seen, fetch).listed && ListPageSpec(p, w, seen, fetch).fault.None? ==>
            e == if all != [] then all else prior)
  {
    var spec := ListPageSpec(p, w, seen, fetch);
    if spec.listed {
      var items := Gate(w.anchors, seen).items;
      HarvestExportedIsSnapshot(items, Blocker(w), fetch, p, base, prior);
      if !HarvestJobs(items, fetch, p).interrupted && base + HarvestJobs(items, fetch, p).rows == [] {
        HarvestExportedEmpty(items, Blocker(w), fetch, p, prior);
      }
    }
  }

  /** scrape_page: a navigation that fails ends the page before it is entered. */
  function ScrapePageSpec(p: int, w: PageWorld, seen: set<string>, fetch: JobListItem -> DetailOutcome): (r: PageOutcome)
    ensures r.entered <==> Navigate(w.nav, true).outcome == Loaded
    ensures !r.entered ==> r.rows == [] && r.fault == Some(Navigate(w.nav, true).outcome.fault)
  {
    match Navigate(w.nav, true).outcome
    case NavFault(f) => PageOutcome(false, false, [], [], Some(f))
    case Loaded => ListPageSpec(p, w, seen, fetch)
  }

  /** What the page loop has done so far: the rows added, the seen set, and the error that
      ended it, if any. */
  datatype Sweep = Sweep(rows: seq<Row>, seen: set<string>, fault: Option<Fault>)

  /** For each page, the outcome of each job's detail fetch. */
  type Fetchers = int -> JobListItem -> DetailOutcome

  /** `fetches` gives, for every page, the outcome of scrape_job_details over that page's
      answers. */
  ghost predicate FetchesAll(pages: int -> PageWorld, fetches: Fetchers)
  {
    forall p :: Fetches(pages(p), fetches(p))
  }

  /** The fetches of every page, computed from its answers. */
  function PageFetchers(pages: int -> PageWorld): Fetchers
  {
    p => Fetcher(pages(p))
  }

  lemma PageFetchersFetch(pages: int -> PageWorld)
    ensures FetchesAll(pages, PageFetchers(pages))
  {
    forall p ensures Fetches(pages(p), PageFetchers(pages)(p)) {
      FetcherFetches(pages(p));
    }
  }

  /** One pass of run's page loop after `prev`: scrape_page on page p, each job's detail fetch
      ending as `fetches(p)` says; nothing happens once a page has raised. */
  function SweepNext(prev: Sweep, p: int, pages: int -> PageWorld, fetches: Fetchers): (r: Sweep)
    ensures prev.fault.Some? ==> r == prev
    ensures prev.rows <= r.rows
    ensures forall k :: |prev.rows| <= k < |r.rows| ==> r.rows[k].page == Some(p)
  {
    if prev.fault.Some? then prev
    else
      var o := ScrapePageSpec(p, pages(p), prev.seen, fetches(p));
      Sweep(prev.rows + o.rows, if o.listed then Gate(pages(p).anchors, prev.seen).seen else prev.seen, o.fault)
  }

  /** run's page loop over the pages in `visit`, in order, each page scraped with the seen
      set the pages before it left; a page that raises ends the loop, and the pages after it
      are not scraped. */
  function SweepPages(visit: seq<int>, pages: int -> PageWorld, fetches: Fetchers, seen: set<string>): Sweep
    decreases |visit|
  {
    if visit == [] then Sweep([], seen, None)
    else SweepNext(SweepPages(visit[..|visit| - 1], pages, fetches, seen), visit[|visit| - 1], pages, fetches)
  }

  /** scrape_page records a page as entered exactly when its navigation loads. */
  predicate Enters(w: PageWorld)
  {
    Navigate(w.nav, true).outcome == Loaded
  }

  /** The page last recorded as entered once the pages in `visit` have been scraped, starting
      from `prior`: each page whose navigation loaded is recorded on entry. */
  function LastEntered(visit: seq<int>, pages: int -> PageWorld, prior: Option<int>): Option<int>
    decreases |visit|
  {
    if visit == [] then prior
    else
      var p := visit[|visit| - 1];
      if Enters(pages(p)) then Some(p)
      else LastEntered(visit[..|visit| - 1], pages, prior)
  }

  /** The page recorded is the prior one when no visited page loaded, and otherwise a visited
      page that loaded. */
  lemma {:induction false} LastEnteredIsLoaded(visit: seq<int>, pages: int -> PageWorld, prior: Option<int>)
    ensures (forall k :: 0 <= k < |visit| ==> !Enters(pages(visit[k]))) ==> LastEntered(visit, pages, prior) == prior
    ensures (exists k :: 0 <= k < |visit| && Enters(pages(visit[k]))) ==>
      var r := LastEntered(visit, pages, prior);
      r.Some? && r.value in visit && Enters(pages(r.value))
    decreases |visit|
  {
    if visit != [] {
      var init, p := visit[..|visit| - 1], visit[|visit| - 1];
      LastEnteredIsLoaded(init, pages, prior);
      if !Enters(pages(p)) {
        assert forall k :: 0 <= k < |init| ==> init[k] == visit[k];
        if k :| 0 <= k < |visit| && Enters(pages(visit[k])) {
          assert k < |init|;
          assert init <= visit;
        }
      }
    }
  }

  /** One more page: the loop's step. */
  lemma SweepStep(visit: seq<int>, p: int, pages: int -> PageWorld, fetches: Fetchers, seen: set<string>)
    ensures SweepPages(visit + [p], pages, fetches, seen) == SweepNext(SweepPages(visit, pages, fetches, seen), p, pages, fetches)
  {
    assert (visit + [p])[..|visit + [p]| - 1] == visit;
  }

  /** Once a page has raised, the pages listed after it change nothing. */
  lemma {:induction false} SweepStopsAtFault(visit: seq<int>, more: seq<int>, pages: int -> PageWorld, fetches: Fetchers, seen: set<string>)
    requires SweepPages(visit, pages, fetches, seen).fault.Some?
    ensures SweepPages(visit + more, pages, fetches, seen) == SweepPages(visit, pages, fetches, seen)
    decreases |more|
  {
    if more == [] {
      assert visit + more == visit;
    } else {
      var init, last := more[..|more| - 1], more[|more| - 1];
      SweepStopsAtFault(visit, init, pages, fetches, seen);
      AppendSplitLast(visit, more);
      SweepStep(visit + init, last, pages, fetches, seen);
    }
  }

  /** The loop over a range stops where the loop over its prefix raised. */
  lemma SweepRangeStops(range: seq<int>, visited: seq<int>, pages: int -> PageWorld, fetches: Fetchers, seen: set<string>)
    requires |visited| <= |range| && visited == range[..|visited|]
    requires SweepPages(visited, pages, fetches, seen).fault.Some?
    ensures SweepPages(range, pages, fetches, seen) == SweepPages(visited, pages, fetches, seen)
  {
    SweepStopsAtFault(visited, range[|visited|..], pages, fetches, seen);
    assert visited + range[|visited|..] == range;
  }

  /** A pass over page p, after passes that raised nothing, adds what scrape_page does on p. */
  lemma SweepAdvance(visit: seq<int>, p: int, pages: int -> PageWorld, fetches: Fetchers, seen: set<string>, w: PageWorld, o: PageOutcome)
    requires w == pages(p) && SweepPages(visit, pages, fetches, seen).fault.None?
    requires o == ScrapePageSpec(p, w, SweepPages(visit, pages, fetches, seen).seen, fetches(p))
    ensures var prev := SweepPages(visit, pages, fetches, seen);
      SweepPages(visit + [p], pages, fetches, seen)
        == Sweep(prev.rows + o.rows, if o.listed then Gate(w.anchors, prev.seen).seen else prev.seen, o.fault)
  {
    SweepStep(visit, p, pages, fetches, seen);
  }

  /** Every row the loop adds carries the number of a visited page, and when the pages go
      down, so do the page numbers of the rows. */
  lemma {:induction false} SweepTagged(visit: seq<int>, pages: int -> PageWorld, fetches: Fetchers, seen: set<string>)
    ensures forall k :: 0 <= k < |SweepPages(visit, pages, fetches, seen).rows| ==>
      SweepPages(visit, pages, fetches, seen).rows[k].page.Some? && SweepPages(visit, pages, fetches, seen).rows[k].page.value in visit
    ensures (forall i, j :: 0 <= i < j < |visit| ==> visit[i] > visit[j]) ==>
      forall k, l :: 0 <= k < l < |SweepPages(visit, pages, fetches, seen).rows| ==>
        SweepPages(visit, pages, fetches, seen).rows[k].page.value >= SweepPages(visit, pages, fetches, seen).rows[l].page.value
    decreases |visit|
  {
    if visit != [] {
      var init, p := visit[..|visit| - 1], visit[|visit| - 1];
      SweepTagged(init, pages, fetches, seen);
      var prev, r := SweepPages(init, pages, fetches, seen), SweepPages(visit, pages, fetches, seen);
      forall k | 0 <= k < |r.rows| ensures r.rows[k].page.Some? && r.rows[k].page.value in visit {
        if k < |prev.rows| {
          assert r.rows[k] == prev.rows[k];
          assert prev.rows[k].page.value in init;
        } else {
          assert r.rows[k].page == Some(p);
        }
      }
      if forall i, j :: 0 <= i < j < |visit| ==> visit[i] > visit[j] {
        assert forall i, j :: 0 <= i < j < |init| ==> init[i] > init[j] by {
          forall i, j | 0 <= i < j < |init| ensures init[i] > init[j] { assert init[i] == visit[i] && init[j] == visit[j]; }
        }
        forall k, l | 0 <= k < l < |r.rows| ensures r.rows[k].page.value >= r.rows[l].page.value {
          if l >= |prev.rows| {
            if k < |prev.rows| {
              var i :| 0 <= i < |init| && init[i] == prev.rows[k].page.value;
              assert visit[i] > visit[|visit| - 1];
            }
          } else {
            assert r.rows[k] == prev.rows[k] && r.rows[l] == prev.rows[l];
          }
        }
      }
    }
  }

  /** What an attempt's result says about the answers it was given: a driver that does not
      start is an unexpected error, a failed login ends the attempt with its exception, and
      after a good login the attempt fails its health check exactly when the profile is
      unhealthy. */
  predicate Fits(att: Attempt, res: AttemptResult)
  {
    && (!att.driverStarts ==> res == FailedBeforeHealth(UnexpectedError))
    && (att.driverStarts && LoginFault(att.loginNav, att.login).Some? ==>
          res == FailedBeforeHealth(LoginFault(att.loginNav, att.login).value))
    && (att.driverStarts && LoginFault(att.loginNav, att.login).None? ==>
          (res == HealthFailed <==> !Healthy(att)))
    // After a healthy start the attempt ends in the page loop: completed, or failed there.
    && (att.driverStarts && LoginFault(att.loginNav, att.login).None? && Healthy(att) ==>
          res == Succeeded || res.FailedAfterHealth?)
  }

  /** Every result in the trace fits the answers of its attempt, attempt k being the k-th. */
  predicate TraceFits(attempts: nat -> Attempt, trace: seq<AttemptResult>)
    decreases |trace|
  {
    trace != [] ==> TraceFits(attempts, trace[..|trace| - 1]) && Fits(attempts(|trace| - 1), trace[|trace| - 1])
  }

  lemma {:induction false} TraceFitsEach(attempts: nat -> Attempt, trace: seq<AttemptResult>)
    requires TraceFits(attempts, trace)
    ensures forall k :: 0 <= k < |trace| ==> Fits(attempts(k), trace[k])
    decreases |trace|
  {
    if trace != [] {
      var init := trace[..|trace| - 1];
      TraceFitsEach(attempts, init);
      forall k | 0 <= k < |trace| ensures Fits(attempts(k), trace[k]) {
        if k < |init| {
          assert trace[k] == init[k] && Fits(attempts(k), init[k]);
        } else {
          assert k == |trace| - 1 && Fits(attempts(|trace| - 1), trace[|trace| - 1]);
        }
      }
    }
  }

  /** The next attempt's result joins the trace. */
  lemma TraceFitsAppend(attempts: nat -> Attempt, trace: seq<AttemptResult>, res: AttemptResult)
    requires TraceFits(attempts, trace) && Fits(attempts(|trace|), res)
    ensures TraceFits(attempts, trace + [res])
  {
    assert (trace + [res])[..|trace|] == trace;
  }

  /** manual_login, as the exception it ends with (None when the login is confirmed, or when
      the list is missing on a page that stops looking like a checkpoint by the time
      guard_not_blocked asks again). */
  function LoginFault(nav: NavScript, login: LoginWait): (r: Option<Fault>)
    ensures Navigate(nav, false).outcome.NavFault? ==> r == Some(Navigate(nav, false).outcome.fault)
    ensures r == Some(KeyboardInterrupt) <==> Navigate(nav, false).outcome == Loaded && login == LoginInterrupted
    ensures r == Some(Checkpoint) <==>
      Navigate(nav, false).outcome == Loaded && login.ListMissing?
      && IsBlockedOrCheckpoint(login.first) && IsBlockedOrCheckpoint(login.second)
    // A missing list on a page that is not a checkpoint is not handled: the timeout escapes.
    ensures Navigate(nav, false).outcome == Loaded && login.ListMissing? && !IsBlockedOrCheckpoint(login.first)
            ==> r == Some(UnexpectedError)
    ensures login == ListSeen ==> (r.None? <==> Navigate(nav, false).outcome == Loaded)
  {
    match Navigate(nav, false).outcome
    case NavFault(f) => Some(f)
    case Loaded =>
      match login
      case ListSeen => None
      case LoginInterrupted => Some(KeyboardInterrupt)
      case ListMissing(first, second) =>
        if !IsBlockedOrCheckpoint(first) then Some(UnexpectedError)
        else if IsBlockedOrCheckpoint(second) then Some(Checkpoint)
        else None
  }

  /** profile_healthy: the feed loads (any exception counts as unhealthy) and is not a
      checkpoint. */
  predicate Healthy(att: Attempt)
  {
    Navigate(att.healthNav, true).outcome == Loaded && !IsBlockedOrCheckpoint(att.healthSignals)
  }

  /** The ledger after one more job of scrape_page's loop: the row FetchJob appended is the
      harvest's next row, the loop stops exactly at a KeyboardInterrupt, and the ids of the
      jobs still to come stay out of the ledger. */
  lemma HarvestLedgerAppend(items: seq<JobListItem>, i: nat, fetch: JobListItem -> DetailOutcome, p: int,
                            base: seq<Row>, before: seq<Row>, after: seq<Row>, outcome: DetailOutcome, writable: bool)
    requires i < |items|
    requires forall k, l :: 0 <= k < l < |items| ==> items[k].jobId != items[l].jobId
    requires before == base + HarvestJobs(items[..i], fetch, p).rows
    requires !HarvestJobs(items[..i], fetch, p).interrupted
    requires writable ==> forall k :: i <= k < |items| ==> items[k].jobId !in RowIds(before)
    requires outcome == fetch(items[i])
    requires outcome.Fetched? ==> outcome.row.jobId == items[i].jobId
    requires after == before + if outcome.Fetched? then [outcome.row.(page := Some(p))] else []
    ensures after == base + HarvestJobs(items[..i + 1], fetch, p).rows
    ensures (outcome == DetailFailed(KeyboardInterrupt)) == HarvestJobs(items[..i + 1], fetch, p).interrupted
    ensures writable ==> forall k :: i + 1 <= k < |items| ==> items[k].jobId !in RowIds(after)
  {
    assert items[..i + 1] == items[..i] + [items[i]];
    HarvestStep(items[..i], items[i], fetch, p);
    if outcome.Fetched? {
      RowIdsAppend(before, outcome.row.(page := Some(p)));
    }
  }

  class Scraper {
    const startPage: int
    const endPage: int
    /** Whether writes of the state file succeed. */
    const diskWritable: bool

    var data: seq<Row>
    var seenJobIds: set<string>
    var lastPage: Option<int>
    var lastUrl: Option<string>
    var profilePoisonStrikes: nat
    var driverOpen: bool
    /** How many times the profile folder has been deleted. */
    var profileResets: nat
    /** The state file on disk, if there is one. */
    var store: Option<ResumeState>
    /** The rows in the exported workbook. */
    var exported: seq<Row>
    /** Every list page scrape_page has been called on, in order. */
    ghost var scraped: seq<int>

    /** No job is collected twice, and every collected job is in the seen set. This holds
        while state writes succeed: load_state replaces the seen set by the saved one, which
        is stale when the writes fail. */
    ghost predicate Collected()
      reads this`data, this`seenJobIds
    {
      diskWritable ==> DistinctIds(data) && RowIds(data) <= seenJobIds
    }

    /** Collected, and every collected job is in the saved seen set too, so reloading the state
        never lets a collected job through the gate again. */
    ghost predicate Consistent()
      reads this`data, this`seenJobIds, this`store
    {
      && Collected()
      && (diskWritable && data != [] ==> store.Some? && RowIds(data) <= store.value.seen)
    }

    /** The record save_state writes. */
    function Snapshot(reason: SaveReason): (s: ResumeState)
      reads this`lastPage, this`lastUrl, this`seenJobIds, this`data
      ensures s.reason == reason && s.seen == seenJobIds && s.lastPage == lastPage && s.lastUrl == lastUrl
      ensures s.rowsCollected == |data|
    {
      ResumeState(reason, lastPage, lastUrl, startPage, endPage, seenJobIds, |data|)
    }

    /** __init__: nothing collected, nothing seen, no resume position; the state file is
        whatever an earlier run left. */
    constructor(startPage: int, endPage: int, diskWritable: bool, store: Option<ResumeState>)
      ensures this.startPage == startPage && this.endPage == endPage && this.diskWritable == diskWritable
      ensures data == [] && seenJobIds == {} && lastPage.None? && lastUrl.None?
      ensures profilePoisonStrikes == 0 && !driverOpen && profileResets == 0
      ensures this.store == store && exported == [] && scraped == []
      ensures Consistent()
    {
      this.startPage := startPage;
      this.endPage := endPage;
      this.diskWritable := diskWritable;
      data := [];
      seenJobIds := {};
      lastPage := None;
      lastUrl := None;
      profilePoisonStrikes := 0;
      driverOpen := false;
      profileResets := 0;
      this.store := store;
      exported := [];
      scraped := [];
    }

    /** save_state: overwrite the state file; a failed write is only reported. */
    method SaveState(reason: SaveReason)
      requires Collected()
      modifies this`store
      ensures store == if diskWritable then Some(Snapshot(reason)) else old(store)
      ensures Consistent()
    {
      if diskWritable {
        store := Some(Snapshot(reason));
      }
    }

    /** load_state: with a state file, restore the resume position and replace the seen set. */
    method LoadState() returns (loaded: bool)
      requires Consistent()
      modifies this`lastPage, this`lastUrl, this`seenJobIds
      ensures loaded == old(store).Some?
      ensures loaded ==> lastPage == store.value.lastPage && lastUrl == store.value.lastUrl && seenJobIds == store.value.seen
      ensures !loaded ==> lastPage == old(lastPage) && lastUrl == old(lastUrl) && seenJobIds == old(seenJobIds)
      ensures Consistent()
    {
      if store.None? {
        return false;
      }
      lastPage := store.value.lastPage;
      lastUrl := store.value.lastUrl;
      seenJobIds := store.value.seen;
      return true;
    }

    /** save_to_excel: with no rows nothing is written. */
    method SaveToExcel()
      modifies this`exported
      ensures exported == if data != [] then data else old(exported)
    {
      if data != [] {
        exported := data;
      }
    }

    /** guard_not_blocked: on a checkpoint page, record the address, save the workbook and the
        state, and report the block (the source raises RuntimeError). */
    method GuardNotBlocked(s: Signals) returns (blocked: bool)
      requires Consistent()
      modifies this`lastUrl, this`store, this`exported
      ensures blocked == IsBlockedOrCheckpoint(s)
      ensures !blocked ==> lastUrl == old(lastUrl) && store == old(store) && exported == old(exported)
      ensures blocked ==> lastUrl == s.url && exported == (if data != [] then data else old(exported))
      ensures blocked ==> store == if diskWritable then Some(Snapshot(SavedWhenBlocked)) else old(store)
      ensures store == old(store) || store == Some(Snapshot(SavedWhenBlocked))
      ensures Consistent()
    {
      blocked := IsBlockedOrCheckpoint(s);
      if !blocked {
        return;
      }
      lastUrl := s.url;
      SaveToExcel();
      SaveState(SavedWhenBlocked);
    }

    /** get_jobs_from_list_page after the list wait: the gate over the anchors, adding each
        accepted id to the seen set as it goes. */
    method GetJobsFromListPage(anchors: seq<Anchor>) returns (items: seq<JobListItem>)
      modifies this`seenJobIds
      ensures items == Gate(anchors, old(seenJobIds)).items
      ensures seenJobIds == Gate(anchors, old(seenJobIds)).seen
    {
      items := [];
      var i := 0;
      while i < |anchors|
        invariant 0 <= i <= |anchors|
        invariant Listed(items, seenJobIds) == Gate(anchors[..i], old(seenJobIds))
      {
        GateStep(anchors, i, old(seenJobIds));
        var a := anchors[i];
        match a.href {
          case Raised =>
          case Answered(href) =>
            if href.Some? && href.value != [] {
              var url := href.value;
              var jobId := ExtractJobId(url);
              if jobId != UnknownId && jobId !in seenJobIds {
                match a.hints {
                  case Raised =>
                  case Answered(h) =>
                    items := items + [JobListItem(url, h.role, h.company, h.applied, jobId)];
                    seenJobIds := seenJobIds + {jobId};
                }
              }
            }
        }
        i := i + 1;
      }
      assert anchors[..i] == anchors;
    }

    /** save_as_pdf: the checkpoint guard runs first; any failure (a checkpoint included) ends
        in no PDF. */
    method SaveAsPdf(d: DetailScript, company: string, role: string, month: string, jobId: string)
      returns (pdf: Option<PdfRef>)
      requires Consistent()
      modifies this`lastUrl, this`store, this`exported
      ensures pdf.Some? <==> !IsBlockedOrCheckpoint(d.pdfSignals) && d.printed
      ensures pdf.Some? ==> pdf.value == PdfRef(month, Export.PdfFileName(company, role, jobId))
      ensures !IsBlockedOrCheckpoint(d.pdfSignals) ==> lastUrl == old(lastUrl) && store == old(store) && exported == old(exported)
      // A checkpoint records its address and saves the workbook and the state.
      ensures IsBlockedOrCheckpoint(d.pdfSignals) ==>
        && lastUrl == d.pdfSignals.url && exported == (if data != [] then data else old(exported))
        && store == (if diskWritable then Some(Snapshot(SavedWhenBlocked)) else old(store))
      ensures store == old(store) || store == Some(Snapshot(SavedWhenBlocked))
      ensures Consistent()
    {
      var blocked := GuardNotBlocked(d.pdfSignals);
      if blocked || !d.printed {
        return None;
      }
      return Some(PdfRef(month, Export.PdfFileName(company, role, jobId)));
    }

    /** scrape_job_details. */
    method ScrapeJobDetails(job: JobListItem, d: DetailScript) returns (outcome: DetailOutcome)
      requires Consistent()
      modifies this`lastUrl, this`store, this`exported
      ensures outcome == FetchDetail(job, d)
      ensures outcome.Fetched? ==> outcome.row.jobId == job.jobId
      // Nothing is recorded unless a guard fires; the one that fires records its address and
      // saves the workbook and the state.
      ensures DetailBlock(job, d).None? ==> lastUrl == old(lastUrl) && store == old(store) && exported == old(exported)
      ensures DetailBlock(job, d).Some? ==>
        && lastUrl == DetailBlock(job, d).value.url && exported == (if data != [] then data else old(exported))
        && store == (if diskWritable then Some(Snapshot(SavedWhenBlocked)) else old(store))
      ensures store == old(store) || store == Some(Snapshot(SavedWhenBlocked))
      ensures Consistent()
    {
      var nav, _ := SafeGet(d.nav, true);
      if nav.NavFault? {
        return DetailFailed(nav.fault);
      }
      var blocked := GuardNotBlocked(d.signals);
      if blocked {
        return DetailFailed(Checkpoint);
      }
      match d.extraction
      case ReadFailed(f) =>
        return DetailFailed(f);
      case Read(page) =>
        var role := if page.title.Some? then page.title.value else OrElse(job.roleHint, UnknownRole);
        var company := if page.company.Some? && page.company.value != [] then page.company.value else OrElse(job.companyHint, UnknownCompany);
        var appliedText := AppliedText(job, page);
        var parsed := AppliedDate.ParseApplicationDate(appliedText);
        var date := if parsed.Some? then d.calendar(parsed.value).date else appliedText;
        var description := OrElse(page.description, NoDescription);
        var pdf: Option<PdfRef> := None;
        if parsed.Some? {
          pdf := SaveAsPdf(d, company, role, d.calendar(parsed.value).month, job.jobId);
        }
        return Fetched(Row(company, role, date, Export.Summary(description), description, job.url, job.jobId, None, pdf));
    }

    /** One pass of scrape_page's job loop: fetch the job's details; on success append its
        row, tagged with the page, remember its address and save. `fetch` stands for
        FetchDetail over the page's answers. */
    method FetchJob(p: int, w: PageWorld, job: JobListItem, ghost fetch: JobListItem -> DetailOutcome)
      returns (outcome: DetailOutcome)
      requires Fetches(w, fetch)
      requires Consistent()
      requires job.jobId in seenJobIds
      requires diskWritable ==> job.jobId !in RowIds(data)
      modifies this`data, this`lastUrl, this`store, this`exported
      ensures outcome == fetch(job)
      ensures outcome.Fetched? ==> outcome.row.jobId == job.jobId
      ensures data == old(data) + if outcome.Fetched? then [outcome.row.(page := Some(p))] else []
      ensures lastUrl == JobTrail(job, outcome, DetailBlock(job, w.detail(job)), old(lastUrl))
      ensures exported == if DetailBlock(job, w.detail(job)).Some? && old(data) != [] then old(data) else old(exported)
      ensures store == old(store) || (store.Some? && store.value.lastPage == lastPage)
      ensures diskWritable && outcome.Fetched? ==> store.Some? && store.value.lastPage == lastPage
      // A fetched job is saved to the state file with its address and the new row count; a job
      // that is not fetched leaves the file alone unless a guard saves the blocked state.
      ensures outcome.Fetched? ==> store == if diskWritable then Some(Snapshot(SavedAfterJob(job.jobId, p))) else old(store)
      ensures outcome.Fetched? ==> lastUrl == Some(job.url)
      ensures !outcome.Fetched? ==> store == old(store) || store == Some(Snapshot(SavedWhenBlocked))
      ensures Consistent()
    {
      outcome := ScrapeJobDetails(job, w.detail(job));
      if outcome.Fetched? {
        RecordRow(outcome.row.(page := Some(p)), job.url, p);
      }
    }

    /** After a job's details are fetched: append its row, remember its address, save. */
    method RecordRow(row: Row, url: string, p: int)
      requires Consistent()
      requires row.jobId in seenJobIds
      requires diskWritable ==> row.jobId !in RowIds(data)
      modifies this`data, this`lastUrl, this`store
      ensures data == old(data) + [row] && lastUrl == Some(url)
      ensures store == if diskWritable then Some(Snapshot(SavedAfterJob(row.jobId, p))) else old(store)
      ensures Consistent()
    {
      RowIdsAppend(data, row);
      data := data + [row];
      lastUrl := Some(url);
      SaveState(SavedAfterJob(row.jobId, p));
    }

    /** One pass of scrape_page's per-job loop, on the job at index i: the rows become those of
        the first i + 1 jobs, and `stop` is whether the job was interrupted. */
    method HarvestNext(p: int, w: PageWorld, items: seq<JobListItem>, i: nat,
                       ghost fetch: JobListItem -> DetailOutcome, ghost block: JobListItem -> Option<Signals>, ghost base: seq<Row>)
      returns (stop: bool)
      requires Fetches(w, fetch) && Blocks(w, block)
      requires Consistent()
      requires i < |items|
      requires forall k, l :: 0 <= k < l < |items| ==> items[k].jobId != items[l].jobId
      requires forall k :: 0 <= k < |items| ==> items[k].jobId in seenJobIds
      requires data == base + HarvestJobs(items[..i], fetch, p).rows
      requires !HarvestJobs(items[..i], fetch, p).interrupted
      requires diskWritable ==> forall k :: i <= k < |items| ==> items[k].jobId !in RowIds(data)
      modifies this`data, this`lastUrl, this`store, this`exported
      ensures data == base + HarvestJobs(items[..i + 1], fetch, p).rows
      ensures stop == HarvestJobs(items[..i + 1], fetch, p).interrupted
      ensures lastUrl == JobTrail(items[i], fetch(items[i]), block(items[i]), old(lastUrl))
      ensures exported == if block(items[i]).Some? && old(data) != [] then old(data) else old(exported)
      ensures diskWritable ==> forall k :: i + 1 <= k < |items| ==> items[k].jobId !in RowIds(data)
      ensures store == old(store) || (store.Some? && store.value.lastPage == lastPage)
      ensures fetch(items[i]).Fetched? ==>
        store == if diskWritable then Some(Snapshot(SavedAfterJob(items[i].jobId, p))) else old(store)
      ensures fetch(items[i]).Fetched? ==> lastUrl == Some(items[i].url)
      ensures !fetch(items[i]).Fetched? ==> store == old(store) || store == Some(Snapshot(SavedWhenBlocked))
      ensures Consistent()
    {
      ghost var before := data;
      var outcome := FetchJob(p, w, items[i], fetch);
      HarvestLedgerAppend(items, i, fetch, p, base, before, data, outcome, diskWritable);
      stop := outcome == DetailFailed(KeyboardInterrupt);
    }

    /** The per-job loop of scrape_page: append each fetched row, tagged with the page, and
        save the state after it; skip failures; stop at a KeyboardInterrupt. */
    method HarvestPage(p: int, w: PageWorld, items: seq<JobListItem>, ghost fetch: JobListItem -> DetailOutcome,
                       ghost block: JobListItem -> Option<Signals>)
      returns (interrupted: bool)
      requires Fetches(w, fetch) && Blocks(w, block)
      requires Consistent()
      requires forall k, l :: 0 <= k < l < |items| ==> items[k].jobId != items[l].jobId
      requires forall k :: 0 <= k < |items| ==> items[k].jobId in seenJobIds
      requires diskWritable ==> forall k :: 0 <= k < |items| ==> items[k].jobId !in RowIds(data)
      modifies this`data, this`lastUrl, this`store, this`exported
      ensures data == old(data) + HarvestJobs(items, fetch, p).rows
      ensures interrupted == HarvestJobs(items, fetch, p).interrupted
      ensures lastUrl == HarvestTrail(items, block, fetch, p, old(lastUrl))
      ensures exported == HarvestExported(items, block, fetch, p, old(data), old(exported))
      ensures store == old(store) || (store.Some? && store.value.lastPage == lastPage)
      ensures Consistent()
    {
      var i := 0;
      interrupted := false;
      while i < |items| && !interrupted
        invariant 0 <= i <= |items|
        invariant data == old(data) + HarvestJobs(items[..i], fetch, p).rows
        invariant interrupted == HarvestJobs(items[..i], fetch, p).interrupted
        invariant lastUrl == HarvestTrail(items[..i], block, fetch, p, old(lastUrl))
        invariant exported == HarvestExported(items[..i], block, fetch, p, old(data), old(exported))
        invariant diskWritable ==> forall k :: i <= k < |items| ==> items[k].jobId !in RowIds(data)
        invariant store == old(store) || (store.Some? && store.value.lastPage == lastPage)
        invariant Consistent()
      {
        HarvestLedgerNext(items, i, block, fetch, p, old(lastUrl), old(data), old(exported));
        interrupted := HarvestNext(p, w, items, i, fetch, block, old(data));
        i := i + 1;
      }
      if interrupted {
        HarvestCutShort(items, i, block, fetch, p, old(lastUrl), old(data), old(exported));
      } else {
        assert items[..i] == items;
      }
    }

    /** scrape_page. */
    method ScrapePage(p: int, w: PageWorld, ghost fetch: JobListItem -> DetailOutcome) returns (fault: Option<Fault>)
      requires Fetches(w, fetch)
      requires Consistent()
      modifies this`data, this`seenJobIds, this`lastPage, this`lastUrl, this`store, this`exported, this`scraped
      ensures scraped == old(scraped) + [p]
      ensures var spec := ScrapePageSpec(p, w, old(seenJobIds), fetch);
        && data == old(data) + spec.rows
        && fault == spec.fault
        && seenJobIds == (if spec.listed then Gate(w.anchors, old(seenJobIds)).seen else old(seenJobIds))
        && lastPage == (if spec.entered then Some(p) else old(lastPage))
        && (spec.entered && diskWritable ==> store.Some? && store.value.lastPage == Some(p))
      // Entering the page records its address; the rest follows scrape_page's saves.
      ensures Navigate(w.nav, true).outcome == Loaded ==>
        && lastUrl == ListPageTrail(p, w, old(seenJobIds), fetch, Some(PageUrl(p)))
        && exported == ListPageExport(p, w, old(seenJobIds), fetch, old(data), old(exported))
      ensures Navigate(w.nav, true).outcome != Loaded ==>
        lastUrl == old(lastUrl) && exported == old(exported) && store == old(store)
      // The workbook is the one before the page or a non-empty prefix of the rows, and a page
      // listed without error ends with every row saved (line 972).
      ensures exported == old(exported) || (exported != [] && exported <= data)
      ensures var spec := ScrapePageSpec(p, w, old(seenJobIds), fetch);
        spec.listed && spec.fault.None? ==> exported == if data != [] then data else old(exported)
      ensures forall k :: |old(data)| <= k < |data| ==> data[k].page == Some(p)
      ensures Consistent()
    {
      ghost var seen0 := seenJobIds;
      scraped := scraped + [p];
      var nav, _ := SafeGet(w.nav, true);
      if nav.NavFault? {
        fault := Some(nav.fault);
      } else {
        fault := EnterPage(p, w, fetch);
        assert ScrapePageSpec(p, w, seen0, fetch) == ListPageSpec(p, w, seen0, fetch);
      }
    }

    /** scrape_page once the page has loaded: record the page and its address, save the
        state, then read the list and run the job loop. */
    method EnterPage(p: int, w: PageWorld, ghost fetch: JobListItem -> DetailOutcome) returns (fault: Option<Fault>)
      requires Fetches(w, fetch)
      requires Consistent()
      modifies this`data, this`seenJobIds, this`lastPage, this`lastUrl, this`store, this`exported
      ensures var spec := ListPageSpec(p, w, old(seenJobIds), fetch);
        && data == old(data) + spec.rows
        && fault == spec.fault
        && seenJobIds == (if spec.listed then Gate(w.anchors, old(seenJobIds)).seen else old(seenJobIds))
        && lastPage == Some(p)
        && (diskWritable ==> store.Some? && store.value.lastPage == Some(p))
        && lastUrl == ListPageTrail(p, w, old(seenJobIds), fetch, Some(PageUrl(p)))
        && exported == ListPageExport(p, w, old(seenJobIds), fetch, old(data), old(exported))
      ensures exported == old(exported) || (exported != [] && exported <= data)
      ensures var spec := ListPageSpec(p, w, old(seenJobIds), fetch);
        spec.listed && spec.fault.None? ==> exported == if data != [] then data else old(exported)
      ensures Consistent()
    {
      ListPageExportShape(p, w, old(seenJobIds), fetch, old(data), old(exported));
      lastPage := Some(p);
      lastUrl := Some(PageUrl(p));
      SaveState(SavedOnEnteringPage(p));
      fault := ListPage(p, w, fetch);
    }

    /** scrape_page once the page has loaded and the state records it. */
    method ListPage(p: int, w: PageWorld, ghost fetch: JobListItem -> DetailOutcome) returns (fault: Option<Fault>)
      requires Fetches(w, fetch)
      requires Consistent()
      requires lastPage == Some(p) && (diskWritable ==> store.Some? && store.value.lastPage == Some(p))
      modifies this`data, this`seenJobIds, this`lastUrl, this`store, this`exported
      ensures var spec := ListPageSpec(p, w, old(seenJobIds), fetch);
        && data == old(data) + spec.rows
        && fault == spec.fault
        && seenJobIds == (if spec.listed then Gate(w.anchors, old(seenJobIds)).seen else old(seenJobIds))
      ensures lastUrl == ListPageTrail(p, w, old(seenJobIds), fetch, old(lastUrl))
      ensures exported == ListPageExport(p, w, old(seenJobIds), fetch, old(data), old(exported))
      // The state file changes only if a guard fires, to its snapshot, or in the job loop.
      ensures !ListPageSpec(p, w, old(seenJobIds), fetch).listed ==>
        store == if IsBlockedOrCheckpoint(w.afterGet) || (w.listVisible && IsBlockedOrCheckpoint(w.afterScroll)) then
                   (if diskWritable then Some(Snapshot(SavedWhenBlocked)) else old(store))
                 else old(store)
      ensures diskWritable ==> store.Some? && store.value.lastPage == Some(p)
      ensures Consistent()
    {
      var blocked := GuardNotBlocked(w.afterGet);
      if blocked {
        return Some(Checkpoint);
      }
      if !w.listVisible {
        return None;
      }
      blocked := GuardNotBlocked(w.afterScroll);
      if blocked {
        return Some(Checkpoint);
      }
      fault := ListReadyPage(p, w, fetch);
    }

    /** scrape_page once both guards have passed and the list is visible: wait for the list,
        run the job loop and save the workbook at the end. */
    method ListReadyPage(p: int, w: PageWorld, ghost fetch: JobListItem -> DetailOutcome) returns (fault: Option<Fault>)
      requires Fetches(w, fetch)
      requires Consistent()
      requires !IsBlockedOrCheckpoint(w.afterGet) && w.listVisible && !IsBlockedOrCheckpoint(w.afterScroll)
      requires lastPage == Some(p) && (diskWritable ==> store.Some? && store.value.lastPage == Some(p))
      modifies this`data, this`seenJobIds, this`lastUrl, this`store, this`exported
      ensures var spec := ListPageSpec(p, w, old(seenJobIds), fetch);
        && data == old(data) + spec.rows
        && fault == spec.fault
        && seenJobIds == (if spec.listed then Gate(w.anchors, old(seenJobIds)).seen else old(seenJobIds))
      ensures lastUrl == ListPageTrail(p, w, old(seenJobIds), fetch, old(lastUrl))
      ensures exported == ListPageExport(p, w, old(seenJobIds), fetch, old(data), old(exported))
      ensures !w.listReady ==> store == old(store)
      ensures diskWritable ==> store.Some? && store.value.lastPage == Some(p)
      ensures Consistent()
    {
      if !w.listReady {
        return Some(UnexpectedError);
      }
      var interrupted := CollectJobs(p, w, fetch);
      if interrupted {
        return Some(KeyboardInterrupt);
      }
      SaveToExcel();
      return None;
    }

    /** The second half of get_jobs_from_list_page and the job loop of scrape_page. */
    method CollectJobs(p: int, w: PageWorld, ghost fetch: JobListItem -> DetailOutcome) returns (interrupted: bool)
      requires Fetches(w, fetch)
      requires Consistent()
      modifies this`data, this`seenJobIds, this`lastUrl, this`store, this`exported
      ensures var items := Gate(w.anchors, old(seenJobIds)).items;
        && data == old(data) + HarvestJobs(items, fetch, p).rows
        && interrupted == HarvestJobs(items, fetch, p).interrupted
        && seenJobIds == Gate(w.anchors, old(seenJobIds)).seen
        && lastUrl == HarvestTrail(items, Blocker(w), fetch, p, old(lastUrl))
        && exported == HarvestExported(items, Blocker(w), fetch, p, old(data), old(exported))
      ensures store == old(store) || (store.Some? && store.value.lastPage == lastPage)
      ensures Consistent()
    {
      var items := GetJobsFromListPage(w.anchors);
      forall k | 0 <= k < |items| ensures items[k].jobId in seenJobIds {
        assert items[k].jobId in Ids(items);
      }
      BlockerBlocks(w);
      interrupted := HarvestPage(p, w, items, fetch, Blocker(w));
    }

    /** The state once run's page loop has scraped the pages in `visited`, starting from the
        rows `base`, the seen set `seen0`, the recorded page `last0` and the workbook `book0`:
        the rows and the seen set are the loop's, the page is the last one entered, and the
        workbook is `book0` or a non-empty prefix of the rows. */
    ghost predicate Swept(visited: seq<int>, pages: int -> PageWorld, fetches: Fetchers, seen0: set<string>,
                          base: seq<Row>, last0: Option<int>, book0: seq<Row>)
      reads this`data, this`seenJobIds, this`lastPage, this`exported
    {
      var sweep := SweepPages(visited, pages, fetches, seen0);
      && data == base + sweep.rows && seenJobIds == sweep.seen
      && lastPage == LastEntered(visited, pages, last0)
      && (exported == book0 || (exported != [] && exported <= data))
    }

    /** One pass of run's page loop, on page p after the pages in `visited`, which raised
        nothing: scrape_page with each job's detail fetch ending as `fetches(p)` says. */
    method VisitPage(p: int, pages: int -> PageWorld, ghost fetches: Fetchers, ghost base: seq<Row>,
                     ghost seen0: set<string>, ghost visited: seq<int>,
                     ghost last0: Option<int>, ghost book0: seq<Row>) returns (fault: Option<Fault>)
      requires FetchesAll(pages, fetches)
      requires Swept(visited, pages, fetches, seen0, base, last0, book0)
      requires SweepPages(visited, pages, fetches, seen0).fault.None?
      requires Consistent()
      modifies this`data, this`seenJobIds, this`lastPage, this`lastUrl, this`store, this`exported, this`scraped
      ensures scraped == old(scraped) + [p]
      ensures Swept(visited + [p], pages, fetches, seen0, base, last0, book0)
      ensures fault == SweepPages(visited + [p], pages, fetches, seen0).fault
      ensures Consistent()
    {
      ghost var sweep := SweepPages(visited, pages, fetches, seen0);
      var w := pages(p);
      ghost var o := ScrapePageSpec(p, w, seenJobIds, fetches(p));
      SweepAdvance(visited, p, pages, fetches, seen0, w, o);
      fault := ScrapePage(p, w, fetches(p));
      assert data == old(data) + o.rows;
      ConcatAssoc(base, sweep.rows, o.rows);
      assert (visited + [p])[..|visited|] == visited;
    }

    /** The page loop of run: `range(resume_from, end_page - 1, -1)`, stopping at the first
        page that raises. */
    method ScrapePages(from: int, pages: int -> PageWorld, ghost fetches: Fetchers) returns (fault: Option<Fault>, visited: seq<int>)
      requires FetchesAll(pages, fetches)
      requires Consistent()
      modifies this`data, this`seenJobIds, this`lastPage, this`lastUrl, this`store, this`exported, this`scraped
      ensures scraped == old(scraped) + visited
      // The rows, the seen set and the error are those of the loop over the visited pages,
      // which are the range up to the first page that raised (and so, by SweepRangeStops,
      // those of the loop over the whole range); the page recorded is the last visited page
      // that loaded, and every save wrote the rows collected so far.
      ensures Swept(visited, pages, fetches, old(seenJobIds), old(data), old(lastPage), old(exported))
      ensures fault == SweepPages(visited, pages, fetches, old(seenJobIds)).fault
      ensures |visited| <= |PageRange(from, endPage)| && visited == PageRange(from, endPage)[..|visited|]
      ensures fault.None? ==> visited == PageRange(from, endPage)
      ensures fault.Some? ==> visited != []
      ensures Consistent()
    {
      visited := [];
      fault := None;
      var page := from;
      // The first page that raises ends the loop.
      while fault.None? && page >= endPage
        invariant CountedDown(from, endPage, visited, page, fault.Some?)
        invariant scraped == old(scraped) + visited
        invariant Swept(visited, pages, fetches, old(seenJobIds), old(data), old(lastPage), old(exported))
        invariant fault == SweepPages(visited, pages, fetches, old(seenJobIds)).fault
        invariant Consistent()
        decreases page - endPage
      {
        fault := VisitPage(page, pages, fetches, old(data), old(seenJobIds), visited, old(lastPage), old(exported));
        CountedDownStep(from, endPage, visited, page, fault.Some?);
        ConcatAssoc(old(scraped), visited, [page]);
        visited := visited + [page];
        page := page - 1;
      }
      CountedDownEnd(from, endPage, visited, page, fault.Some?);
    }

    /** manual_login. */
    method ManualLogin(att: Attempt) returns (fault: Option<Fault>)
      requires Consistent()
      modifies this`lastUrl, this`store, this`exported
      ensures fault == LoginFault(att.loginNav, att.login)
      // Only the guard on a checkpoint after ENTER records anything: the checkpoint page's
      // address, the workbook and the state.
      ensures fault == Some(Checkpoint) ==>
        && lastUrl == att.login.second.url && exported == (if data != [] then data else old(exported))
        && store == if diskWritable then Some(Snapshot(SavedWhenBlocked)) else old(store)
      ensures fault != Some(Checkpoint) ==> lastUrl == old(lastUrl) && exported == old(exported) && store == old(store)
      ensures Consistent()
    {
      var nav, _ := SafeGet(att.loginNav, false);
      if nav.NavFault? {
        return Some(nav.fault);
      }
      match att.login {
        case ListSeen =>
          return None;
        case LoginInterrupted =>
          return Some(KeyboardInterrupt);
        case ListMissing(first, second) =>
          if !IsBlockedOrCheckpoint(first) {
            return Some(UnexpectedError);
          }
          var blocked := GuardNotBlocked(second);
          if blocked {
            return Some(Checkpoint);
          }
          return None;
      }
    }

    /** profile_healthy. */
    method ProfileHealthy(att: Attempt) returns (healthy: bool)
      ensures healthy == Healthy(att)
    {
      var nav, _ := SafeGet(att.healthNav, true);
      if nav.NavFault? {
        return false;
      }
      healthy := !IsBlockedOrCheckpoint(att.healthSignals);
    }

    /** restart_browser_session: save the workbook and the state, then quit the driver. */
    method RestartBrowserSession()
      requires Consistent()
      modifies this`exported, this`store, this`driverOpen
      ensures exported == (if data != [] then data else old(exported))
      ensures store == if diskWritable then Some(Snapshot(SavedOnSessionRestart)) else old(store)
      ensures !driverOpen
      ensures Consistent()
    {
      SaveToExcel();
      SaveState(SavedOnSessionRestart);
      driverOpen := false;
    }

    /** reset_profile: quit the driver and delete the profile folder. */
    method ResetProfile()
      modifies this`driverOpen, this`profileResets
      ensures !driverOpen && profileResets == old(profileResets) + 1
    {
      driverOpen := false;
      profileResets := profileResets + 1;
    }

    /** The part of run's `try` before the page loop: start the browser, log in and check the
        profile's health. `None` when scraping may begin. */
    method StartSession(att: Attempt) returns (failed: Option<AttemptResult>)
      requires Consistent()
      modifies this`lastUrl, this`store, this`exported, this`driverOpen, this`profilePoisonStrikes
      ensures failed.Some? ==> failed.value.FailedBeforeHealth? || failed.value == HealthFailed
      ensures profilePoisonStrikes == StrikesAfter(Control(0, old(profilePoisonStrikes), 0), if failed.Some? then failed.value else Succeeded)
      ensures !att.driverStarts ==> failed == Some(FailedBeforeHealth(UnexpectedError))
      ensures att.driverStarts && LoginFault(att.loginNav, att.login).Some? ==>
        failed == Some(FailedBeforeHealth(LoginFault(att.loginNav, att.login).value))
      ensures att.driverStarts && LoginFault(att.loginNav, att.login).None? ==>
        (failed.None? <==> Healthy(att)) && (failed.Some? ==> failed.value == HealthFailed)
      ensures driverOpen == (att.driverStarts || old(driverOpen))
      // manual_login's checkpoint guard is the only save before the page loop.
      ensures att.driverStarts && LoginFault(att.loginNav, att.login) == Some(Checkpoint) ==>
        && lastUrl == att.login.second.url && exported == (if data != [] then data else old(exported))
        && store == if diskWritable then Some(Snapshot(SavedWhenBlocked)) else old(store)
      ensures !(att.driverStarts && LoginFault(att.loginNav, att.login) == Some(Checkpoint)) ==>
        lastUrl == old(lastUrl) && exported == old(exported) && store == old(store)
      ensures failed.None? ==> exported == old(exported) && store == old(store)
      ensures Consistent()
    {
      if !att.driverStarts {
        return Some(FailedBeforeHealth(UnexpectedError));
      }
      driverOpen := true;
      var fault := ManualLogin(att);
      if fault.Some? {
        return Some(FailedBeforeHealth(fault.value));
      }
      var healthy := ProfileHealthy(att);
      if !healthy {
        profilePoisonStrikes := profilePoisonStrikes + 1;
        return Some(HealthFailed);
      }
      profilePoisonStrikes := 0;
      return None;
    }

    /** The start of an attempt: load_state, then the driver, the login and the health check.
        A start that fails already fits the answers; after a healthy one, the attempt fits
        them however the page loop ends. */
    method Begin(att: Attempt) returns (failed: Option<AttemptResult>)
      requires Consistent()
      modifies this`lastPage, this`lastUrl, this`seenJobIds, this`store, this`exported
      modifies this`driverOpen, this`profilePoisonStrikes
      ensures failed.Some? ==> (failed.value.FailedBeforeHealth? || failed.value == HealthFailed) && Fits(att, failed.value)
      ensures failed.None? ==> Fits(att, Succeeded) && forall f :: Fits(att, FailedAfterHealth(f))
      ensures profilePoisonStrikes == StrikesAfter(Control(0, old(profilePoisonStrikes), 0), if failed.Some? then failed.value else Succeeded)
      ensures seenJobIds == (if old(store).Some? then old(store).value.seen else old(seenJobIds))
      ensures lastPage == (if old(store).Some? then old(store).value.lastPage else old(lastPage))
      ensures failed.None? ==> exported == old(exported) && store == old(store)
      ensures Consistent()
    {
      var _ := LoadState();
      failed := StartSession(att);
    }

    /** The end of run's `try` once every page is scraped: save the workbook and the state.
        The rows, the seen set and the page stay as the page loop left them. */
    method SaveOnCompletion(ghost visited: seq<int>, pages: int -> PageWorld, ghost fetches: Fetchers, ghost seen0: set<string>,
                            ghost base: seq<Row>, ghost last0: Option<int>, ghost book0: seq<Row>)
      requires Consistent()
      requires Swept(visited, pages, fetches, seen0, base, last0, book0)
      modifies this`exported, this`store
      ensures exported == if data != [] then data else old(exported)
      ensures store == if diskWritable then Some(Snapshot(SavedOnCompletion)) else old(store)
      ensures Swept(visited, pages, fetches, seen0, base, last0, book0)
      ensures Consistent()
    {
      SaveToExcel();
      SaveState(SavedOnCompletion);
    }

    /** The part of run's `try` after a healthy start: the page loop from the resume page
        down, and on completion the workbook and the state are saved. */
    method ScrapeFromResume(pages: int -> PageWorld) returns (fault: Option<Fault>, resume: int, visited: seq<int>)
      requires Consistent()
      modifies this`data, this`seenJobIds, this`lastPage, this`lastUrl, this`store, this`exported, this`scraped
      ensures resume == ResumeStartPage(old(lastPage), startPage, endPage)
      ensures scraped == old(scraped) + visited
      ensures var sweep := SweepPages(visited, pages, PageFetchers(pages), old(seenJobIds));
        data == old(data) + sweep.rows && sweep.fault == fault
      ensures fault.None? ==> visited == PageRange(resume, endPage)
      ensures fault.Some? ==>
        visited != [] && |visited| <= |PageRange(resume, endPage)| && visited == PageRange(resume, endPage)[..|visited|]
      ensures fault.None? ==> diskWritable ==> store == Some(Snapshot(SavedOnCompletion))
      ensures old(data) <= data
      // The seen set is the page loop's, the page recorded is the last one entered, and the
      // workbook is the one before or a non-empty prefix of the rows ...
      ensures Swept(visited, pages, PageFetchers(pages), old(seenJobIds), old(data), old(lastPage), old(exported))
      // ... holding every row once the loop completes.
      ensures fault.None? ==> exported == if data != [] then data else old(exported)
      ensures Consistent()
    {
      resume := ResumeStartPage(lastPage, startPage, endPage);
      PageFetchersFetch(pages);
      fault, visited := ScrapePages(resume, pages, PageFetchers(pages));
      if fault.None? {
        SaveOnCompletion(visited, pages, PageFetchers(pages), old(seenJobIds), old(data), old(lastPage), old(exported));
      }
    }

    /** The body of run's `try`: load the state, start the browser, log in, check the profile's
        health, and scrape the pages from the resume page down. `resume` is the first page and
        `visited` the pages scraped. */
    method RunAttempt(att: Attempt) returns (res: AttemptResult, resume: int, visited: seq<int>)
      requires Consistent()
      modifies this`data, this`seenJobIds, this`lastPage, this`lastUrl, this`store, this`exported
      modifies this`driverOpen, this`profilePoisonStrikes, this`scraped
      ensures profilePoisonStrikes == StrikesAfter(Control(0, old(profilePoisonStrikes), 0), res)
      ensures Fits(att, res)
      ensures scraped == old(scraped) + visited
      ensures res.FailedBeforeHealth? || res == HealthFailed ==> visited == [] && data == old(data)
      // After a healthy start the pages from the resume page down are scraped against the
      // seen set load_state restored: the error is that of the page loop ...
      ensures res == Succeeded || res.FailedAfterHealth? ==>
        SweepPages(visited, att.pages, PageFetchers(att.pages), if old(store).Some? then old(store).value.seen else old(seenJobIds)).fault
          == (if res == Succeeded then None else Some(res.fault))
      ensures res == Succeeded || res.FailedAfterHealth? ==>
        resume == ResumeStartPage(if old(store).Some? then old(store).value.lastPage else old(lastPage), startPage, endPage)
      // A completed attempt scraped every page from the resume page down to the last one.
      ensures res == Succeeded ==> visited == PageRange(resume, endPage)
      ensures res.FailedAfterHealth? ==>
        visited != [] && |visited| <= |PageRange(resume, endPage)| && visited == PageRange(resume, endPage)[..|visited|]
      ensures res == Succeeded ==> diskWritable ==> store == Some(Snapshot(SavedOnCompletion))
      ensures old(data) <= data
      // load_state restores the seen set and the page; scraping then goes on from there.
      ensures res.FailedBeforeHealth? || res == HealthFailed ==>
        && seenJobIds == (if old(store).Some? then old(store).value.seen else old(seenJobIds))
        && lastPage == (if old(store).Some? then old(store).value.lastPage else old(lastPage))
      // ... and the rows, the seen set, the page recorded and the workbook are the loop's, from
      // the restored seen set and page.
      ensures res == Succeeded || res.FailedAfterHealth? ==>
        Swept(visited, att.pages, PageFetchers(att.pages), if old(store).Some? then old(store).value.seen else old(seenJobIds),
              old(data), if old(store).Some? then old(store).value.lastPage else old(lastPage), old(exported))
      ensures res == Succeeded ==> exported == if data != [] then data else old(exported)
      ensures Consistent()
    {
      visited := [];
      resume := startPage;
      var failed := Begin(att);
      if failed.Some? {
        res := failed.value;
      } else {
        var fault;
        fault, resume, visited := ScrapeFromResume(att.pages);
        res := if fault.Some? then FailedAfterHealth(fault.value) else Succeeded;
      }
    }

    /** One attempt as run's loop sees it: the result fits the answers, and the strike count,
        the rows and the invariant follow. */
    method AttemptOnce(att: Attempt) returns (res: AttemptResult)
      requires Consistent()
      modifies this`data, this`seenJobIds, this`lastPage, this`lastUrl, this`store, this`exported
      modifies this`driverOpen, this`profilePoisonStrikes, this`scraped
      ensures Fits(att, res)
      ensures profilePoisonStrikes == StrikesAfter(Control(0, old(profilePoisonStrikes), 0), res)
      ensures old(data) <= data
      // A completed attempt scraped every page from the resume page load_state gives down to
      // the last one; one that failed before the health check scraped none.
      ensures res == Succeeded ==>
        scraped == old(scraped) + PageRange(ResumeStartPage(if old(store).Some? then old(store).value.lastPage else old(lastPage),
                                                            startPage, endPage), endPage)
      ensures res.FailedBeforeHealth? || res == HealthFailed ==> scraped == old(scraped)
      ensures old(scraped) <= scraped
      ensures Consistent()
    {
      var resume, visited;
      res, resume, visited := RunAttempt(att);
    }

    /** The except clauses of run after an attempt ended with `res`, with `restarts` restarts
        made before it and `strikesBefore` strikes at its start: they save what the clause
        saves, apply the remedy, and stop exactly when Step stops. */
    method Recover(res: AttemptResult, restarts: nat, ghost strikesBefore: nat) returns (stop: Option<Exit>)
      requires profilePoisonStrikes == StrikesAfter(Control(restarts, strikesBefore, profileResets), res)
      requires Consistent()
      modifies this`store, this`exported, this`driverOpen, this`profilePoisonStrikes, this`profileResets
      ensures var d := Step(Control(restarts, strikesBefore, old(profileResets)), res);
        && (stop.Some? <==> d.verdict.Stop?)
        && (stop.Some? ==> stop.value == d.verdict.exit)
        && profilePoisonStrikes == d.next.strikes
        && profileResets == d.next.resets
      // What each except clause saves: the workbook and the state on an interrupt or an
      // unexpected error, the state alone on a RuntimeError or when the restarts run out, both
      // through restart_browser_session when the profile is reused, nothing otherwise.
      ensures FaultOf(res) == Some(KeyboardInterrupt) ==>
        && exported == (if data != [] then data else old(exported))
        && store == (if diskWritable then Some(Snapshot(SavedOnInterrupt)) else old(store))
      ensures FaultOf(res) == Some(UnexpectedError) ==>
        && exported == (if data != [] then data else old(exported))
        && store == (if diskWritable then Some(Snapshot(SavedOnUnexpectedError)) else old(store))
      ensures FaultOf(res) == Some(Checkpoint) ==>
        exported == old(exported) && store == (if diskWritable then Some(Snapshot(SavedOnRuntimeError)) else old(store))
      ensures FaultOf(res) == Some(RestartSession) && restarts + 1 > MaxRestarts ==>
        exported == old(exported) && store == (if diskWritable then Some(Snapshot(SavedOnTooManyRestarts)) else old(store))
      ensures FaultOf(res) == Some(RestartSession) && restarts + 1 <= MaxRestarts && old(profilePoisonStrikes) <= 1 ==>
        && exported == (if data != [] then data else old(exported))
        && store == (if diskWritable then Some(Snapshot(SavedOnSessionRestart)) else old(store))
      ensures || FaultOf(res).None?
              || (FaultOf(res) == Some(RestartSession) && restarts + 1 <= MaxRestarts && old(profilePoisonStrikes) > 1)
              ==> exported == old(exported) && store == old(store)
      ensures !driverOpen
      ensures Consistent()
    {
      stop := None;
      match FaultOf(res) {
        case None =>
          stop := Some(Completed);
        case Some(f) =>
          match f {
            case KeyboardInterrupt =>
              SaveToExcel();
              SaveState(SavedOnInterrupt);
              stop := Some(Interrupted);
            case UnexpectedError =>
              SaveToExcel();
              SaveState(SavedOnUnexpectedError);
              stop := Some(Propagated);
            case Checkpoint =>
              SaveState(SavedOnRuntimeError);
              if restarts + 1 > MaxRestarts {
                stop := Some(TooManyRestarts);
              }
            case RestartSession =>
              if restarts + 1 > MaxRestarts {
                SaveState(SavedOnTooManyRestarts);
                stop := Some(TooManyRestarts);
              } else if profilePoisonStrikes <= 1 {
                RestartBrowserSession();
              } else {
                ResetProfile();
                profilePoisonStrikes := 0;
              }
          }
      }
      driverOpen := false;
    }

    /** One pass of run's loop body, attempt `|trace|` after the attempts in `trace`, none of
        which stopped the loop: the attempt, then the except clause its result calls for. The
        loop's state after it is the state Step gives. */
    method RunPass(att: Attempt, restarts: nat, ghost c0: Control, ghost trace: seq<AttemptResult>)
      returns (res: AttemptResult, stop: Option<Exit>)
      requires restarts <= MaxRestarts
      requires Play(c0, trace) == Played(Control(restarts, profilePoisonStrikes, profileResets), None)
      requires Consistent()
      modifies this
      ensures Fits(att, res)
      ensures var q := Play(c0, trace + [res]);
        && q.exit == stop
        && q.control.strikes == profilePoisonStrikes
        && q.control.resets == profileResets
        && (stop.None? ==> q.control.restarts == restarts + 1 <= MaxRestarts)
      ensures stop == Some(Completed) <==> res == Succeeded
      ensures stop == Some(TooManyRestarts) ==> restarts == MaxRestarts
      ensures !driverOpen
      ensures old(data) <= data
      ensures res == Succeeded ==>
        scraped == old(scraped) + PageRange(ResumeStartPage(if old(store).Some? then old(store).value.lastPage else old(lastPage),
                                                            startPage, endPage), endPage)
      ensures old(scraped) <= scraped
      ensures Consistent()
    {
      ghost var c := Control(restarts, profilePoisonStrikes, profileResets);
      res := AttemptOnce(att);
      PlayAppend(c0, trace, res);
      stop := Recover(res, restarts, c.strikes);
    }

    /** run: attempts are made until one completes, is interrupted, fails unexpectedly, or the
        restart budget runs out; `attempts(k)` is what the browser answers during attempt k.
        The decisions follow Step, attempt by attempt. */
    method Run(attempts: nat -> Attempt)
      returns (exit: Exit, trace: seq<AttemptResult>, ghost recorded: Option<int>, ghost resumed: int,
               ghost before: seq<int>)
      requires Consistent()
      modifies this
      ensures Play(Control(0, old(profilePoisonStrikes), old(profileResets)), trace).exit == Some(exit)
      ensures profilePoisonStrikes == Play(Control(0, old(profilePoisonStrikes), old(profileResets)), trace).control.strikes
      ensures profileResets == Play(Control(0, old(profilePoisonStrikes), old(profileResets)), trace).control.resets
      ensures 1 <= |trace| <= MaxRestarts + 1
      ensures exit == TooManyRestarts ==> |trace| == MaxRestarts + 1
      ensures exit == Completed <==> trace[|trace| - 1] == Succeeded
      // Attempt k's result is the one its answers call for.
      ensures TraceFits(attempts, trace)
      ensures !driverOpen
      ensures old(data) <= data
      // The completing attempt scraped every page from its resume page, the start page or the
      // page the state recorded, down to the last one.
      ensures old(scraped) <= scraped
      ensures exit == Completed ==>
        exists r, before :: && (r == startPage || endPage <= r <= startPage) && old(scraped) <= before
                            && scraped == before + PageRange(r, endPage)
      // Which range: `recorded` is the page the completing attempt reloaded (from the state
      // file, or the one kept in memory when there is none), and `resumed` its resume page.
      ensures exit == Completed ==>
        && resumed == ResumeStartPage(recorded, startPage, endPage)
        && old(scraped) <= before && scraped == before + PageRange(resumed, endPage)
      ensures Consistent()
    {
      ghost var c0 := Control(0, profilePoisonStrikes, profileResets);
      var restarts := 0;
      trace := [];
      while true
        invariant restarts == |trace| <= MaxRestarts
        invariant Play(c0, trace) == Played(Control(restarts, profilePoisonStrikes, profileResets), None)
        invariant TraceFits(attempts, trace)
        invariant old(data) <= data
        invariant old(scraped) <= scraped
        invariant Consistent()
        decreases MaxRestarts - restarts
      {
        before := scraped;
        recorded := if store.Some? then store.value.lastPage else lastPage;
        resumed := ResumeStartPage(recorded, startPage, endPage);
        var res, stop := RunPass(attempts(|trace|), restarts, c0, trace);
        TraceFitsAppend(attempts, trace, res);
        trace := trace + [res];
        if stop.Some? {
          exit := stop.value;
          return;
        }
        restarts := restarts + 1;
      }
    }
  }
}
