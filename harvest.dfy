/** scrape_job_details and the per-job loop of scrape_page, as functions of the browser's
    answers: which row a job yields, and which rows a page yields. */
module Harvest {
  import opened Common
  import opened Detectors
  import opened Navigation
  import opened Listing
  import opened AppliedDate
  import opened Export

  /** The date and the month folder the calendar arithmetic gives for an amount of time ago
      (`strftime("%Y-%m-%d")` and `strftime("%m-%Y")`). */
  datatype CalendarDate = CalendarDate(date: string, month: string)

  /** What the detail page shows once it is open; `None` where the lookup timed out or found
      nothing (a title that never appeared, no company link with text, no submitted notice, no
      description container with more than 50 characters). The source keeps a company only
      when its stripped text is non-empty, so an empty `company` answer counts as missing. */
  datatype DetailPage = DetailPage(
    title: Option<string>,
    company: Option<string>,
    submitted: Option<string>,
    description: Option<string>)

  /** Reading the page either works or ends with an uncaught error. */
  datatype Extraction = Read(page: DetailPage) | ReadFailed(fault: Fault)

  /** Everything the browser answers while one job's details are fetched. */
  datatype DetailScript = DetailScript(
    nav: NavScript,                    // safe_get(job.url, post_wait_xpath="//h1")
    signals: Signals,                  // guard_not_blocked after the navigation
    extraction: Extraction,
    pdfSignals: Signals,               // guard_not_blocked inside save_as_pdf
    printed: bool,                     // Page.printToPDF and the file write succeeded
    calendar: Ago -> CalendarDate)     // now (Asia/Singapore) minus the amount

  /** Where a PDF was saved: the month folder and the file name inside it. */
  datatype PdfRef = PdfRef(month: string, fileName: string)

  /** One row of self.data; `page` is None until the page loop fills it in. */
  datatype Row = Row(
    company: string,
    role: string,
    applicationDate: string,
    about: string,
    fullDescription: string,
    url: string,
    jobId: string,
    page: Option<int>,
    pdf: Option<PdfRef>)

  datatype DetailOutcome = Fetched(row: Row) | DetailFailed(fault: Fault)

  const UnknownRole: string := "Unknown Role"
  const UnknownCompany: string := "Unknown Company"
  const UnknownApplied: string := "Unknown"
  const NoDescription: string := "Description not available"

  /** Python's `x or default` on an optional hint (hints are never empty strings). */
  function OrElse(x: Option<string>, default: string): (r: string)
    ensures x.Some? && x.value != [] ==> r == x.value
    ensures x.None? ==> r == default
  {
    if x.Some? && x.value != [] then x.value else default
  }

  /** The text handed to parse_application_date: the list hint, else the "Application
      submitted" notice (its stripped text, kept even when empty), else "Unknown". */
  function AppliedText(job: JobListItem, page: DetailPage): string
  {
    if job.appliedRelative.Some? && job.appliedRelative.value != [] then job.appliedRelative.value
    else if page.submitted.Some? then page.submitted.value
    else UnknownApplied
  }

  /** The PDF step: only with a parsed month; a checkpoint inside save_as_pdf and a failed
      print both end in "no PDF". */
  function PdfOf(d: DetailScript, company: string, role: string, jobId: string, parsed: Option<Ago>): (r: Option<PdfRef>)
    ensures r.Some? <==> parsed.Some? && !IsBlockedOrCheckpoint(d.pdfSignals) && d.printed
    ensures r.Some? ==> r.value == PdfRef(d.calendar(parsed.value).month, PdfFileName(company, role, jobId))
  {
    match parsed
    case None => None
    case Some(ago) =>
      if IsBlockedOrCheckpoint(d.pdfSignals) || !d.printed then None
      else Some(PdfRef(d.calendar(ago).month, PdfFileName(company, role, jobId)))
  }

  /** scrape_job_details; FetchDetailOutcome states what it yields. */
  function FetchDetail(job: JobListItem, d: DetailScript): DetailOutcome
  {
    match Navigate(d.nav, true).outcome
    case NavFault(f) => DetailFailed(f)
    case Loaded =>
      if IsBlockedOrCheckpoint(d.signals) then DetailFailed(Checkpoint)
      else
        match d.extraction
        case ReadFailed(f) => DetailFailed(f)
        case Read(page) =>
          var role := if page.title.Some? then page.title.value else OrElse(job.roleHint, UnknownRole);
          var company := if page.company.Some? && page.company.value != [] then page.company.value else OrElse(job.companyHint, UnknownCompany);
          var appliedText := AppliedText(job, page);
          var parsed := ParseApplicationDate(appliedText);
          var date := if parsed.Some? then d.calendar(parsed.value).date else appliedText;
          var description := OrElse(page.description, NoDescription);
          Fetched(Row(company, role, date, Summary(description), description, job.url, job.jobId, None,
                      PdfOf(d, company, role, job.jobId, parsed)))
  }

  /** What scrape_job_details yields: the failures, and every cell of a fetched row. */
  lemma FetchDetailOutcome(job: JobListItem, d: DetailScript)
    ensures var r := FetchDetail(job, d);
      r.DetailFailed? <==> Navigate(d.nav, true).outcome.NavFault? || IsBlockedOrCheckpoint(d.signals) || d.extraction.ReadFailed?
    ensures Navigate(d.nav, true).outcome.NavFault? ==> FetchDetail(job, d) == DetailFailed(Navigate(d.nav, true).outcome.fault)
    ensures Navigate(d.nav, true).outcome == Loaded && IsBlockedOrCheckpoint(d.signals) ==> FetchDetail(job, d) == DetailFailed(Checkpoint)
    ensures var r := FetchDetail(job, d);
      r.Fetched? ==> r.row.url == job.url && r.row.jobId == job.jobId && r.row.page.None?
    ensures var r := FetchDetail(job, d);
      r.Fetched? ==> r.row.about == Summary(r.row.fullDescription)
    ensures var r := FetchDetail(job, d);
      r.Fetched? ==>
        && d.extraction.Read?
        && var page := d.extraction.page;
           && r.row.role == (if page.title.Some? then page.title.value else OrElse(job.roleHint, UnknownRole))
           && r.row.company == (if page.company.Some? && page.company.value != [] then page.company.value else OrElse(job.companyHint, UnknownCompany))
           && r.row.fullDescription == OrElse(page.description, NoDescription)
           && var parsed := ParseApplicationDate(AppliedText(job, page));
              r.row.applicationDate == (if parsed.Some? then d.calendar(parsed.value).date else AppliedText(job, page))
    ensures var r := FetchDetail(job, d);
      r.Fetched? && r.row.pdf.Some? ==>
        && d.extraction.Read? && !IsBlockedOrCheckpoint(d.pdfSignals) && d.printed
        && var parsed := ParseApplicationDate(AppliedText(job, d.extraction.page));
           parsed.Some? && r.row.pdf.value == PdfRef(d.calendar(parsed.value).month, PdfFileName(r.row.company, r.row.role, job.jobId))
  {
  }

  /** The checkpoint page a guard_not_blocked inside scrape_job_details sees, if one fires:
      the guard after the navigation, else the one inside save_as_pdf, which runs only once
      the page was read and its month parsed. */
  function DetailBlock(job: JobListItem, d: DetailScript): Option<Signals>
  {
    if Navigate(d.nav, true).outcome.NavFault? then None
    else if IsBlockedOrCheckpoint(d.signals) then Some(d.signals)
    else
      match d.extraction
      case ReadFailed(_) => None
      case Read(page) =>
        if ParseApplicationDate(AppliedText(job, page)).Some? && IsBlockedOrCheckpoint(d.pdfSignals) then Some(d.pdfSignals)
        else None
  }

  /** A guard that fires sees a checkpoint page. One that fires before the row is built ends
      the fetch with a Checkpoint; one that fires inside save_as_pdf only costs the row its PDF. */
  lemma DetailBlockOutcome(job: JobListItem, d: DetailScript)
    ensures var r := DetailBlock(job, d);
      && (r.Some? ==> IsBlockedOrCheckpoint(r.value))
      && (r.Some? && FetchDetail(job, d).DetailFailed? ==> r.value == d.signals && FetchDetail(job, d).fault == Checkpoint)
      && (r.Some? && FetchDetail(job, d).Fetched? ==> r.value == d.pdfSignals && FetchDetail(job, d).row.pdf.None?)
      && (Navigate(d.nav, true).outcome == Loaded && IsBlockedOrCheckpoint(d.signals) ==> r == Some(d.signals))
  {
  }

  /** The last address recorded once `job` has been through scrape_page's loop body, given
      its fetch `outcome` and the checkpoint page `guard` a guard saw, if one fired: the job's
      own address when its row is appended, else the checkpoint page's address when a guard
      fired, else `prior`. */
  function JobTrail(job: JobListItem, outcome: DetailOutcome, guard: Option<Signals>, prior: Option<string>): Option<string>
  {
    if outcome.Fetched? then Some(job.url)
    else if guard.Some? then guard.value.url
    else prior
  }

  /** The rows a page's job loop appends, and whether a KeyboardInterrupt ended it early. */
  datatype Harvested = Harvested(rows: seq<Row>, interrupted: bool)

  /** `row` is the row fetched for `job`, tagged with page p. */
  predicate RowOf(fetch: JobListItem -> DetailOutcome, job: JobListItem, p: int, row: Row)
  {
    fetch(job).Fetched? && row == fetch(job).row.(page := Some(p))
  }

  /** Fetching `job` ends with a KeyboardInterrupt. */
  predicate Interrupts(fetch: JobListItem -> DetailOutcome, job: JobListItem)
  {
    fetch(job) == DetailFailed(KeyboardInterrupt)
  }

  /** The per-job loop of scrape_page, given the outcome of scrape_job_details for each job
      (FetchDetail with that job's answers): each fetched row is tagged with the page number
      and appended; every failure except KeyboardInterrupt is logged and skipped; a
      KeyboardInterrupt leaves the loop. */
  function HarvestJobs(items: seq<JobListItem>, fetch: JobListItem -> DetailOutcome, p: int): (r: Harvested)
    ensures |r.rows| <= |items|
    ensures forall k :: 0 <= k < |r.rows| ==> r.rows[k].page == Some(p)
    decreases |items|
  {
    if items == [] then Harvested([], false)
    else
      var init := items[..|items| - 1];
      var job := items[|items| - 1];
      var prev := HarvestJobs(init, fetch, p);
      if prev.interrupted then prev
      else
        match fetch(job)
        case Fetched(row) => Harvested(prev.rows + [row.(page := Some(p))], false)
        case DetailFailed(f) => if f == KeyboardInterrupt then Harvested(prev.rows, true) else prev
  }

  /** One more job: the loop's step, in the order the jobs are fetched. */
  lemma HarvestStep(items: seq<JobListItem>, job: JobListItem, fetch: JobListItem -> DetailOutcome, p: int)
    ensures HarvestJobs(items + [job], fetch, p) ==
      var prev := HarvestJobs(items, fetch, p);
      if prev.interrupted then prev
      else
        match fetch(job)
        case Fetched(row) => Harvested(prev.rows + [row.(page := Some(p))], false)
        case DetailFailed(f) => if f == KeyboardInterrupt then Harvested(prev.rows, true) else prev
  {
    assert (items + [job])[..|items + [job]| - 1] == items;
  }

  /** A job that fails with anything but KeyboardInterrupt contributes nothing, and the jobs
      after it are fetched exactly as if it had not been listed. */
  lemma {:induction false} FailingJobIsSkipped(before: seq<JobListItem>, bad: JobListItem, after: seq<JobListItem>,
                                               fetch: JobListItem -> DetailOutcome, p: int)
    requires fetch(bad).DetailFailed? && fetch(bad).fault != KeyboardInterrupt
    ensures HarvestJobs(before + [bad] + after, fetch, p) == HarvestJobs(before + after, fetch, p)
    decreases |after|
  {
    if after == [] {
      assert (before + [bad] + after)[..|before| + 1 - 1] == before;
      assert before + after == before;
    } else {
      var shorter := after[..|after| - 1];
      FailingJobIsSkipped(before, bad, shorter, fetch, p);
      var long := before + [bad] + after;
      var short := before + after;
      assert long[..|long| - 1] == before + [bad] + shorter;
      assert short[..|short| - 1] == before + shorter;
      assert long[|long| - 1] == short[|short| - 1];
    }
  }

  /** Rows already collected are never changed by the jobs that follow. */
  lemma {:induction false} HarvestExtends(items: seq<JobListItem>, more: seq<JobListItem>,
                                          fetch: JobListItem -> DetailOutcome, p: int)
    ensures HarvestJobs(items, fetch, p).rows <= HarvestJobs(items + more, fetch, p).rows
    ensures HarvestJobs(items, fetch, p).interrupted ==> HarvestJobs(items + more, fetch, p) == HarvestJobs(items, fetch, p)
    decreases |more|
  {
    if more == [] {
      assert items + more == items;
    } else {
      var shorter := more[..|more| - 1];
      HarvestExtends(items, shorter, fetch, p);
      assert (items + more)[..|items + more| - 1] == items + shorter;
    }
  }

  /** Every row comes from one of the listed jobs: it is that job's fetched row, tagged. */
  lemma {:induction false} HarvestRowsFromItems(items: seq<JobListItem>, fetch: JobListItem -> DetailOutcome, p: int)
    ensures forall k :: 0 <= k < |HarvestJobs(items, fetch, p).rows| ==>
      exists j :: 0 <= j < |items| && RowOf(fetch, items[j], p, HarvestJobs(items, fetch, p).rows[k])
    decreases |items|
  {
    if items != [] {
      var init := items[..|items| - 1];
      HarvestRowsFromItems(init, fetch, p);
      var prev, r := HarvestJobs(init, fetch, p), HarvestJobs(items, fetch, p);
      var job := items[|items| - 1];
      assert r.rows == prev.rows || (fetch(job).Fetched? && r.rows == prev.rows + [fetch(job).row.(page := Some(p))]);
      forall k | 0 <= k < |r.rows| ensures exists j :: 0 <= j < |items| && RowOf(fetch, items[j], p, r.rows[k]) {
        if k < |prev.rows| {
          assert r.rows[k] == prev.rows[k];
          var j :| 0 <= j < |init| && RowOf(fetch, init[j], p, prev.rows[k]);
          assert init[j] == items[j];
        } else {
          assert RowOf(fetch, items[|items| - 1], p, r.rows[k]);
        }
      }
    } else {
      assert HarvestJobs(items, fetch, p).rows == [];
    }
  }

  /** The loop is cut short exactly when one of the listed jobs raises KeyboardInterrupt. */
  lemma {:induction false} HarvestInterrupted(items: seq<JobListItem>, fetch: JobListItem -> DetailOutcome, p: int)
    ensures HarvestJobs(items, fetch, p).interrupted <==> exists j :: 0 <= j < |items| && Interrupts(fetch, items[j])
    decreases |items|
  {
    if items != [] {
      var init := items[..|items| - 1];
      HarvestInterrupted(init, fetch, p);
      forall j | 0 <= j < |init| ensures init[j] == items[j] { }
    }
  }

  /** Every job that is fetched before any KeyboardInterrupt yields its row, tagged with the
      page, right after the rows of the jobs before it. */
  lemma {:induction false} HarvestKeepsFetched(items: seq<JobListItem>, fetch: JobListItem -> DetailOutcome, p: int, j: nat)
    requires j < |items|
    requires forall k :: 0 <= k < j ==> !Interrupts(fetch, items[k])
    requires fetch(items[j]).Fetched?
    ensures HarvestJobs(items[..j], fetch, p).rows + [fetch(items[j]).row.(page := Some(p))] <= HarvestJobs(items, fetch, p).rows
  {
    var before := items[..j];
    HarvestInterrupted(before, fetch, p);
    assert !HarvestJobs(before, fetch, p).interrupted by {
      forall k | 0 <= k < |before| ensures !Interrupts(fetch, before[k]) {
        assert before[k] == items[k];
      }
    }
    HarvestStep(before, items[j], fetch, p);
    assert before + [items[j]] == items[..j + 1];
    HarvestExtends(items[..j + 1], items[j + 1..], fetch, p);
    assert items[..j + 1] + items[j + 1..] == items;
  }

  /** Distinct job ids in, distinct job ids out. */
  lemma {:induction false} HarvestDistinct(items: seq<JobListItem>, fetch: JobListItem -> DetailOutcome, p: int)
    requires forall k, l :: 0 <= k < l < |items| ==> items[k].jobId != items[l].jobId
    requires forall job :: fetch(job).Fetched? ==> fetch(job).row.jobId == job.jobId
    ensures forall k, l :: 0 <= k < l < |HarvestJobs(items, fetch, p).rows| ==>
      HarvestJobs(items, fetch, p).rows[k].jobId != HarvestJobs(items, fetch, p).rows[l].jobId
    decreases |items|
  {
    if items != [] {
      var init := items[..|items| - 1];
      HarvestDistinct(init, fetch, p);
      HarvestRowsFromItems(init, fetch, p);
      var prev := HarvestJobs(init, fetch, p);
      var r := HarvestJobs(items, fetch, p);
      var job := items[|items| - 1];
      if !prev.interrupted && fetch(job).Fetched? {
        forall k | 0 <= k < |prev.rows| ensures prev.rows[k].jobId != job.jobId {
          var j :| 0 <= j < |init| && RowOf(fetch, init[j], p, prev.rows[k]);
          assert init[j] == items[j];
        }
        assert r.rows == prev.rows + [fetch(job).row.(page := Some(p))];
      }
    }
  }

  /** The last address recorded by the job loop over `items`, starting from `prior`. */
  function HarvestTrail(items: seq<JobListItem>, block: JobListItem -> Option<Signals>,
                        fetch: JobListItem -> DetailOutcome, p: int, prior: Option<string>): Option<string>
    decreases |items|
  {
    if items == [] then prior
    else
      var init := items[..|items| - 1];
      var job := items[|items| - 1];
      var prev := HarvestTrail(init, block, fetch, p, prior);
      if HarvestJobs(init, fetch, p).interrupted then prev else JobTrail(job, fetch(job), block(job), prev)
  }

  /** The exported workbook after the job loop over `items`, which appends to the rows `base`
      and starts from the workbook `prior`: a guard that fires saves the rows collected so far
      (save_to_excel writes nothing when there are none). */
  function HarvestExported(items: seq<JobListItem>, block: JobListItem -> Option<Signals>,
                           fetch: JobListItem -> DetailOutcome, p: int, base: seq<Row>, prior: seq<Row>): seq<Row>
    decreases |items|
  {
    if items == [] then prior
    else
      var init := items[..|items| - 1];
      var job := items[|items| - 1];
      var prev := HarvestExported(init, block, fetch, p, base, prior);
      var now := base + HarvestJobs(init, fetch, p).rows;
      if HarvestJobs(init, fetch, p).interrupted || block(job).None? || now == [] then prev
      else now
  }

  /** One more job: the step of the recorded address and of the workbook. */
  lemma HarvestLedgerStep(items: seq<JobListItem>, job: JobListItem, block: JobListItem -> Option<Signals>,
                          fetch: JobListItem -> DetailOutcome, p: int, prior: Option<string>, base: seq<Row>, workbook: seq<Row>)
    ensures HarvestTrail(items + [job], block, fetch, p, prior) ==
      if HarvestJobs(items, fetch, p).interrupted then HarvestTrail(items, block, fetch, p, prior)
      else JobTrail(job, fetch(job), block(job), HarvestTrail(items, block, fetch, p, prior))
    ensures HarvestExported(items + [job], block, fetch, p, base, workbook) ==
      var now := base + HarvestJobs(items, fetch, p).rows;
      if HarvestJobs(items, fetch, p).interrupted || block(job).None? || now == [] then
        HarvestExported(items, block, fetch, p, base, workbook)
      else now
  {
    assert (items + [job])[..|items + [job]| - 1] == items;
  }

  /** The step of the loop at index i, before any KeyboardInterrupt. */
  lemma HarvestLedgerNext(items: seq<JobListItem>, i: nat, block: JobListItem -> Option<Signals>,
                          fetch: JobListItem -> DetailOutcome, p: int, prior: Option<string>, base: seq<Row>, workbook: seq<Row>)
    requires i < |items| && !HarvestJobs(items[..i], fetch, p).interrupted
    ensures HarvestTrail(items[..i + 1], block, fetch, p, prior) ==
      JobTrail(items[i], fetch(items[i]), block(items[i]), HarvestTrail(items[..i], block, fetch, p, prior))
    ensures HarvestExported(items[..i + 1], block, fetch, p, base, workbook) ==
      var now := base + HarvestJobs(items[..i], fetch, p).rows;
      if block(items[i]).Some? && now != [] then now
      else HarvestExported(items[..i], block, fetch, p, base, workbook)
  {
    assert items[..i + 1] == items[..i] + [items[i]];
    HarvestLedgerStep(items[..i], items[i], block, fetch, p, prior, base, workbook);
  }

  /** After a KeyboardInterrupt the jobs that follow record nothing. */
  lemma {:induction false} HarvestLedgerStops(items: seq<JobListItem>, more: seq<JobListItem>, block: JobListItem -> Option<Signals>,
                                              fetch: JobListItem -> DetailOutcome, p: int, prior: Option<string>,
                                              base: seq<Row>, workbook: seq<Row>)
    requires HarvestJobs(items, fetch, p).interrupted
    ensures HarvestTrail(items + more, block, fetch, p, prior) == HarvestTrail(items, block, fetch, p, prior)
    ensures HarvestExported(items + more, block, fetch, p, base, workbook) == HarvestExported(items, block, fetch, p, base, workbook)
    decreases |more|
  {
    if more == [] {
      assert items + more == items;
    } else {
      var init := more[..|more| - 1];
      HarvestLedgerStops(items, init, block, fetch, p, prior, base, workbook);
      HarvestExtends(items, init, fetch, p);
      assert items + more == (items + init) + [more[|more| - 1]];
      HarvestLedgerStep(items + init, more[|more| - 1], block, fetch, p, prior, base, workbook);
    }
  }

  /** A loop cut short by a KeyboardInterrupt among the first n jobs ends as the loop over
      those n jobs. */
  lemma HarvestCutShort(items: seq<JobListItem>, n: nat, block: JobListItem -> Option<Signals>,
                        fetch: JobListItem -> DetailOutcome, p: int, prior: Option<string>, base: seq<Row>, workbook: seq<Row>)
    requires n <= |items| && HarvestJobs(items[..n], fetch, p).interrupted
    ensures HarvestJobs(items, fetch, p) == HarvestJobs(items[..n], fetch, p)
    ensures HarvestTrail(items, block, fetch, p, prior) == HarvestTrail(items[..n], block, fetch, p, prior)
    ensures HarvestExported(items, block, fetch, p, base, workbook) == HarvestExported(items[..n], block, fetch, p, base, workbook)
  {
    HarvestExtends(items[..n], items[n..], fetch, p);
    HarvestLedgerStops(items[..n], items[n..], block, fetch, p, prior, base, workbook);
    assert items[..n] + items[n..] == items;
  }

  /** The workbook is either left as it was or holds a non-empty prefix of the rows: every
      save writes the rows collected up to that point. */
  lemma {:induction false} HarvestExportedIsSnapshot(items: seq<JobListItem>, block: JobListItem -> Option<Signals>,
                                                     fetch: JobListItem -> DetailOutcome, p: int, base: seq<Row>, prior: seq<Row>)
    ensures var e := HarvestExported(items, block, fetch, p, base, prior);
      e == prior || (e != [] && e <= base + HarvestJobs(items, fetch, p).rows)
    decreases |items|
  {
    if items != [] {
      var init, job := items[..|items| - 1], items[|items| - 1];
      HarvestExportedIsSnapshot(init, block, fetch, p, base, prior);
      HarvestExtends(init, [job], fetch, p);
      assert init + [job] == items;
      HarvestLedgerStep(init, job, block, fetch, p, None, base, prior);
      var all := base + HarvestJobs(items, fetch, p).rows;
      assert base + HarvestJobs(init, fetch, p).rows <= all;
    }
  }

  /** When no guard fires in any job, the workbook is left as it was. */
  lemma {:induction false} HarvestExportedUnblocked(items: seq<JobListItem>, block: JobListItem -> Option<Signals>,
                                                    fetch: JobListItem -> DetailOutcome, p: int, base: seq<Row>, prior: seq<Row>)
    requires forall k :: 0 <= k < |items| ==> block(items[k]).None?
    ensures HarvestExported(items, block, fetch, p, base, prior) == prior
    decreases |items|
  {
    if items != [] {
      var init, job := items[..|items| - 1], items[|items| - 1];
      assert forall k :: 0 <= k < |init| ==> init[k] == items[k];
      HarvestExportedUnblocked(init, block, fetch, p, base, prior);
      assert init + [job] == items;
      HarvestLedgerStep(init, job, block, fetch, p, None, base, prior);
    }
  }

  /** With no rows before the loop and none collected, no save writes anything. */
  lemma {:induction false} HarvestExportedEmpty(items: seq<JobListItem>, block: JobListItem -> Option<Signals>,
                                                fetch: JobListItem -> DetailOutcome, p: int, prior: seq<Row>)
    requires HarvestJobs(items, fetch, p).rows == []
    ensures HarvestExported(items, block, fetch, p, [], prior) == prior
    decreases |items|
  {
    if items != [] {
      var init, job := items[..|items| - 1], items[|items| - 1];
      HarvestExtends(init, [job], fetch, p);
      assert init + [job] == items;
      HarvestExportedEmpty(init, block, fetch, p, prior);
      HarvestLedgerStep(init, job, block, fetch, p, None, [], prior);
    }
  }
}
