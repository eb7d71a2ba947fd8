# LinkedIn applied-jobs scraper: the control core, in Dafny

`linkedin_job_scraper.py` drives a Chrome session through a user's "Applied jobs" list on
LinkedIn. It walks the list pages from a start page down to an end page. For each job it opens
the detail page, records a row (company, role, application date, description, PDF), and saves
a resume state after every job. It survives stuck pages, checkpoints and poisoned browser
profiles by restarting the session and, on a repeated failure, deleting the profile folder.

This project models the control core of that script and proves properties of it. Every
browser, disk and GUI call is replaced by an oracle answer supplied as a parameter:

- `Probe<T>` is an answer that may have raised.
- `NavScript` holds the answers during one `safe_get`.
- `PageWorld` holds one list page's answers.
- `Attempt` holds one pass of `run`'s loop.

The exceptions the script dispatches on are the tagged datatype `Fault`: `Checkpoint` (the
RuntimeError from `guard_not_blocked`), `RestartSession`, `KeyboardInterrupt` and
`UnexpectedError` (every other exception).

Modules, in dependency order:

- `Common`: Option, Probe, Fault.
- `Text`: the pieces of Python's string handling the core needs. These are decimal rendering
  and `int()`, `lower`, `strip`, `in`, `replace` and digit runs.
- `Paging`: `get_resume_start_page`, `get_page_url`, and the page order of `run`.
- `JobIds`: `extract_job_id_from_url` as a leftmost regular-expression match.
- `AppliedDate`: `parse_application_date` up to the `(amount, unit)` pair.
- `Export`: the 500-character summary and the PDF file name.
- `Detectors`: `_dom_ready`, `_page_seems_stuck` and `is_blocked_or_checkpoint`.
- `Navigation`: `safe_get`. This is a function over the poll answers plus a method that polls in
  loops and is proved equal to it.
- `Listing`: the deduplication gate of `get_jobs_from_list_page`, as a specification function.
- `Harvest`: `scrape_job_details` and the per-job loop of `scrape_page`, as specification
  functions.
- `Orchestration`: the decisions of `run`'s `except` clauses, as a pure step function, and the
  loop as a fold over attempt results.
- `Scraper`: the `LinkedInJobScraper` object as a class whose fields the methods update. These
  fields are the rows, the seen ids, the resume position, the poison strikes, the state file and
  the exported workbook. Each method is proved against the specification functions above.

The class keeps the invariant `Consistent`, which holds while state-file writes succeed. It says
that no job is collected twice, and that every collected job id is in both the in-memory and
the saved seen sets. Because of the second part, reloading the state after a restart never lets
a collected job through the gate again.

## Model

| member | source | states |
|---|---|---|
| Text.DecimalRoundTrip | linkedin_job_scraper.py:424 | `int()` of the decimal rendering of a natural number gives the number back |
| Text.IntRoundTrip | linkedin_job_scraper.py:386-387 | reading back the decimal rendering of any integer, negative ones included, gives the integer |
| Paging.ResumeStartPage | linkedin_job_scraper.py:294-301 | the stored last page exactly when it is an int inside [end_page, start_page], otherwise start_page; so with end_page <= start_page the result lies in that range |
| Paging.PageUrl | linkedin_job_scraper.py:383-387 | page 1 is the base address; any other page n is the base address plus `&start=` followed by text that `int()` reads as (n-1)*10 |
| Paging.PageUrlRoundTrip | linkedin_job_scraper.py:383-387 | every page address (page 1 the base address, page n the base address plus `&start=` and (n-1)*10) reads back as its page number |
| Paging.PageUrlInjective | linkedin_job_scraper.py:383-387 | distinct pages get distinct addresses |
| Paging.PageRange | linkedin_job_scraper.py:1006 | `range(resume_from, end_page - 1, -1)` has from-to+1 elements (none when from < to), the k-th being from-k |
| Paging.PageRangePrefix | linkedin_job_scraper.py:1006-1007 | pages visited one by one downwards from `resume_from` are a prefix of the range, and all of it once as many pages as the range holds were visited |
| Paging.PageRangeDescending | linkedin_job_scraper.py:1006 | the pages are strictly decreasing and lie in [to, from] |
| Paging.ResumeStaysInRange | linkedin_job_scraper.py:1004-1006 | resuming never visits a page outside [end_page, start_page] |
| JobIds.FirstMatchFrom | linkedin_job_scraper.py:394 | the leftmost position at or after i where `/jobs/view/` is followed by a digit, or none when there is no such position |
| JobIds.ExtractJobId | linkedin_job_scraper.py:393-395 | "unknown" exactly when the pattern matches nowhere; otherwise the whole digit run after the leftmost match |
| JobIds.ExtractFromViewUrl | linkedin_job_scraper.py:390-395 | a job address `<host>/jobs/view/<digits><rest>` yields exactly the digits, for a host without the letter `j` (so that no earlier match can start in it) and a rest that does not start with a digit |
| JobIds.ExampleJobId | linkedin_job_scraper.py:390-392 | the source comment's example address yields "3928472391" |
| AppliedDate.UnitAt | linkedin_job_scraper.py:420 | the alternation `(mo\|yr\|w\|d)` picks a unit only where that unit's short form occurs, and finds none only where no unit's short form occurs |
| AppliedDate.FirstAmountFrom | linkedin_job_scraper.py:420 | re.search: the match at the leftmost position where the pattern matches, or none when it matches nowhere |
| AppliedDate.ParseFindsFirstMatch | linkedin_job_scraper.py:409-422 | empty text gives no date; otherwise a date is the pattern match at the leftmost matching position of the lower-cased, stripped, rewritten text, and no date means the pattern matches nowhere in it |
| AppliedDate.NormalizeNoUpper | linkedin_job_scraper.py:412-418 | the text the pattern is searched in has no upper-case letter: lower-casing removes them, and neither stripping nor the eight `replace` calls bring any back |
| AppliedDate.RewriteNoUpper | linkedin_job_scraper.py:415-418 | the eight `replace` calls bring no upper-case letter into a lower-case text |
| AppliedDate.RewriteKeepsPrefix | linkedin_job_scraper.py:415-418 | the eight `replace` calls leave a prefix of digits and whitespace untouched |
| AppliedDate.ParseShortForm | linkedin_job_scraper.py:401-425 | "<n><spaces><unit>" ("11mo", "2w", "1 yr") parses to (n, unit) |
| AppliedDate.ParseLongForm | linkedin_job_scraper.py:401-425 | "<n> <plural unit> ago" ("11 months ago", "3 days ago") parses to (n, unit) |
| AppliedDate.ParseAfterPrefix | linkedin_job_scraper.py:401-425 | a text made of a word prefix without digits or unit words, a number, spaces, a unit (short or plural) and " ago" parses to (number, unit) |
| AppliedDate.SubmittedMonthsAgo | linkedin_job_scraper.py:404 | the docstring example "Application submitted 11 months ago" parses to (11, months) |
| AppliedDate.AppliedMonthsAgo | linkedin_job_scraper.py:405 | the docstring example "Applied 11mo ago" parses to (11, months) |
| AppliedDate.AppliedWeeksAgo | linkedin_job_scraper.py:406 | the docstring example "Applied 2w ago" parses to (2, weeks) |
| AppliedDate.YearAgo | linkedin_job_scraper.py:407 | the docstring example "1 yr ago" parses to (1, years) |
| Export.Summary | linkedin_job_scraper.py:680 | a description of at most 500 characters is returned unchanged, and a longer one becomes its first 500 characters followed by "..." |
| Export.SummaryIdempotent | linkedin_job_scraper.py:680 | summarising a summary changes nothing |
| Export.Sanitize | linkedin_job_scraper.py:699-700 | the result has no character of `<>:"/\|?*`, and holds exactly the other characters of the input |
| Export.SanitizeConcat | linkedin_job_scraper.py:699-700 | sanitising a concatenation sanitises each part |
| Export.SanitizeIdempotent | linkedin_job_scraper.py:699-700 | sanitising twice is sanitising once |
| Export.PdfFileName | linkedin_job_scraper.py:699-701 | the name is exactly the sanitised company cut to 50 characters, "_", the sanitised role cut to 60 characters, "_", the job id and ".pdf"; so it ends in "<job_id>.pdf" and its length is bounded by the caps |
| Export.PdfFileNameClean | linkedin_job_scraper.py:699-701 | with a numeric job id, the file name contains no forbidden character |
| Detectors.PageSeemsStuck | linkedin_job_scraper.py:780-812 | when both probes answer: stuck iff the DOM is not ready and a loader is showing (so never stuck on a ready DOM); stuck whenever either probe raises |
| Detectors.AnyMarker | linkedin_job_scraper.py:341-349 | the selector scan answers true iff some selector's lookup found an element, a raising lookup counting as nothing found |
| Detectors.BlockedSignals | linkedin_job_scraper.py:310-349 | blocked iff the lower-cased address contains `/checkpoint/` or `/challenge/`, or the lower-cased title contains "linkedin security verification" or "checkpoint", or one of the seven strong selectors found an element (a missing address or title read as "") |
| Detectors.RaisedLookupIsAbsence | linkedin_job_scraper.py:341-347 | the classifier answers exactly as if every raising lookup had found nothing |
| Detectors.AllLookupsRaising | linkedin_job_scraper.py:319-349 | with no address or title signal and every lookup raising, the page is not blocked |
| Detectors.CaseInsensitive | linkedin_job_scraper.py:319-328 | the verdict does not depend on the case of the address or the title |
| Detectors.MarkerSuffices | linkedin_job_scraper.py:331-345 | any one strong selector finding an element makes the page blocked |
| Detectors.CheckpointUrlSuffices | linkedin_job_scraper.py:319-324 | an address containing `/checkpoint/` makes the page blocked, whatever it shows |
| Navigation.FirstWait | linkedin_job_scraper.py:827-835 | the readiness loop runs out exactly when every poll answered not ready, and raises exactly when a poll raised before any ready answer |
| Navigation.SecondWait | linkedin_job_scraper.py:844-852 | the loop after the refresh runs out exactly when no poll settled, and raises exactly when a poll raised before one settled |
| Navigation.Navigate | linkedin_job_scraper.py:814-863 | at most one refresh, issued iff the page seems stuck after the first loop; RestartSession iff the get, a poll or the refresh raised, or the post-wait element is missing on a page that still seems stuck |
| Navigation.SafeGet | linkedin_job_scraper.py:814-863 | the polling loops end with exactly Navigate's outcome and refresh count |
| Navigation.ElementMissFailsOnlyWhenStuck | linkedin_job_scraper.py:855-863 | a missing post-wait element raises RestartSession iff the page still seems stuck, and otherwise the call returns normally |
| Navigation.QuickLoad | linkedin_job_scraper.py:822-838 | a page that is ready on the first poll and shows no loader loads with no refresh |
| Listing.Admit | linkedin_job_scraper.py:472-557 | an anchor yields an item iff it has a non-empty address whose id is known and unseen and its card could be read |
| Listing.Gate | linkedin_job_scraper.py:472-557 | no returned id is "unknown" or was seen before, the returned ids are pairwise distinct, and the seen set becomes the old set plus exactly the returned ids |
| Listing.GateTwice | linkedin_job_scraper.py:479-483 | listing a page again against the seen set the first listing left yields nothing |
| Listing.GateComplete | linkedin_job_scraper.py:479-552 | every anchor with a known id and a readable card ends up in the seen set |
| Harvest.PdfOf | linkedin_job_scraper.py:670-674 | a PDF is produced iff the month was parsed, save_as_pdf's guard passes and printing succeeds, under the sanitised file name |
| Harvest.FetchDetailOutcome | linkedin_job_scraper.py:586-686 | fails iff navigation fails (with its exception), the page is a checkpoint (Checkpoint) or extraction raises; a fetched row carries the job's address and id, the page title or else the role hint or "Unknown Role", the company link's text when non-empty or else the hint or "Unknown Company", the description or "Description not available" and its summary, the calendar date of the parsed applied text or else that text, and a PDF only as PdfOf allows |
| Harvest.DetailBlockOutcome | linkedin_job_scraper.py:586-722 | a guard that fires while a job's details are fetched sees a checkpoint page; the one after the navigation ends the fetch with Checkpoint, the one inside save_as_pdf only leaves the row without a PDF |
| Harvest.HarvestJobs | linkedin_job_scraper.py:947-966 | at most one row per job, and every row tagged with the page |
| Harvest.FailingJobIsSkipped | linkedin_job_scraper.py:951-963 | a job failing with anything but KeyboardInterrupt adds nothing and leaves the jobs after it exactly as if it were absent |
| Harvest.HarvestExtends | linkedin_job_scraper.py:947-966 | rows already collected are never changed by the jobs that follow |
| Harvest.HarvestDistinct | linkedin_job_scraper.py:947-966 | distinct job ids give rows with distinct job ids |
| Harvest.HarvestRowsFromItems | linkedin_job_scraper.py:947-957 | every row is the fetched row of one of the listed jobs, tagged with the page |
| Harvest.HarvestInterrupted | linkedin_job_scraper.py:951-963 | the loop is cut short iff one of the listed jobs raises KeyboardInterrupt |
| Harvest.HarvestKeepsFetched | linkedin_job_scraper.py:947-957 | a job fetched before any KeyboardInterrupt contributes its tagged row, right after the rows of the jobs before it |
| Harvest.HarvestCutShort | linkedin_job_scraper.py:947-966 | a KeyboardInterrupt among the first n jobs ends the loop with the rows, the last address and the workbook of those n jobs |
| Harvest.HarvestExportedIsSnapshot | linkedin_job_scraper.py:947-966 | after the job loop the workbook is the one before it or a non-empty prefix of the rows, since a guard firing inside the loop saves the rows collected so far |
| Harvest.HarvestExportedUnblocked | linkedin_job_scraper.py:947-966 | when no guard fires for any job, the job loop leaves the workbook as it was |
| Harvest.HarvestExportedEmpty | linkedin_job_scraper.py:736-738 | with no rows before the loop and none collected in it, no save writes the workbook |
| Orchestration.Step | linkedin_job_scraper.py:1015-1079 | only checkpoints and session restarts count a restart; the loop stops with "too many" exactly on the 7th; interrupt, unexpected error and completion stop without counting; a session restart with at most one strike reuses the profile, otherwise it resets the profile and clears the strikes |
| Orchestration.PlayAppend | linkedin_job_scraper.py:980-1069 | one more attempt on a loop that has not stopped takes exactly one more step |
| Orchestration.RunningBudget | linkedin_job_scraper.py:1026-1046 | while the loop keeps going each attempt has cost one restart, the budget holds, and the strikes stay at most one |
| Orchestration.AttemptBound | linkedin_job_scraper.py:977-1049 | from a fresh counter the loop has stopped after at most MAX_RESTARTS + 1 attempts |
| Orchestration.SecondStrikeResets | linkedin_job_scraper.py:996-1059 | a first failed health check reuses the profile; a second one, with only pre-health restarts between them, resets it |
| Scraper.ListPageSpec | linkedin_job_scraper.py:916-973 | a checkpoint after the get raises Checkpoint; a missing list skips the page with no error; a checkpoint after the scroll raises Checkpoint with no rows; a visible list that is not ready is an unexpected error; the page is listed iff all of these pass, and then its items are Gate's and it ends with an error only on KeyboardInterrupt; every row is tagged with the page |
| Scraper.ScrapePageSpec | linkedin_job_scraper.py:899-914 | the page is entered iff the navigation succeeds, and otherwise adds nothing and raises the navigation's exception |
| Scraper.ListPageExportShape | linkedin_job_scraper.py:916-973 | once the page has loaded, the workbook is the one before it or a non-empty prefix of the rows, and a page listed without error leaves every row saved (or the old workbook when there are none) |
| Scraper.SweepStopsAtFault | linkedin_job_scraper.py:1006-1007 | once a page has raised, the pages listed after it change nothing |
| Scraper.SweepRangeStops | linkedin_job_scraper.py:1006-1007 | the loop over the whole range ends where the loop over its prefix raised |
| Scraper.SweepTagged | linkedin_job_scraper.py:1006-1007 | every row the page loop adds carries the number of a visited page, and over descending pages the rows' page numbers never increase |
| Scraper.LastEnteredIsLoaded | linkedin_job_scraper.py:1006-1007 | the resume page after the page loop is the one before it when no visited page loaded, and otherwise a visited page that loaded |
| Scraper.TraceFitsEach | linkedin_job_scraper.py:980-1013 | every attempt's result is the one its own answers call for, a healthy attempt ending in completion or in a failure of the page loop |
| Scraper.LoginFault | linkedin_job_scraper.py:149-179 | navigation faults propagate; a missing list on a non-checkpoint page escapes as an unexpected error; a Checkpoint is raised iff both classifier calls see a checkpoint |
| Scraper.Scraper.constructor | linkedin_job_scraper.py:58-97 | nothing collected, nothing seen, no resume position, no strikes |
| Scraper.Scraper.SaveState | linkedin_job_scraper.py:245-265 | a successful write stores the current snapshot; a failed one leaves the old file |
| Scraper.Scraper.LoadState | linkedin_job_scraper.py:268-289 | with a state file the resume position and the seen set are replaced by the saved ones, otherwise nothing changes |
| Scraper.Scraper.SaveToExcel | linkedin_job_scraper.py:730-777 | the workbook becomes the rows, except that with no rows nothing is written |
| Scraper.Scraper.GuardNotBlocked | linkedin_job_scraper.py:351-376 | reports a block iff the classifier does; a block records the address and saves the workbook and the state, otherwise nothing changes |
| Scraper.Scraper.GetJobsFromListPage | linkedin_job_scraper.py:472-557 | the loop returns exactly Gate's items and leaves exactly Gate's seen set |
| Scraper.Scraper.SaveAsPdf | linkedin_job_scraper.py:688-722 | a PDF reference iff the guard passes and printing succeeds, under the sanitised file name; without a checkpoint the address, the workbook and the state are unchanged, and on one the checkpoint address is recorded, the rows (if any) are saved to the workbook and the blocked state is written |
| Scraper.Scraper.ScrapeJobDetails | linkedin_job_scraper.py:586-686 | the outcome is exactly FetchDetail's and a fetched row carries the job's id; nothing is recorded unless a guard fires, and a guard that fires records the checkpoint page's address, saves the rows (if any) to the workbook and writes the blocked state |
| Scraper.Scraper.FetchJob | linkedin_job_scraper.py:950-963 | one body of the job loop: the outcome is the job's fetch, a fetched row is appended tagged with the page, the last address becomes the job's own, a checkpoint page's, or stays, and the workbook is saved only when a guard fires; a fetched job's state file records the job (SavedAfterJob with its id and page, and its address), and one not fetched leaves it or holds the blocked state |
| Scraper.Scraper.HarvestNext | linkedin_job_scraper.py:947-963 | after job i the rows are HarvestJobs's over the first i+1 jobs, the loop stops iff that job raised KeyboardInterrupt, and the address and the workbook take that job's step; when that job is fetched the state file records it (SavedAfterJob), otherwise the file is kept or holds the blocked state |
| Scraper.Scraper.HarvestPage | linkedin_job_scraper.py:947-966 | the loop appends exactly HarvestJobs's rows, stops exactly on an interrupt, leaves the last address HarvestTrail's and the workbook HarvestExported's, and keeps the invariant |
| Scraper.Scraper.CollectJobs | linkedin_job_scraper.py:938-966 | the list is read through the gate (the seen set becomes Gate's) and its items go through the job loop, with HarvestJobs's rows, HarvestTrail's address and HarvestExported's workbook |
| Scraper.Scraper.ListPage | linkedin_job_scraper.py:916-973 | once the page is recorded: rows, exception and seen set are ListPageSpec's, the address ListPageTrail's and the workbook ListPageExport's; a page that is not listed writes the blocked state iff a guard fired, and the state keeps the page |
| Scraper.Scraper.ListReadyPage | linkedin_job_scraper.py:935-973 | after both guards passed on a visible list: rows, exception, seen set, address and workbook as ListPage states them, and a list that is not ready leaves the state file alone |
| Scraper.Scraper.EnterPage | linkedin_job_scraper.py:912-973 | the page is recorded with its own address and saved as the resume page; then rows, exception and seen set are ListPageSpec's, the address ListPageTrail's from the page's address, and the workbook ListPageExport's, which is the old one or a prefix of the rows and all of them after a page listed without error |
| Scraper.Scraper.ScrapePage | linkedin_job_scraper.py:899-973 | rows, exception, seen set and resume position are exactly ScrapePageSpec's and an entered page is saved as the resume page; a page that loads ends with ListPageTrail's address and ListPageExport's workbook, one that does not changes neither nor the state; the workbook is the old one or a prefix of the rows, and a page listed without error is saved at its end (line 972) |
| Scraper.Scraper.VisitPage | linkedin_job_scraper.py:1006-1007 | one pass of the page loop keeps the loop's ledger: rows, seen set, resume page and workbook are the loop's over the pages visited so far plus this one, and the exception is the loop's |
| Scraper.Scraper.ScrapePages | linkedin_job_scraper.py:1006-1007 | the rows, the seen set and the exception are exactly the page loop's over the visited pages, each page scraped as ScrapePage does with that page's answers; the resume page is the last visited page that loaded, the workbook the old one or a prefix of the rows; the visited pages are a prefix of `range(resume_from, end_page - 1, -1)`, all of it without an exception, and not empty with one |
| Scraper.Scraper.SaveOnCompletion | linkedin_job_scraper.py:1009-1010 | the rows (if any) are saved to the workbook and a "completed" state is written, leaving the page loop's ledger as it was |
| Scraper.Scraper.ScrapeFromResume | linkedin_job_scraper.py:1004-1010 | starts at get_resume_start_page's page; the rows, the seen set, the resume page and the exception are the page loop's over the visited pages; without an exception every page down to end_page was scraped, every row was saved to the workbook and a "completed" state was written |
| Scraper.Scraper.ManualLogin | linkedin_job_scraper.py:149-179 | the exception raised is exactly LoginFault's; a Checkpoint records the checkpoint page's address, saves the rows (if any) to the workbook and writes the blocked state, and any other ending leaves the address, the workbook and the state unchanged |
| Scraper.Scraper.ProfileHealthy | linkedin_job_scraper.py:186-203 | healthy iff the feed loads and is not a checkpoint, any exception counting as unhealthy |
| Scraper.Scraper.RestartBrowserSession | linkedin_job_scraper.py:865-894 | saves the workbook and the state, then quits the driver |
| Scraper.Scraper.ResetProfile | linkedin_job_scraper.py:206-227 | quits the driver and deletes the profile folder once |
| Scraper.Scraper.StartSession | linkedin_job_scraper.py:989-1002 | the attempt fails before its health check exactly with the driver's or login's exception, fails the health check iff the profile is unhealthy, and updates the strikes as the health check dictates; the driver is open iff it started or was open; only the login's checkpoint guard saves anything, and a good start changes neither workbook nor state |
| Scraper.Scraper.Begin | linkedin_job_scraper.py:989-1002 | load_state then the start: a failed start fits the attempt's answers, a healthy one fits them whether the page loop completes or fails, and the seen set and the resume page are the reloaded ones |
| Scraper.Scraper.RunAttempt | linkedin_job_scraper.py:981-1013 | the result is the one the attempt's answers call for (after a healthy start only completion or a failure in the page loop), and the strikes are updated as the health check dictates; before a healthy start no page is scraped and the seen set and resume page are the reloaded ones; after one, the rows, the seen set, the resume page and the exception are the page loop's from the reloaded resume page against the reloaded seen set, a completed attempt scraped every page down to end_page and saved every row and a "completed" state, and a failed one scraped a non-empty prefix of them |
| Scraper.Scraper.AttemptOnce | linkedin_job_scraper.py:981-1013 | the result fits the attempt's answers and the strikes follow it; a completed attempt scraped every page from load_state's resume page down to end_page, one that failed before the health check scraped none, and the rows and the pages scraped only grow |
| Scraper.Scraper.Recover | linkedin_job_scraper.py:1015-1089 | the except clauses stop exactly when Step stops, with its exit, leave its strike and reset counts, and always quit the driver; an interrupt or an unexpected error saves the workbook and the state, a RuntimeError saves the state, running out of restarts saves the state, a reused profile saves both through restart_browser_session, and a profile reset saves nothing |
| Scraper.Scraper.RunPass | linkedin_job_scraper.py:980-1089 | one pass of the loop: the result fits its answers and the loop's state after it is Play's over the results so far; it completes iff the attempt succeeded, having then scraped every page from load_state's resume page down to end_page, and it runs out of restarts only from the last allowed restart |
| Scraper.Scraper.Run | linkedin_job_scraper.py:976-1089 | every attempt's result is the one its answers call for; the exit, strikes and resets are Play's over those results; 1 to 7 attempts, exactly 7 when the budget runs out; completed iff the last attempt succeeded, and then the last attempt scraped every page from its resume page (start_page or one in [end_page, start_page]) down to end_page, where the resume page is ResumeStartPage of the page the completing attempt reloaded; rows and the pages scraped only grow and the invariant holds |

## Left out

- Selenium itself (driver set-up, `find_element(s)`, scrolling, the CDP print call and its
  base64 decoding): every answer is an oracle parameter.
- The reads of `driver.current_url` and `driver.title` in `is_blocked_or_checkpoint` (lines
  319-320) and `guard_not_blocked` (lines 358-360), and the `execute_script` scroll calls of
  `scrape_page` (lines 928-935), never raise in the model. A driver error there would escape
  as an unexpected error; only the element lookups carry a `Probe` that may raise.
- The DOM heuristics for the card hints and for the detail-page fields (title, company, the
  "Application submitted" notice, the description containers, lines 486-540 and 598-668) are
  oracle answers in `Hints` and `DetailPage`. Only how they are combined is modelled.
- Wall-clock polling and the random delays: a polling loop is a finite sequence of poll
  answers, the ones that fit in its time budget.
- The calendar step of `parse_application_date` (relativedelta in the Singapore time zone,
  strftime, lines 427-438) is an oracle from `(amount, unit)` to the date and month strings.
- Disk I/O: the state file is a record value whose writes either all succeed or all fail (a
  constant of the object). The save timestamp is dropped. JSON typing of `last_page` is
  `Option<int>`. A state file that exists but cannot be read (lines 290-291) is not modelled.
  Excel writing always succeeds, and PDF bytes become a `PdfRef`.
- Scraper.Scraper.Run: the no-duplicate-rows invariant is proved only while state writes
  succeed, because `load_state` replaces the seen set by the saved one, which is stale after a
  failed write.
- `notify_topmost` (tkinter), the blocking `input()` beyond its KeyboardInterrupt, printing and
  logging, and the console re-encoding are UI concerns and are not modelled.
- KeyboardInterrupt is modelled at the login prompt and inside the per-job loop only, where
  `Attempt` and `DetailScript` can carry it.
- Navigation.Navigate: every exception in the readiness polls is taken as one of the driver
  errors `safe_get` catches. A different exception type escaping those polls is not modelled.
- Lower-casing, whitespace and digits are ASCII-only. Whitespace is the space, tab through
  carriage return, and the separators U+001C to U+001F. Python's Unicode case mapping and the
  non-ASCII characters its `\d`, `\s` and `strip` accept are not modelled.
- Text.ReplaceAll: `str.replace` with an empty pattern is not modelled, since every pattern the
  core uses is non-empty.
- Scraper.Scraper.VisitPage and Scraper.Scraper.AttemptOnce forward ScrapePage and RunAttempt
  with only what the loops in ScrapePages and Run need. The full contracts are on the
  forwarded methods.
- Harvest.FetchDetail: the calendar oracle is total. relativedelta raises for a date before
  year 1, for example on the applied text "3000 yr ago" (lines 427-434), and the per-job
  `except` at line 962 then skips the job. The model yields a row for it.
- Listing.Admit: a raising address or hints lookup is taken as a skipped anchor. The source
  catches only StaleElementReferenceException and NoSuchElementException there (line 554), so
  any other driver error escapes `get_jobs_from_list_page`.
- Scraper.Scraper.ListPage, and through it ScrapePage, EnterPage, ListReadyPage, CollectJobs
  and HarvestPage: after a listed page the state file is stated only as recording the page as
  the resume page. Which snapshot it holds (the last fetched job's save or a guard's) is not
  stated. Each job's own save is stated on FetchJob and HarvestNext.
- Scraper.Scraper.ScrapePages, and through it ScrapeFromResume and RunAttempt: the last address
  and the exact snapshot in the state file after the page loop are not stated. ScrapePage
  states the address for each page, and the state file as recording the page entered.
- Ids are marked seen at listing time, as the source does. A job whose detail fetch fails is
  therefore never retried, in this run or after a restart. This is modelled, not corrected.
