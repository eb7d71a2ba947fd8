/** Resume and pagination arithmetic: which page a run resumes from, the address of a list
    page, and the order in which pages are visited. */
module Paging {
  import opened Common
  import opened Text

  /** The Applied-jobs list; later pages append `&start=<index>`. */
  const BaseUrl: string := "https://www.linkedin.com/my-items/saved-jobs/?cardType=APPLIED"
  const StartParam: string := "&start="
  /** Jobs per list page. */
  const PageSize: int := 10

  /** get_resume_start_page: the stored last page when it is an int inside
      [endPage, startPage], otherwise the configured start page. A stored value that is not
      an int (absent, or of another JSON type) is `None`. */
  function ResumeStartPage(lastPage: Option<int>, startPage: int, endPage: int): (r: int)
    ensures lastPage.Some? && endPage <= lastPage.value <= startPage ==> r == lastPage.value
    ensures !(lastPage.Some? && endPage <= lastPage.value <= startPage) ==> r == startPage
    ensures endPage <= startPage ==> endPage <= r <= startPage
  {
    if lastPage.Some? && endPage <= lastPage.value <= startPage then lastPage.value else startPage
  }

  /** get_page_url: page 1 is the base address; page n is the base address followed by
      `&start=` and the decimal (n-1)*10. */
  function PageUrl(n: int): (r: string)
    ensures n == 1 ==> r == BaseUrl
    // Later pages: the base address, `&start=`, then text that int() reads as (n-1)*10 and
    // that has no leading zero (an f-string renders a non-zero int without one).
    ensures n != 1 ==>
      var prefix := BaseUrl + StartParam;
      && |prefix| < |r| && r[..|prefix|] == prefix && ParseInt(r[|prefix|..]) == Some((n - 1) * PageSize)
      && r[|prefix|] != '0'
  {
    if n == 1 then BaseUrl
    else
      var prefix, digits := BaseUrl + StartParam, IntToDecimal((n - 1) * PageSize);
      IntRoundTrip((n - 1) * PageSize);
      assert (prefix + digits)[|prefix|..] == digits;
      assert digits[0] != '0';
      prefix + digits
  }

  /** The inverse reading: which page an address produced by PageUrl stands for. */
  function PageOfUrl(url: string): Option<int>
  {
    var prefix := BaseUrl + StartParam;
    if url == BaseUrl then Some(1)
    else if |prefix| <= |url| && url[..|prefix|] == prefix then
      match ParseInt(url[|prefix|..])
      case Some(offset) => if offset % PageSize == 0 then Some(offset / PageSize + 1) else None
      case None => None
    else None
  }

  /** Every page address reads back as its own page number. */
  lemma PageUrlRoundTrip(n: int)
    ensures PageOfUrl(PageUrl(n)) == Some(n)
  {
    if n != 1 {
      var prefix := BaseUrl + StartParam;
      var digits := IntToDecimal((n - 1) * PageSize);
      var url := PageUrl(n);
      assert url == prefix + digits;
      assert url != BaseUrl by { assert |url| > |BaseUrl|; }
      assert url[..|prefix|] == prefix && url[|prefix|..] == digits;
      IntRoundTrip((n - 1) * PageSize);
    }
  }

  /** Distinct pages have distinct addresses. */
  lemma PageUrlInjective(n: int, m: int)
    requires PageUrl(n) == PageUrl(m)
    ensures n == m
  {
    PageUrlRoundTrip(n);
    PageUrlRoundTrip(m);
  }

  /** The pages `range(from, to - 1, -1)` visits: from, from-1, ..., to (empty when from < to). */
  function PageRange(from: int, to: int): (r: seq<int>)
    ensures |r| == if from < to then 0 else from - to + 1
    ensures forall k :: 0 <= k < |r| ==> r[k] == from - k
    decreases from - to
  {
    if from < to then [] else [from] + PageRange(from - 1, to)
  }

  /** The pages visited so far by a loop that counts down from `from` are a prefix of the range. */
  lemma PageRangePrefix(from: int, to: int, visited: seq<int>)
    requires |visited| <= |PageRange(from, to)|
    requires forall k :: 0 <= k < |visited| ==> visited[k] == from - k
    ensures visited == PageRange(from, to)[..|visited|]
    ensures |visited| == |PageRange(from, to)| ==> visited == PageRange(from, to)
  {
  }

  /** A loop counting down from `from` towards `to` has visited `visited` and is about to
      visit `page`; once it has `stopped` early, it has visited at least one page. */
  ghost predicate CountedDown(from: int, to: int, visited: seq<int>, page: int, stopped: bool)
  {
    && page == from - |visited|
    && (page >= to - 1 || page == from)
    && (stopped ==> visited != [] && page >= to - 1)
    && (forall k :: 0 <= k < |visited| ==> visited[k] == from - k)
  }

  /** Visiting one more page of the range keeps the count. */
  lemma CountedDownStep(from: int, to: int, visited: seq<int>, page: int, stopped: bool)
    requires CountedDown(from, to, visited, page, false) && page >= to
    ensures CountedDown(from, to, visited + [page], page - 1, stopped)
  {
  }

  /** When the loop ends, it has visited a prefix of the range: all of it unless it stopped
      early, and at least one page if it did. */
  lemma {:induction false} CountedDownEnd(from: int, to: int, visited: seq<int>, page: int, stopped: bool)
    requires CountedDown(from, to, visited, page, stopped) && (stopped || page < to)
    ensures |visited| <= |PageRange(from, to)| && visited == PageRange(from, to)[..|visited|]
    ensures !stopped ==> visited == PageRange(from, to)
    ensures stopped ==> visited != []
  {
    PageRangePrefix(from, to, visited);
  }

  /** The visiting order is strictly decreasing and stays inside [to, from]. */
  lemma PageRangeDescending(from: int, to: int)
    ensures forall i, j :: 0 <= i < j < |PageRange(from, to)| ==> PageRange(from, to)[i] > PageRange(from, to)[j]
    ensures forall k :: 0 <= k < |PageRange(from, to)| ==> to <= PageRange(from, to)[k] <= from
  {
  }

  /** Resuming never visits a page outside the configured range. */
  lemma ResumeStaysInRange(lastPage: Option<int>, startPage: int, endPage: int)
    ensures forall p :: p in PageRange(ResumeStartPage(lastPage, startPage, endPage), endPage) ==> endPage <= p <= startPage
  {
  }
}
