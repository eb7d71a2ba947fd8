/** The two page classifiers: the "stuck page" heuristic (`_dom_ready`, `_page_seems_stuck`)
    and the checkpoint classifier (`is_blocked_or_checkpoint`). Every browser query is an
    oracle answer that may also have raised. */
module Detectors {
  import opened Common
  import opened Text

  /** `_dom_ready`: document.readyState is "complete" or "interactive". */
  predicate DomReady(state: string)
  {
    state == "complete" || state == "interactive"
  }

  /** The two script answers `_page_seems_stuck` asks for: the readiness state and whether a
      loader or progress element is present. */
  datatype StuckProbe = StuckProbe(readyState: Probe<string>, loader: Probe<bool>)

  /** `_page_seems_stuck`: stuck when the document is not ready and a loader is showing;
      a probe that raises makes the page count as stuck (the session may be unresponsive). */
  function PageSeemsStuck(p: StuckProbe): (r: bool)
    ensures p.readyState.Raised? || p.loader.Raised? ==> r
    ensures p.readyState.Answered? && DomReady(p.readyState.value) && p.loader.Answered? ==> !r
    ensures p.readyState.Answered? && p.loader.Answered? ==>
      (r <==> !DomReady(p.readyState.value) && p.loader.value)
  {
    match p.readyState
    case Raised => true
    case Answered(state) =>
      match p.loader
      case Raised => true
      case Answered(hasLoader) => !DomReady(state) && hasLoader
  }

  /** How `is_blocked_or_checkpoint` looks an element up. */
  datatype Selector = Css(css: string) | XPath(xpath: string)

  /** The strong DOM markers of a checkpoint page, in the order they are tried. */
  const StrongSelectors: seq<Selector> := [
    Css("input[name='pin']"),
    Css("input[name='challengeId']"),
    Css("div#captcha-internal"),
    Css("div.recaptcha"),
    XPath("//*[contains(., 'unusual activity')]"),
    XPath("//*[contains(., 'security verification')]"),
    XPath("//*[contains(., 'prove you are')]")
  ]

  /** What the browser shows when the classifier runs: the current address and title (either
      may be absent) and, for each selector, whether `find_elements` found anything or raised. */
  datatype Signals = Signals(url: Option<string>, title: Option<string>, lookup: Selector -> Probe<bool>)

  /** Python's `x or ""` on an optional string. */
  function OrEmpty(s: Option<string>): (r: string)
    ensures s.Some? ==> r == s.value
    ensures s.None? ==> r == []
  {
    if s.Some? then s.value else ""
  }

  /** The address tests, on the lower-cased address. */
  predicate UrlSignal(url: string)
  {
    Contains(url, "/checkpoint/") || Contains(url, "/challenge/")
  }

  /** The title tests, on the lower-cased title. */
  predicate TitleSignal(title: string)
  {
    Contains(title, "linkedin security verification") || Contains(title, "checkpoint")
  }

  /** The any-match over the marker lookups; a lookup that raised is skipped as if it found
      nothing. */
  function AnyMarker(sels: seq<Selector>, lookup: Selector -> Probe<bool>): (r: bool)
    ensures r <==> exists i :: 0 <= i < |sels| && lookup(sels[i]) == Answered(true)
    decreases |sels|
  {
    if sels == [] then false
    else if lookup(sels[0]) == Answered(true) then true
    else
      var r := AnyMarker(sels[1..], lookup);
      assert forall i :: 1 <= i < |sels| ==> sels[i] == sels[1..][i - 1];
      r
  }

  /** Some strong selector found an element. */
  predicate MarkerFound(lookup: Selector -> Probe<bool>)
  {
    exists i :: 0 <= i < |StrongSelectors| && lookup(StrongSelectors[i]) == Answered(true)
  }

  /** is_blocked_or_checkpoint: the address tests, then the title tests, then the selector
      scan, which AnyMarker models and which finds a marker exactly when MarkerFound holds. */
  predicate IsBlockedOrCheckpoint(s: Signals)
  {
    UrlSignal(Lower(OrEmpty(s.url))) || TitleSignal(Lower(OrEmpty(s.title))) || MarkerFound(s.lookup)
  }

  /** is_blocked_or_checkpoint holds exactly when one of the four phrases occurs somewhere in
      the lower-cased address or title, or some strong selector found an element. */
  lemma BlockedSignals(s: Signals)
    ensures var url, title := Lower(OrEmpty(s.url)), Lower(OrEmpty(s.title));
      IsBlockedOrCheckpoint(s) <==>
        || (exists i: nat :: i <= |url| && OccursAt(url, "/checkpoint/", i))
        || (exists i: nat :: i <= |url| && OccursAt(url, "/challenge/", i))
        || (exists i: nat :: i <= |title| && OccursAt(title, "linkedin security verification", i))
        || (exists i: nat :: i <= |title| && OccursAt(title, "checkpoint", i))
        || (exists i :: 0 <= i < |StrongSelectors| && s.lookup(StrongSelectors[i]) == Answered(true))
  {
  }

  /** The selector scan of is_blocked_or_checkpoint answers MarkerFound. */
  lemma ScanFindsMarker(lookup: Selector -> Probe<bool>)
    ensures AnyMarker(StrongSelectors, lookup) == MarkerFound(lookup)
  {
  }

  /** The lookups with every raised answer read as "nothing found". */
  function FailOpen(lookup: Selector -> Probe<bool>): Selector -> Probe<bool>
  {
    sel => if lookup(sel).Raised? then Answered(false) else lookup(sel)
  }

  /** A lookup that raises never decides the verdict: the classifier answers exactly as if the
      lookup had found nothing. */
  lemma RaisedLookupIsAbsence(s: Signals)
    ensures IsBlockedOrCheckpoint(s) == IsBlockedOrCheckpoint(s.(lookup := FailOpen(s.lookup)))
  {
    var t := s.(lookup := FailOpen(s.lookup));
    forall i | 0 <= i < |StrongSelectors|
      ensures s.lookup(StrongSelectors[i]) == Answered(true) <==> t.lookup(StrongSelectors[i]) == Answered(true)
    {
    }
  }

  /** With every lookup raising and no address or title signal, the page is not blocked. */
  lemma AllLookupsRaising(s: Signals)
    requires forall sel :: s.lookup(sel).Raised?
    requires !UrlSignal(Lower(OrEmpty(s.url))) && !TitleSignal(Lower(OrEmpty(s.title)))
    ensures !IsBlockedOrCheckpoint(s)
  {
  }

  /** The classifier does not depend on the case of the address or the title. */
  lemma CaseInsensitive(s: Signals)
    ensures IsBlockedOrCheckpoint(s) ==
            IsBlockedOrCheckpoint(s.(url := Some(Lower(OrEmpty(s.url))), title := Some(Lower(OrEmpty(s.title)))))
  {
    LowerIdempotent(OrEmpty(s.url));
    LowerIdempotent(OrEmpty(s.title));
  }

  /** Any of the strong selectors finding an element is enough, whatever the address. */
  lemma MarkerSuffices(s: Signals, i: nat)
    requires i < |StrongSelectors| && s.lookup(StrongSelectors[i]) == Answered(true)
    ensures IsBlockedOrCheckpoint(s)
  {
  }

  /** A checkpoint address is enough, whatever the page shows. */
  lemma {:induction false} CheckpointUrlSuffices(s: Signals, host: string, path: string, marker: string)
    requires marker == "/checkpoint/" && s.url == Some(host + marker + path)
    ensures IsBlockedOrCheckpoint(s)
  {
    var url := host + marker + path;
    var low := Lower(url);
    assert low[|host|..|host| + |marker|] == marker by {
      forall k | 0 <= k < |marker| ensures low[|host| + k] == marker[k] {
        assert url[|host| + k] == marker[k];
      }
    }
    assert OccursAt(low, marker, |host|);
  }
}
