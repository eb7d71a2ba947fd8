/** safe_get: navigate, poll for document readiness, refresh once if the page looks stuck,
    poll again, then optionally wait for a key element. Wall-clock polling becomes a finite
    sequence of poll answers (the polls that fit in the time budget); every driver call is an
    oracle answer that may have raised. */
module Navigation {
  import opened Common
  import opened Detectors

  /** One poll of the loop after the refresh: `_dom_ready()`, and, only when that answered
      ready, `_page_seems_stuck()`. */
  datatype RefreshPoll = RefreshPoll(ready: Probe<string>, stuck: StuckProbe)

  /** WebDriverWait for the post-wait element: found, timed out, or a driver error that the
      wait does not catch. */
  datatype ElementWait = Found | TimedOut | WaitRaised

  /** Everything the browser answers during one safe_get call. */
  datatype NavScript = NavScript(
    getRaises: bool,                  // driver.get
    readyPolls: seq<Probe<string>>,   // the readiness polls that fit in timeout_sec
    stuckAfterWait: StuckProbe,       // _page_seems_stuck after the first loop
    refreshRaises: bool,              // driver.refresh
    refreshPolls: seq<RefreshPoll>,   // the polls that fit in the 20 s after a refresh
    element: ElementWait,             // the post-wait element, when one is asked for
    stuckAfterElement: StuckProbe)    // _page_seems_stuck after the element wait timed out

  /** How a polling loop ends: the condition held, a poll raised, or time ran out. */
  datatype PollEnd = Settled | PollRaised | Exhausted

  /** The first loop: stop at the first poll that answers a ready state or raises. */
  function FirstWait(polls: seq<Probe<string>>): (r: PollEnd)
    ensures r == Exhausted <==> forall i :: 0 <= i < |polls| ==> polls[i].Answered? && !DomReady(polls[i].value)
    ensures r == PollRaised <==> exists i :: (&& 0 <= i < |polls| && polls[i].Raised?
      && forall j :: 0 <= j < i ==> polls[j].Answered? && !DomReady(polls[j].value))
    decreases |polls|
  {
    if polls == [] then Exhausted
    else
      var rest := FirstWait(polls[1..]);
      assert forall i :: 1 <= i < |polls| ==> polls[i] == polls[1..][i - 1];
      match polls[0]
      case Raised => PollRaised
      case Answered(state) => if DomReady(state) then Settled else rest
  }

  /** One poll after the refresh has settled the page: ready, and not stuck. */
  predicate PollSettles(p: RefreshPoll)
  {
    p.ready.Answered? && DomReady(p.ready.value) && !PageSeemsStuck(p.stuck)
  }

  /** The loop after the refresh: stop at the first poll that settles or raises. */
  function SecondWait(polls: seq<RefreshPoll>): (r: PollEnd)
    ensures r == Exhausted <==> forall i :: 0 <= i < |polls| ==> polls[i].ready.Answered? && !PollSettles(polls[i])
    ensures r == PollRaised <==> exists i :: (&& 0 <= i < |polls| && polls[i].ready.Raised?
      && forall j :: 0 <= j < i ==> polls[j].ready.Answered? && !PollSettles(polls[j]))
    decreases |polls|
  {
    if polls == [] then Exhausted
    else
      var rest := SecondWait(polls[1..]);
      assert forall i :: 1 <= i < |polls| ==> polls[i] == polls[1..][i - 1];
      if polls[0].ready.Raised? then PollRaised
      else if PollSettles(polls[0]) then Settled
      else rest
  }

  /** How a safe_get call ends: normally, or with the exception it raises. */
  datatype NavOutcome = Loaded | NavFault(fault: Fault)

  datatype NavResult = NavResult(outcome: NavOutcome, refreshes: nat)

  /** The stuck check after the first loop is reached: the get and every poll answered. */
  predicate ReachesStuckCheck(s: NavScript)
  {
    !s.getRaises && FirstWait(s.readyPolls) != PollRaised
  }

  /** A refresh is issued. */
  predicate Refreshes(s: NavScript)
  {
    ReachesStuckCheck(s) && PageSeemsStuck(s.stuckAfterWait)
  }

  /** The refresh branch ends with a driver error. */
  predicate RefreshFails(s: NavScript)
  {
    Refreshes(s) && (s.refreshRaises || SecondWait(s.refreshPolls) == PollRaised)
  }

  /** The element wait is reached. */
  predicate ReachesElementWait(s: NavScript, postWait: bool)
  {
    postWait && ReachesStuckCheck(s) && !RefreshFails(s)
  }

  /** safe_get, as a function of the browser's answers and of whether a post-wait element
      is given. */
  function Navigate(s: NavScript, postWait: bool): (r: NavResult)
    ensures r.refreshes <= 1
    ensures r.refreshes == 1 <==> Refreshes(s)
    ensures r.outcome == NavFault(RestartSession) <==>
      s.getRaises || FirstWait(s.readyPolls) == PollRaised || RefreshFails(s) ||
      (ReachesElementWait(s, postWait) && s.element == TimedOut && PageSeemsStuck(s.stuckAfterElement))
    ensures r.outcome == NavFault(UnexpectedError) <==> ReachesElementWait(s, postWait) && s.element == WaitRaised
    ensures r.outcome.NavFault? ==> r.outcome.fault in {RestartSession, UnexpectedError}
    ensures !postWait ==> (r.outcome == Loaded <==> ReachesStuckCheck(s) && !RefreshFails(s))
  {
    if s.getRaises || FirstWait(s.readyPolls) == PollRaised then NavResult(NavFault(RestartSession), 0)
    else
      var n := if PageSeemsStuck(s.stuckAfterWait) then 1 else 0;
      if n == 1 && (s.refreshRaises || SecondWait(s.refreshPolls) == PollRaised) then
        NavResult(NavFault(RestartSession), n)
      else if !postWait then NavResult(Loaded, n)
      else
        match s.element
        case Found => NavResult(Loaded, n)
        case WaitRaised => NavResult(NavFault(UnexpectedError), n)
        case TimedOut =>
          if PageSeemsStuck(s.stuckAfterElement) then NavResult(NavFault(RestartSession), n)
          else NavResult(Loaded, n)
  }

  /** A missing post-wait element is fatal only on a page that still seems stuck. */
  lemma ElementMissFailsOnlyWhenStuck(s: NavScript)
    requires ReachesElementWait(s, true) && s.element == TimedOut
    ensures Navigate(s, true).outcome == NavFault(RestartSession) <==> PageSeemsStuck(s.stuckAfterElement)
    ensures !PageSeemsStuck(s.stuckAfterElement) ==> Navigate(s, true).outcome == Loaded
  {
  }

  /** A page that answers ready on its first poll and shows no loader loads without a
      refresh. */
  lemma {:induction false} QuickLoad(s: NavScript, postWait: bool)
    requires !s.getRaises && |s.readyPolls| > 0 && s.readyPolls[0].Answered? && DomReady(s.readyPolls[0].value)
    requires s.stuckAfterWait == StuckProbe(s.readyPolls[0], Answered(false))
    requires s.element == Found
    ensures Navigate(s, postWait) == NavResult(Loaded, 0)
  {
    assert FirstWait(s.readyPolls) == Settled;
  }

  /** safe_get, polling in loops as the source does. */
  method SafeGet(s: NavScript, postWait: bool) returns (outcome: NavOutcome, refreshes: nat)
    ensures NavResult(outcome, refreshes) == Navigate(s, postWait)
  {
    refreshes := 0;
    if s.getRaises {
      return NavFault(RestartSession), refreshes;
    }
    var i := 0;
    while i < |s.readyPolls|
      invariant 0 <= i <= |s.readyPolls|
      invariant forall j :: 0 <= j < i ==> s.readyPolls[j].Answered? && !DomReady(s.readyPolls[j].value)
    {
      match s.readyPolls[i]
      case Raised =>
        return NavFault(RestartSession), refreshes;
      case Answered(state) =>
        if DomReady(state) {
          break;
        }
      i := i + 1;
    }
    if PageSeemsStuck(s.stuckAfterWait) {
      refreshes := refreshes + 1;
      if s.refreshRaises {
        return NavFault(RestartSession), refreshes;
      }
      var k := 0;
      while k < |s.refreshPolls|
        invariant 0 <= k <= |s.refreshPolls|
        invariant forall j :: 0 <= j < k ==> s.refreshPolls[j].ready.Answered? && !PollSettles(s.refreshPolls[j])
      {
        var p := s.refreshPolls[k];
        if p.ready.Raised? {
          return NavFault(RestartSession), refreshes;
        }
        if PollSettles(p) {
          break;
        }
        k := k + 1;
      }
    }
    outcome := Loaded;
    if postWait {
      match s.element
      case Found =>
      case WaitRaised =>
        outcome := NavFault(UnexpectedError);
      case TimedOut =>
        if PageSeemsStuck(s.stuckAfterElement) {
          outcome := NavFault(RestartSession);
        }
    }
  }
}
