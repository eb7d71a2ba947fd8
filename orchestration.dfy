/** The control decisions of `run`'s outer loop: the restart budget, the poison-strike count
    and the choice of remedy, as a function of how each attempt ended. */
module Orchestration {
  import opened Common

  /** MAX_RESTARTS. */
  const MaxRestarts: nat := 6

  /** How one pass of the loop body ended. */
  datatype AttemptResult =
    | Succeeded                        // every page scraped, results saved
    | FailedBeforeHealth(fault: Fault) // raised while starting the browser or logging in
    | HealthFailed                     // profile_healthy() was False: RestartSession is raised
    | FailedAfterHealth(fault: Fault)  // raised while scraping pages

  /** The loop's counters: the local `restarts`, the field `profile_poison_strikes`, and how
      many times the profile folder was deleted. */
  datatype Control = Control(restarts: nat, strikes: nat, resets: nat)

  /** What the loop does before the next attempt. */
  datatype Remedy =
    | Relogin        // checkpoint: the driver is quit, a fresh session logs in again
    | ReuseProfile   // restart_browser_session: same profile folder
    | ResetProfile   // reset_profile: the profile folder is deleted

  /** How `run` returns: normally after completing, after an interrupt, after too many
      restarts, or by re-raising an unexpected error. */
  datatype Exit = Completed | Interrupted | TooManyRestarts | Propagated

  datatype Verdict = Retry(remedy: Remedy) | Stop(exit: Exit)

  datatype Decision = Decision(next: Control, verdict: Verdict)

  /** The strike count once the attempt's health check (if it ran) has had its effect. */
  function StrikesAfter(c: Control, a: AttemptResult): nat
  {
    match a
    case FailedBeforeHealth(_) => c.strikes
    case HealthFailed => c.strikes + 1
    case _ => 0
  }

  /** The exception the attempt ended with, if any. */
  function FaultOf(a: AttemptResult): Option<Fault>
  {
    match a
    case Succeeded => None
    case HealthFailed => Some(RestartSession)
    case FailedBeforeHealth(f) => Some(f)
    case FailedAfterHealth(f) => Some(f)
  }

  /** One pass of the except clauses. */
  function Step(c: Control, a: AttemptResult): (d: Decision)
    // Only checkpoints and session restarts count against the budget, and each counts once.
    ensures d.next.restarts == if FaultOf(a) in {Some(Checkpoint), Some(RestartSession)} then c.restarts + 1 else c.restarts
    // The loop gives up exactly when a counted restart takes the budget past MAX_RESTARTS.
    ensures d.verdict == Stop(TooManyRestarts) <==>
      FaultOf(a) in {Some(Checkpoint), Some(RestartSession)} && c.restarts + 1 > MaxRestarts
    ensures d.verdict.Retry? ==> d.next.restarts <= MaxRestarts
    ensures d.verdict == Stop(Interrupted) <==> FaultOf(a) == Some(KeyboardInterrupt)
    ensures d.verdict == Stop(Propagated) <==> FaultOf(a) == Some(UnexpectedError)
    ensures d.verdict == Stop(Completed) <==> a == Succeeded
    // A checkpoint never touches the profile.
    ensures d.verdict == Retry(Relogin) <==> FaultOf(a) == Some(Checkpoint) && c.restarts + 1 <= MaxRestarts
    // A session restart reuses the profile while strikes are at most one, and resets it
    // (clearing the strikes) otherwise.
    ensures d.verdict == Retry(ReuseProfile) <==>
      FaultOf(a) == Some(RestartSession) && c.restarts + 1 <= MaxRestarts && StrikesAfter(c, a) <= 1
    ensures d.verdict == Retry(ResetProfile) <==>
      FaultOf(a) == Some(RestartSession) && c.restarts + 1 <= MaxRestarts && StrikesAfter(c, a) > 1
    ensures d.next.strikes == if d.verdict == Retry(ResetProfile) then 0 else StrikesAfter(c, a)
    ensures d.next.resets == if d.verdict == Retry(ResetProfile) then c.resets + 1 else c.resets
  {
    var strikes := StrikesAfter(c, a);
    match FaultOf(a)
    case None => Decision(Control(c.restarts, strikes, c.resets), Stop(Completed))
    case Some(f) =>
      match f
      case KeyboardInterrupt => Decision(Control(c.restarts, strikes, c.resets), Stop(Interrupted))
      case UnexpectedError => Decision(Control(c.restarts, strikes, c.resets), Stop(Propagated))
      case Checkpoint =>
        var restarts := c.restarts + 1;
        if restarts > MaxRestarts then Decision(Control(restarts, strikes, c.resets), Stop(TooManyRestarts))
        else Decision(Control(restarts, strikes, c.resets), Retry(Relogin))
      case RestartSession =>
        var restarts := c.restarts + 1;
        if restarts > MaxRestarts then Decision(Control(restarts, strikes, c.resets), Stop(TooManyRestarts))
        else if strikes <= 1 then Decision(Control(restarts, strikes, c.resets), Retry(ReuseProfile))
        else Decision(Control(restarts, 0, c.resets + 1), Retry(ResetProfile))
  }

  datatype Played = Played(control: Control, exit: Option<Exit>)

  /** The loop over a sequence of attempt results: stops at the first verdict that stops. */
  function Play(c: Control, trace: seq<AttemptResult>): (r: Played)
    decreases |trace|
  {
    if trace == [] then Played(c, None)
    else
      var d := Step(c, trace[0]);
      match d.verdict
      case Stop(e) => Played(d.next, Some(e))
      case Retry(_) => Play(d.next, trace[1..])
  }

  /** Extending a trace that has not stopped by one more attempt takes one more step. */
  lemma {:induction false} PlayAppend(c: Control, trace: seq<AttemptResult>, a: AttemptResult)
    requires Play(c, trace).exit.None?
    ensures Play(c, trace + [a]) ==
      var d := Step(Play(c, trace).control, a);
      if d.verdict.Stop? then Played(d.next, Some(d.verdict.exit)) else Played(d.next, None)
    decreases |trace|
  {
    if trace == [] {
      assert trace + [a] == [a];
    } else {
      assert (trace + [a])[0] == trace[0] && (trace + [a])[1..] == trace[1..] + [a];
      PlayAppend(Step(c, trace[0]).next, trace[1..], a);
    }
  }

  /** While the loop keeps going, every attempt so far has cost one restart, the budget holds,
      and the strike count stays at most one at the top of the loop. */
  lemma {:induction false} RunningBudget(c: Control, trace: seq<AttemptResult>)
    requires Play(c, trace).exit.None?
    ensures Play(c, trace).control.restarts == c.restarts + |trace|
    ensures trace != [] ==> Play(c, trace).control.restarts <= MaxRestarts
    ensures c.strikes <= 1 ==> Play(c, trace).control.strikes <= 1
    decreases |trace|
  {
    if trace != [] {
      RunningBudget(Step(c, trace[0]).next, trace[1..]);
    }
  }

  /** From a fresh counter, at most MAX_RESTARTS + 1 attempts are ever made: any longer trace
      has stopped by then. */
  lemma AttemptBound(strikes: nat, resets: nat, trace: seq<AttemptResult>)
    requires |trace| > MaxRestarts + 1
    ensures Play(Control(0, strikes, resets), trace).exit.Some?
  {
    var c := Control(0, strikes, resets);
    if Play(c, trace).exit.None? {
      var prefix := trace[..MaxRestarts + 1];
      PrefixStops(c, prefix, trace[MaxRestarts + 1..]);
      assert prefix + trace[MaxRestarts + 1..] == trace;
      if Play(c, prefix).exit.None? {
        RunningBudget(c, prefix);
        assert false;
      }
    }
  }

  /** A trace whose prefix has stopped has stopped with the same result. */
  lemma {:induction false} PrefixStops(c: Control, prefix: seq<AttemptResult>, rest: seq<AttemptResult>)
    ensures Play(c, prefix).exit.Some? ==> Play(c, prefix + rest) == Play(c, prefix)
    ensures Play(c, prefix + rest).exit.None? ==> Play(c, prefix).exit.None?
    decreases |prefix|
  {
    if prefix != [] {
      assert (prefix + rest)[0] == prefix[0] && (prefix + rest)[1..] == prefix[1..] + rest;
      PrefixStops(Step(c, prefix[0]).next, prefix[1..], rest);
    }
  }

  /** A failed health check after a clean one reuses the profile; a second failed health check,
      with nothing in between but attempts that failed before their health check with a
      checkpoint or a session restart, deletes the profile. */
  lemma {:induction false} SecondStrikeResets(c: Control, between: seq<AttemptResult>)
    requires c.strikes == 0
    requires c.restarts + |between| + 2 <= MaxRestarts
    requires forall k :: 0 <= k < |between| ==>
      between[k] in {FailedBeforeHealth(Checkpoint), FailedBeforeHealth(RestartSession)}
    ensures Step(c, HealthFailed).verdict == Retry(ReuseProfile)
    ensures Play(Step(c, HealthFailed).next, between).exit.None?
    ensures Play(Step(c, HealthFailed).next, between).control.strikes == 1
    ensures Step(Play(Step(c, HealthFailed).next, between).control, HealthFailed).verdict == Retry(ResetProfile)
  {
    var c1 := Step(c, HealthFailed).next;
    BetweenKeepsStrikes(c1, between);
  }

  /** Attempts that fail before their health check with a counted restart keep the strike
      count, within the budget. */
  lemma {:induction false} BetweenKeepsStrikes(c: Control, between: seq<AttemptResult>)
    requires c.strikes == 1
    requires c.restarts + |between| + 1 <= MaxRestarts
    requires forall k :: 0 <= k < |between| ==>
      between[k] in {FailedBeforeHealth(Checkpoint), FailedBeforeHealth(RestartSession)}
    ensures Play(c, between).exit.None?
    ensures Play(c, between).control.strikes == 1
    ensures Play(c, between).control.restarts == c.restarts + |between|
    decreases |between|
  {
    if between != [] {
      assert between[0] in {FailedBeforeHealth(Checkpoint), FailedBeforeHealth(RestartSession)};
      var c1 := Step(c, between[0]).next;
      assert forall k :: 0 <= k < |between| - 1 ==> between[1..][k] == between[k + 1];
      BetweenKeepsStrikes(c1, between[1..]);
    }
  }
}
