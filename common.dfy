/** Small value types shared by every component of the model. */
module Common {

  /** An optional value; `None` stands for Python's `None`. */
  datatype Option<+T> = None | Some(value: T)

  /** The answer of one call into the browser driver: either a value, or the call raised. */
  datatype Probe<+T> = Answered(value: T) | Raised

  /** The exceptions the scraper's control flow dispatches on, as a tagged outcome.
      - Checkpoint: the RuntimeError raised by guard_not_blocked
      - RestartSession: the driver or page is hung and the session must be restarted
      - KeyboardInterrupt: the operator stopped the run (not an Exception subclass in Python)
      - UnexpectedError: any other exception (a timeout that is not re-classified, a driver error
        escaping a wait, ...) */
  datatype Fault = Checkpoint | RestartSession | KeyboardInterrupt | UnexpectedError

  /** Concatenation regrouped, for the places where the verifier does not do it unprompted. */
  lemma ConcatAssoc<T>(a: seq<T>, b: seq<T>, c: seq<T>)
    ensures a + b + c == a + (b + c)
  {
  }

  /** Appending a non-empty sequence is appending its front and then its last element. */
  lemma AppendSplitLast<T>(a: seq<T>, b: seq<T>)
    requires b != []
    ensures a + b == (a + b[..|b| - 1]) + [b[|b| - 1]]
  {
    assert b == b[..|b| - 1] + [b[|b| - 1]];
    ConcatAssoc(a, b[..|b| - 1], [b[|b| - 1]]);
  }

  /** An element of a slice known to equal `s` is the matching element of `s`. */
  lemma SliceAt<T>(r: seq<T>, lo: int, hi: int, s: seq<T>, j: int)
    requires 0 <= lo <= hi <= |r| && r[lo..hi] == s && 0 <= j < hi - lo
    ensures r[lo + j] == s[j]
  {
    assert r[lo..hi][j] == r[lo + j];
  }
}
