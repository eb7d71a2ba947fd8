/** The two string expressions that shape exported values: the 500-character "About the Job"
    summary and the sanitised PDF file name. */
module Export {
  import opened Common

  const SummaryLimit: nat := 500
  const Ellipsis: string := "..."
  const CompanyLimit: nat := 50
  const RoleLimit: nat := 60

  /** `(d[:500] + "...") if len(d) > 500 else d`. */
  function Summary(description: string): (r: string)
    ensures |description| <= SummaryLimit ==> r == description
    ensures |description| > SummaryLimit ==> |r| == SummaryLimit + |Ellipsis| && r[..SummaryLimit] == description[..SummaryLimit]
    ensures |r| <= SummaryLimit + |Ellipsis|
    ensures |description| > SummaryLimit ==> r[SummaryLimit..] == Ellipsis
  {
    if |description| > SummaryLimit then description[..SummaryLimit] + Ellipsis else description
  }

  /** A summary of a long text keeps its first 500 characters. */
  lemma SummaryIsPrefixPlusEllipsis(description: string, k: nat)
    requires k < SummaryLimit && k < |description|
    ensures Summary(description)[k] == description[k]
  {
  }

  /** Summarising a summary changes nothing: a short text is kept, and a long one's
      503-character summary is cut back to the same 500 characters and ellipsis. */
  lemma SummaryIdempotent(description: string)
    ensures Summary(Summary(description)) == Summary(description)
  {
  }

  /** The characters `re.sub(r'[<>:"/\\|?*]', '', s)` removes. */
  predicate Forbidden(c: char)
  {
    c == '<' || c == '>' || c == ':' || c == '"' || c == '/' || c == '\\' || c == '|' || c == '?' || c == '*'
  }

  /** Removes every forbidden character, keeping the others in order. */
  function Sanitize(s: string): (r: string)
    ensures |r| <= |s|
    ensures forall i :: 0 <= i < |r| ==> !Forbidden(r[i])
    ensures forall c :: c in r <==> c in s && !Forbidden(c)
    ensures (forall i :: 0 <= i < |s| ==> !Forbidden(s[i])) ==> r == s
  {
    if s == [] then []
    else if Forbidden(s[0]) then Sanitize(s[1..])
    else [s[0]] + Sanitize(s[1..])
  }

  /** Sanitising a concatenation sanitises each part. */
  lemma {:induction false} SanitizeConcat(a: string, b: string)
    ensures Sanitize(a + b) == Sanitize(a) + Sanitize(b)
    decreases |a|
  {
    if a != [] {
      assert (a + b)[0] == a[0] && (a + b)[1..] == a[1..] + b;
      SanitizeConcat(a[1..], b);
    } else {
      assert a + b == b;
    }
  }

  /** A string with no forbidden character is left as it is. */
  lemma {:induction false} SanitizeClean(s: string)
    requires forall i :: 0 <= i < |s| ==> !Forbidden(s[i])
    ensures Sanitize(s) == s
    decreases |s|
  {
    if s != [] {
      SanitizeClean(s[1..]);
    }
  }

  /** Sanitising twice is sanitising once. */
  lemma SanitizeIdempotent(s: string)
    ensures Sanitize(Sanitize(s)) == Sanitize(s)
  {
    SanitizeClean(Sanitize(s));
  }

  /** Python's slice `s[:n]`, which tolerates n past the end. */
  function Take(s: string, n: nat): (r: string)
    ensures |r| == if |s| < n then |s| else n
    ensures r == s[..|r|]
  {
    if |s| <= n then s else s[..n]
  }

  /** f"{safe_company}_{safe_role}_{job_id}.pdf" with both names sanitised and capped. */
  function PdfFileName(company: string, role: string, jobId: string): (r: string)
    ensures |jobId| + 6 <= |r| <= CompanyLimit + RoleLimit + |jobId| + 6
    ensures r[|r| - |jobId| - 4..] == jobId + ".pdf"
    // The file name reads back as: the sanitised company cut at 50, '_', the sanitised role
    // cut at 60, '_', the job id and ".pdf".
    ensures var sc, sr := Sanitize(company), Sanitize(role);
            var kc := if |sc| < CompanyLimit then |sc| else CompanyLimit;
            var kr := if |sr| < RoleLimit then |sr| else RoleLimit;
            && |r| == kc + kr + |jobId| + 6
            && r[..kc] == sc[..kc] && r[kc] == '_'
            && r[kc + 1..kc + 1 + kr] == sr[..kr] && r[kc + 1 + kr] == '_'
            && r[kc + 2 + kr..] == jobId + ".pdf"
  {
    var c, q, t := Take(Sanitize(company), CompanyLimit), Take(Sanitize(role), RoleLimit), jobId + ".pdf";
    JoinedParts(c, q, t);
    c + "_" + q + "_" + t
  }

  /** Where the parts of an underscore-joined name sit. */
  lemma JoinedParts(c: string, q: string, t: string)
    ensures var r := c + "_" + q + "_" + t;
            && |r| == |c| + |q| + |t| + 2
            && r[..|c|] == c && r[|c|] == '_'
            && r[|c| + 1..|c| + 1 + |q|] == q && r[|c| + 1 + |q|] == '_'
            && r[|c| + 2 + |q|..] == t
  {
    var r := c + "_" + q + "_" + t;
    assert r[|c| + 1..] == q + "_" + t;
  }

  /** With a numeric job id, the file name never contains a forbidden character, so it never
      names a directory or a device. */
  lemma {:induction false} PdfFileNameClean(company: string, role: string, jobId: string)
    requires forall i :: 0 <= i < |jobId| ==> '0' <= jobId[i] <= '9'
    ensures forall i :: 0 <= i < |PdfFileName(company, role, jobId)| ==> !Forbidden(PdfFileName(company, role, jobId)[i])
  {
    var r := PdfFileName(company, role, jobId);
    var sc, sr := Sanitize(company), Sanitize(role);
    var kc := if |sc| < CompanyLimit then |sc| else CompanyLimit;
    var kr := if |sr| < RoleLimit then |sr| else RoleLimit;
    forall i | 0 <= i < |r| ensures !Forbidden(r[i]) {
      JoinedNameClean(r, sc, sr, kc, kr, jobId, i);
    }
  }

  /** A character of a name laid out as PdfFileName lays it out: from the cleaned company or
      role, an underscore, or from the numeric job id and ".pdf". */
  lemma JoinedNameClean(r: string, sc: string, sr: string, kc: int, kr: int, jobId: string, i: int)
    requires 0 <= kc <= |sc| && 0 <= kr <= |sr|
    requires forall k :: 0 <= k < |sc| ==> !Forbidden(sc[k])
    requires forall k :: 0 <= k < |sr| ==> !Forbidden(sr[k])
    requires forall k :: 0 <= k < |jobId| ==> '0' <= jobId[k] <= '9'
    requires |r| == kc + kr + |jobId| + 6
    requires r[..kc] == sc[..kc] && r[kc] == '_'
    requires r[kc + 1..kc + 1 + kr] == sr[..kr] && r[kc + 1 + kr] == '_'
    requires r[kc + 2 + kr..] == jobId + ".pdf"
    requires 0 <= i < |r|
    ensures !Forbidden(r[i])
  {
    if i < kc {
      SliceAt(r, 0, kc, sc[..kc], i);
      assert sc[..kc][i] == sc[i];
    } else if i == kc || i == kc + 1 + kr {
    } else if i < kc + 1 + kr {
      SliceAt(r, kc + 1, kc + 1 + kr, sr[..kr], i - kc - 1);
      assert sr[..kr][i - kc - 1] == sr[i - kc - 1];
    } else {
      SliceAt(r, kc + 2 + kr, |r|, jobId + ".pdf", i - kc - 2 - kr);
      TailClean(jobId, i - kc - 2 - kr);
    }
  }

  /** A numeric job id followed by ".pdf" holds no forbidden character. */
  lemma TailClean(jobId: string, j: int)
    requires forall i :: 0 <= i < |jobId| ==> '0' <= jobId[i] <= '9'
    requires 0 <= j < |jobId| + 4
    ensures !Forbidden((jobId + ".pdf")[j])
  {
    if j < |jobId| {
      assert (jobId + ".pdf")[j] == jobId[j];
    } else {
      assert (jobId + ".pdf")[j] == ".pdf"[j - |jobId|];
    }
  }

}
