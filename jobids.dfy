/** extract_job_id_from_url: the stable job id is the first run of digits that follows
    `/jobs/view/` in a job address (`re.search(r"/jobs/view/(\d+)", url)`), or "unknown". */
module JobIds {
  import opened Common
  import opened Text

  const ViewMarker: string := "/jobs/view/"
  const UnknownId: string := "unknown"

  /** The regular expression matches at index i: the marker, then at least one digit. */
  predicate MatchAt(url: string, i: nat)
  {
    OccursAt(url, ViewMarker, i) && i + |ViewMarker| < |url| && IsDigit(url[i + |ViewMarker|])
  }

  /** The leftmost match position at or after i, scanning as re.search does. */
  function FirstMatchFrom(url: string, i: nat): (r: Option<nat>)
    requires i <= |url|
    ensures r.Some? ==> i <= r.value <= |url| && MatchAt(url, r.value)
    ensures r.Some? ==> forall j: nat :: i <= j < r.value ==> !MatchAt(url, j)
    ensures r.None? ==> forall j: nat :: i <= j <= |url| ==> !MatchAt(url, j)
    decreases |url| - i
  {
    if MatchAt(url, i) then Some(i)
    else if i == |url| then None
    else FirstMatchFrom(url, i + 1)
  }

  /** The id of a job address: the digits of the leftmost match, or "unknown" when the
      pattern occurs nowhere. */
  function ExtractJobId(url: string): (r: string)
    ensures r == UnknownId <==> forall j: nat :: j <= |url| ==> !MatchAt(url, j)
    ensures r != UnknownId ==> IsDigitRun(r)
    ensures r != UnknownId ==> exists i: nat ::
      (&& i <= |url| && MatchAt(url, i)
       && (forall j: nat :: j < i ==> !MatchAt(url, j))
       && r == url[i + |ViewMarker|..DigitRunEnd(url, i + |ViewMarker|)])
  {
    match FirstMatchFrom(url, 0)
    case None => UnknownId
    case Some(i) =>
      var start := i + |ViewMarker|;
      var id := url[start..DigitRunEnd(url, start)];
      assert IsDigitRun(id) && id[0] != UnknownId[0];
      id
  }

  /** A job address whose host part contains no 'j' yields exactly the digits after the
      marker, whatever follows them (`/`, a query string, ...). */
  lemma {:induction false} ExtractFromViewUrl(host: string, id: string, rest: string)
    requires 'j' !in host
    requires IsDigitRun(id)
    requires rest == [] || !IsDigit(rest[0])
    ensures ExtractJobId(host + ViewMarker + id + rest) == id
  {
    var url := host + ViewMarker + id + rest;
    var h := |host|;
    var start := h + |ViewMarker|;
    assert url[h..start] == ViewMarker;
    assert url[start..start + |id|] == id;
    assert url[start] == id[0];
    assert MatchAt(url, h);
    forall j: nat | j < h ensures !MatchAt(url, j) {
      if j + 1 < h {
        assert url[j + 1] == host[j + 1] != 'j';
      } else {
        assert url[j + 1] == '/';
      }
      assert url[j..j + |ViewMarker|][1] == url[j + 1];
    }
    FirstMatchFromAt(url, h);
    forall m | start <= m < start + |id| ensures IsDigit(url[m]) {
      assert url[m] == id[m - start];
    }
    DigitRunEndAt(url, start, start + |id|);
  }

  /** FirstMatchFrom finds h when h matches and nothing before it does. */
  lemma {:induction false} FirstMatchFromAt(url: string, h: nat)
    requires h <= |url| && MatchAt(url, h)
    requires forall j: nat :: j < h ==> !MatchAt(url, j)
    ensures FirstMatchFrom(url, 0) == Some(h)
  {
    var r := FirstMatchFrom(url, 0);
    assert r.Some?;
  }

  /** The example from the source's comment. */
  lemma ExampleJobId()
    ensures ExtractJobId("https://www.linkedin.com/jobs/view/3928472391/") == "3928472391"
  {
    var host := "https://www.linkedin.com";
    assert 'j' !in host;
    assert host + ViewMarker + "3928472391" + "/" == "https://www.linkedin.com/jobs/view/3928472391/";
    ExtractFromViewUrl(host, "3928472391", "/");
  }
}
