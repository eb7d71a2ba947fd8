/** The deduplication gate of get_jobs_from_list_page: which anchors of a list page become
    job items, and how the set of seen job ids grows. The DOM is a sequence of anchors whose
    address and card hints are oracle answers; a read that raised a stale-element or
    missing-element error is `Raised`. */
module Listing {
  import opened Common
  import opened JobIds

  /** The best-effort role, company and applied-relative hints read from an anchor's card. */
  datatype Hints = Hints(role: Option<string>, company: Option<string>, applied: Option<string>)

  /** One job anchor: its `href` attribute (absent or empty counts as no address) and the hints
      of its card. */
  datatype Anchor = Anchor(href: Probe<Option<string>>, hints: Probe<Hints>)

  /** JobListItem. */
  datatype JobListItem = JobListItem(
    url: string,
    roleHint: Option<string>,
    companyHint: Option<string>,
    appliedRelative: Option<string>,
    jobId: string)

  /** The address of an anchor, when it has a non-empty one. */
  predicate HasUrl(a: Anchor)
  {
    a.href.Answered? && a.href.value.Some? && a.href.value.value != []
  }

  /** The job id of an anchor with an address. */
  function AnchorId(a: Anchor): string
    requires HasUrl(a)
  {
    ExtractJobId(a.href.value.value)
  }

  /** One pass of the loop body: the item the anchor yields, or `None` when it is skipped
      (no address, an unknown or already seen id, or a card read that raised). */
  function Admit(a: Anchor, seen: set<string>): (r: Option<JobListItem>)
    ensures r.Some? <==> HasUrl(a) && AnchorId(a) != UnknownId && AnchorId(a) !in seen && a.hints.Answered?
    ensures r.Some? ==> r.value.url == a.href.value.value && r.value.jobId == ExtractJobId(r.value.url)
  {
    if !HasUrl(a) then None
    else
      var url := a.href.value.value;
      var id := ExtractJobId(url);
      if id == UnknownId || id in seen then None
      else
        match a.hints
        case Raised => None
        case Answered(h) => Some(JobListItem(url, h.role, h.company, h.applied, id))
  }

  /** The ids of a list of items. */
  function Ids(items: seq<JobListItem>): set<string>
  {
    set k | 0 <= k < |items| :: items[k].jobId
  }

  lemma IdsAppend(items: seq<JobListItem>, item: JobListItem)
    ensures Ids(items + [item]) == Ids(items) + {item.jobId}
  {
    var all := items + [item];
    forall x | x in Ids(all) ensures x in Ids(items) + {item.jobId} {
      var k :| 0 <= k < |all| && all[k].jobId == x;
      if k < |items| { assert items[k].jobId == x; }
    }
    forall x | x in Ids(items) + {item.jobId} ensures x in Ids(all) {
      if x == item.jobId {
        assert all[|items|].jobId == x;
      } else {
        var k :| 0 <= k < |items| && items[k].jobId == x;
        assert all[k].jobId == x;
      }
    }
  }

  datatype Listed = Listed(items: seq<JobListItem>, seen: set<string>)

  /** The loop over the anchors, in page order: the items collected and the seen set after. */
  function Gate(anchors: seq<Anchor>, seen: set<string>): (r: Listed)
    ensures |r.items| <= |anchors|
    ensures r.seen == seen + Ids(r.items)
    ensures forall k :: 0 <= k < |r.items| ==> r.items[k].jobId != UnknownId && r.items[k].jobId !in seen
    ensures forall k, l :: 0 <= k < l < |r.items| ==> r.items[k].jobId != r.items[l].jobId
    ensures forall k :: 0 <= k < |r.items| ==> r.items[k].jobId == ExtractJobId(r.items[k].url)
    decreases |anchors|
  {
    if anchors == [] then Listed([], seen)
    else
      var prev := Gate(anchors[..|anchors| - 1], seen);
      match Admit(anchors[|anchors| - 1], prev.seen)
      case None => prev
      case Some(item) =>
        IdsAppend(prev.items, item);
        Listed(prev.items + [item], prev.seen + {item.jobId})
  }

  /** One more anchor: the loop's step, in page order. */
  lemma GateStep(anchors: seq<Anchor>, i: nat, seen: set<string>)
    requires i < |anchors|
    ensures Gate(anchors[..i + 1], seen) ==
      var prev := Gate(anchors[..i], seen);
      match Admit(anchors[i], prev.seen)
      case None => prev
      case Some(item) => Listed(prev.items + [item], prev.seen + {item.jobId})
  {
    assert anchors[..i + 1][..i] == anchors[..i];
  }

  /** The seen set only grows. */
  lemma GateGrowsSeen(anchors: seq<Anchor>, seen: set<string>)
    ensures seen <= Gate(anchors, seen).seen
  {
  }

  /** Deduplication across pages: listing a page a second time against the seen set the first
      listing left yields nothing. */
  lemma {:induction false} GateTwice(anchors: seq<Anchor>, seen: set<string>)
    ensures Gate(anchors, Gate(anchors, seen).seen).items == []
  {
    var after := Gate(anchors, seen).seen;
    GateNothingNew(anchors, after, seen);
  }

  /** Every anchor with a readable card and a known id ends up marked seen: it was either
      seen before or is listed now. */
  lemma {:induction false} GateComplete(anchors: seq<Anchor>, seen: set<string>, j: nat)
    requires j < |anchors| && HasUrl(anchors[j]) && AnchorId(anchors[j]) != UnknownId && anchors[j].hints.Answered?
    ensures AnchorId(anchors[j]) in Gate(anchors, seen).seen
    decreases |anchors|
  {
    var init := anchors[..|anchors| - 1];
    var prev := Gate(init, seen);
    GateSeenBound(anchors, seen);
    if j < |anchors| - 1 {
      assert init[j] == anchors[j];
      GateComplete(init, seen, j);
    } else if AnchorId(anchors[j]) !in prev.seen {
      assert Admit(anchors[j], prev.seen).Some?;
    }
  }

  /** Against a seen set that already holds every id the first listing could add, a listing
      adds nothing. */
  lemma {:induction false} GateNothingNew(anchors: seq<Anchor>, seen: set<string>, seen0: set<string>)
    requires Gate(anchors, seen0).seen <= seen
    ensures Gate(anchors, seen).items == []
    decreases |anchors|
  {
    if anchors != [] {
      var init := anchors[..|anchors| - 1];
      var last := anchors[|anchors| - 1];
      GateSeenBound(anchors, seen0);
      GateNothingNew(init, seen, seen0);
      var prev := Gate(init, seen);
      assert prev.seen == seen;
      if HasUrl(last) && AnchorId(last) != UnknownId && last.hints.Answered? {
        GateComplete(anchors, seen0, |anchors| - 1);
      }
    }
  }

  /** Listing one more anchor never removes an id from the seen set. */
  lemma GateSeenBound(anchors: seq<Anchor>, seen0: set<string>)
    requires anchors != []
    ensures Gate(anchors[..|anchors| - 1], seen0).seen <= Gate(anchors, seen0).seen
  {
  }
}
