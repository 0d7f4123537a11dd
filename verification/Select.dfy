/** Lanes, work items, and which items a lane may take. */
module Select {
  import opened Options

  datatype LaneMode = Off | ShadowOnly | Live

  datatype Lane = Lane(id: string, mode: LaneMode, cap: nat, engine: string,
                       requireLabel: string, vetoLabels: seq<string>)

  /** `bodyLength` is the length of the trimmed body. */
  datatype WorkItem = WorkItem(id: string, bodyLength: nat)

  datatype Rejection =
    | LabelsUnreadable | MissingRequireLabel | Vetoed | OtherLane | BodyTooShort | PrAlreadyOpen

  const LANE_LABEL_PREFIX := "lane:"
  const MIN_BODY_CHARS := 200

  /** None accepts the item. `labels` is None when they could not be read. */
  function Judge(item: WorkItem, labels: Option<seq<string>>, lane: Lane): Option<Rejection> {
    if labels.None? then Some(LabelsUnreadable)
    else if lane.requireLabel !in labels.value then Some(MissingRequireLabel)
    else if exists l :: l in labels.value && l in lane.vetoLabels then Some(Vetoed)
    else if LANE_LABEL_PREFIX + lane.id !in labels.value then Some(OtherLane)
    else if item.bodyLength < MIN_BODY_CHARS then Some(BodyTooShort)
    else None
  }

  function LabelsOf(labelsById: map<string, Option<seq<string>>>, id: string): Option<seq<string>> {
    if id in labelsById then labelsById[id] else None
  }

  function Candidates(items: seq<WorkItem>, labelsById: map<string, Option<seq<string>>>, lane: Lane): seq<WorkItem> {
    if items == [] then []
    else
      var last := items[|items| - 1];
      Candidates(items[..|items| - 1], labelsById, lane) +
      if Judge(last, LabelsOf(labelsById, last.id), lane).None? then [last] else []
  }

  /** The labels were read and say this lane may have the item: the required label and the lane's own,
      no veto, and a body of at least 200 characters. */
  ghost predicate Wanted(item: WorkItem, labels: Option<seq<string>>, lane: Lane) {
    && labels.Some? && lane.requireLabel in labels.value && "lane:" + lane.id in labels.value
    && (forall l :: l in labels.value ==> l !in lane.vetoLabels)
    && item.bodyLength >= 200
  }

  /** The first thing wrong with the item, the veto before the lane. */
  ghost predicate FailsFirst(item: WorkItem, labels: Option<seq<string>>, lane: Lane, reason: Rejection) {
    var vetoed := labels.Some? && exists l :: l in labels.value && l in lane.vetoLabels;
    match reason
    case LabelsUnreadable => labels.None?
    case MissingRequireLabel => labels.Some? && lane.requireLabel !in labels.value
    case Vetoed => labels.Some? && lane.requireLabel in labels.value && vetoed
    case OtherLane => labels.Some? && lane.requireLabel in labels.value && !vetoed && "lane:" + lane.id !in labels.value
    case BodyTooShort =>
      && labels.Some? && lane.requireLabel in labels.value && !vetoed && "lane:" + lane.id in labels.value
      && item.bodyLength < 200
    case PrAlreadyOpen => false
  }

  /** An item is accepted if and only if the lane may have it; otherwise the reason given is the first
      test it fails. */
  lemma JudgeMeans(item: WorkItem, labels: Option<seq<string>>, lane: Lane)
    ensures Judge(item, labels, lane).None? <==> Wanted(item, labels, lane)
    ensures Judge(item, labels, lane).Some? ==> FailsFirst(item, labels, lane, Judge(item, labels, lane).value)
  {
    if labels.Some? && exists l :: l in labels.value && l in lane.vetoLabels {
      var l :| l in labels.value && l in lane.vetoLabels;
      assert !Wanted(item, labels, lane);
    }
  }

  /** The items of a list that have a property, in order. */
  ghost function ItemsWith(items: seq<WorkItem>, p: WorkItem -> bool): seq<WorkItem> {
    if items == [] then []
    else ItemsWith(items[..|items| - 1], p) + if p(items[|items| - 1]) then [items[|items| - 1]] else []
  }

  ghost function IsWanted(labelsById: map<string, Option<seq<string>>>, lane: Lane): WorkItem -> bool {
    (item: WorkItem) => Wanted(item, LabelsOf(labelsById, item.id), lane)
  }

  ghost function IsRefused(labelsById: map<string, Option<seq<string>>>, lane: Lane): WorkItem -> bool {
    (item: WorkItem) => !Wanted(item, LabelsOf(labelsById, item.id), lane)
  }

  lemma {:induction false} CandidatesAreWanted(items: seq<WorkItem>, labelsById: map<string, Option<seq<string>>>, lane: Lane)
    ensures Candidates(items, labelsById, lane) == ItemsWith(items, IsWanted(labelsById, lane))
  {
    if items != [] {
      CandidatesAreWanted(items[..|items| - 1], labelsById, lane);
      JudgeMeans(items[|items| - 1], LabelsOf(labelsById, items[|items| - 1].id), lane);
    }
  }

  /** The items rejected, each with the first test it fails, in order. */
  ghost predicate Refusals(items: seq<WorkItem>, labelsById: map<string, Option<seq<string>>>, lane: Lane, rejections: seq<(string, Rejection)>) {
    var refused := ItemsWith(items, IsRefused(labelsById, lane));
    |rejections| == |refused| &&
    forall k :: 0 <= k < |refused| ==>
      rejections[k].0 == refused[k].id && FailsFirst(refused[k], LabelsOf(labelsById, refused[k].id), lane, rejections[k].1)
  }

  function RejectionsOf(items: seq<WorkItem>, labelsById: map<string, Option<seq<string>>>, lane: Lane): seq<(string, Rejection)> {
    if items == [] then []
    else
      var last := items[|items| - 1];
      var verdict := Judge(last, LabelsOf(labelsById, last.id), lane);
      RejectionsOf(items[..|items| - 1], labelsById, lane) + if verdict.None? then [] else [(last.id, verdict.value)]
  }

  lemma {:induction false} RejectionsAreRefusals(items: seq<WorkItem>, labelsById: map<string, Option<seq<string>>>, lane: Lane)
    ensures Refusals(items, labelsById, lane, RejectionsOf(items, labelsById, lane))
  {
    if items != [] {
      var init, last := items[..|items| - 1], items[|items| - 1];
      RejectionsAreRefusals(init, labelsById, lane);
      JudgeMeans(last, LabelsOf(labelsById, last.id), lane);
      var p := IsRefused(labelsById, lane);
      assert ItemsWith(items, p) == ItemsWith(init, p) + if p(last) then [last] else [];
    }
  }

  method SelectForLane(items: seq<WorkItem>, labelsById: map<string, Option<seq<string>>>, lane: Lane)
    returns (candidates: seq<WorkItem>, rejections: seq<(string, Rejection)>)
    ensures candidates == Candidates(items, labelsById, lane)
    ensures candidates == ItemsWith(items, IsWanted(labelsById, lane))
    ensures Refusals(items, labelsById, lane, rejections)
  {
    candidates, rejections := [], [];
    var i := 0;
    while i < |items|
      invariant 0 <= i <= |items|
      invariant candidates == Candidates(items[..i], labelsById, lane)
      invariant rejections == RejectionsOf(items[..i], labelsById, lane)
    {
      assert items[..i + 1][..i] == items[..i];
      var verdict := Judge(items[i], LabelsOf(labelsById, items[i].id), lane);
      if verdict.None? {
        candidates := candidates + [items[i]];
      } else {
        rejections := rejections + [(items[i].id, verdict.value)];
      }
      i := i + 1;
    }
    assert items[..i] == items;
    CandidatesAreWanted(items, labelsById, lane);
    RejectionsAreRefusals(items, labelsById, lane);
  }

  ghost predicate DistinctItems(items: seq<WorkItem>) {
    forall i, j :: 0 <= i < j < |items| ==> items[i].id != items[j].id
  }

  ghost predicate DistinctLanes(lanes: seq<Lane>) {
    forall i, j :: 0 <= i < j < |lanes| ==> lanes[i].id != lanes[j].id
  }

  function Ids(items: seq<WorkItem>): set<string> {
    set i | 0 <= i < |items| :: items[i].id
  }

  /** Selection never duplicates an item and never invents one. */
  lemma {:induction false} CandidatesStayDistinct(items: seq<WorkItem>, labelsById: map<string, Option<seq<string>>>, lane: Lane)
    requires DistinctItems(items)
    ensures DistinctItems(Candidates(items, labelsById, lane))
    ensures forall c :: c in Candidates(items, labelsById, lane) ==>
              c in items && Judge(c, LabelsOf(labelsById, c.id), lane).None?
  {
    if items != [] {
      var init, last := items[..|items| - 1], items[|items| - 1];
      CandidatesStayDistinct(init, labelsById, lane);
      var before := Candidates(init, labelsById, lane);
      forall k | 0 <= k < |before| ensures before[k].id != last.id {
        assert before[k] in init;
        var j :| 0 <= j < |init| && init[j] == before[k];
        assert items[j].id != items[|items| - 1].id;
      }
    }
  }

  // ---- Lane order is claim priority ----

  /** The first lane of `lanes` that has an item with this id. */
  function Owner(lanes: seq<Lane>, itemsByLane: map<string, seq<WorkItem>>, id: string): Option<string> {
    if lanes == [] then None
    else
      var init, last := lanes[..|lanes| - 1], lanes[|lanes| - 1];
      var earlier := Owner(init, itemsByLane, id);
      if earlier.Some? then earlier
      else if last.id in itemsByLane && id in Ids(itemsByLane[last.id]) then Some(last.id)
      else None
  }

  method ClaimAcrossLanes(lanes: seq<Lane>, itemsByLane: map<string, seq<WorkItem>>) returns (owned: map<string, string>)
    ensures forall id :: if id in owned then Owner(lanes, itemsByLane, id) == Some(owned[id])
                         else Owner(lanes, itemsByLane, id) == None
  {
    owned := map[];
    var i := 0;
    while i < |lanes|
      invariant 0 <= i <= |lanes|
      invariant forall id :: if id in owned then Owner(lanes[..i], itemsByLane, id) == Some(owned[id])
                             else Owner(lanes[..i], itemsByLane, id) == None
    {
      var lane := lanes[i];
      var items := if lane.id in itemsByLane then itemsByLane[lane.id] else [];
      var before := owned;
      var k := 0;
      while k < |items|
        invariant 0 <= k <= |items|
        invariant forall id :: id in before ==> id in owned && owned[id] == before[id]
        invariant forall id :: id in owned && id !in before ==> id in Ids(items[..k]) && owned[id] == lane.id
        invariant forall id :: id in Ids(items[..k]) ==> id in owned
      {
        assert items[..k + 1] == items[..k] + [items[k]];
        if items[k].id !in owned {
          owned := owned[items[k].id := lane.id];
        }
        k := k + 1;
      }
      assert items[..k] == items;
      assert lanes[..i + 1][..i] == lanes[..i];
      i := i + 1;
    }
    assert lanes[..i] == lanes;
  }

  /** The owner is a lane that has the item, and no earlier lane has it. */
  lemma {:induction false} OwnerIsFirst(lanes: seq<Lane>, itemsByLane: map<string, seq<WorkItem>>, id: string, k: nat)
    requires k < |lanes| && lanes[k].id in itemsByLane && id in Ids(itemsByLane[lanes[k].id])
    requires forall j :: 0 <= j < k ==> lanes[j].id !in itemsByLane || id !in Ids(itemsByLane[lanes[j].id])
    ensures Owner(lanes, itemsByLane, id) == Some(lanes[k].id)
    decreases |lanes|
  {
    var init := lanes[..|lanes| - 1];
    if k < |init| {
      OwnerIsFirst(init, itemsByLane, id, k);
    } else {
      NoOwner(init, itemsByLane, id);
    }
  }

  lemma {:induction false} NoOwner(lanes: seq<Lane>, itemsByLane: map<string, seq<WorkItem>>, id: string)
    requires forall j :: 0 <= j < |lanes| ==> lanes[j].id !in itemsByLane || id !in Ids(itemsByLane[lanes[j].id])
    ensures Owner(lanes, itemsByLane, id) == None
  {
    if lanes != [] { NoOwner(lanes[..|lanes| - 1], itemsByLane, id); }
  }
}
