/** The Global query timeline: batches, the five steps, and the diagnostics that are left. */
module Global {
  import opened GlobalEvents
  import opened Lists
  import opened Selection
  import opened Text
  import opened Timeline

  // ----- batches -----

  datatype Batch = Batch(latestBuilt: Envelope, canonical: seq<Envelope>, llm: Pair, produced: Option<Envelope>)

  function BatchIndex(e: Envelope): int {
    match e.event
    case GlobalMapBatchBuilt(index, _, _, _) => index
    case GlobalMapPointsProduced(index, _) => index
    case _ => 0
  }

  function OnSpan(s: seq<Envelope>, span: string): seq<Envelope> {
    Filter(s, (e: Envelope) => e.spanId == span)
  }

  /** The latest build of a batch under the map span, the builds on its span, and its latest request. */
  ghost predicate IsBatch(b: Batch, events: seq<Envelope>, mapSpan: string, requests: Requests) {
    var children := ChildrenOf(events, mapSpan);
    && Last(children) == Some(b.latestBuilt)
    && b.canonical == OnSpan(children, b.latestBuilt.spanId)
    && LatestRequest(b.llm, Get(requests.started, b.latestBuilt.spanId), Get(requests.completed, b.latestBuilt.spanId),
                     mapSpan, b.latestBuilt.sequence)
  }

  ghost predicate OrderedRequests(requests: Requests) {
    forall span :: Ordered(Get(requests.started, span)) && Ordered(Get(requests.completed, span))
  }

  method BuildBatch(events: seq<Envelope>, mapSpan: string, requests: Requests) returns (batch: Option<Batch>)
    requires OrderedRequests(requests)
    ensures batch.None? <==> ChildrenOf(events, mapSpan) == []
    ensures batch.Some? ==> IsBatch(batch.value, events, mapSpan, requests) && batch.value.produced.None?
  {
    var validEvents := ChildrenOf(events, mapSpan);
    var latest := Last(validEvents);
    if latest.None? {
      return None;
    }
    var span := latest.value.spanId;
    var llm :=
      SelectLlmLifecycle(Get(requests.started, span), Get(requests.completed, span), mapSpan, latest.value.sequence);
    SearchFindsLatest(Get(requests.started, span), Get(requests.completed, span), mapSpan, latest.value.sequence);
    batch := Some(Batch(latest.value, OnSpan(validEvents, span), llm, None));
  }

  /** The batches of the map span, in the order in which their indices were first seen. */
  ghost predicate AreBatches(batches: seq<Batch>, built: seq<Envelope>, mapSpan: Option<string>, requests: Requests) {
    && (mapSpan.None? ==> batches == [])
    && (forall k :: 0 <= k < |batches| && mapSpan.Some? ==>
          IsBuilt(batches[k], built, mapSpan.value, requests))
    && DistinctBy(batches, IndexOf)
    && (mapSpan.Some? ==> forall e :: e in built && e.parentSpanId == mapSpan ==> HasIndex(batches, BatchIndex(e)))
  }

  function IndexOf(b: Batch): int {
    BatchIndex(b.latestBuilt)
  }

  predicate HasIndex(batches: seq<Batch>, index: int) {
    exists k | 0 <= k < |batches| :: IndexOf(batches[k]) == index
  }

  lemma BatchKeepsIndex(b: Batch, built: seq<Envelope>, index: int, mapSpan: string, requests: Requests)
    requires IsBatch(b, Group(built, BatchIndex, index), mapSpan, requests)
    ensures IndexOf(b) == index
  {
    var children := ChildrenOf(Group(built, BatchIndex, index), mapSpan);
    assert b.latestBuilt in children;
  }

  /** A built batch, before its points, from the events of its index. */
  ghost predicate IsBuilt(b: Batch, built: seq<Envelope>, mapSpan: string, requests: Requests) {
    IsBatch(b, Group(built, BatchIndex, IndexOf(b)), mapSpan, requests)
  }

  /** The batches after the first `next` indices. */
  ghost predicate BuiltSoFar(batches: seq<Batch>, order: seq<int>, next: nat, built: seq<Envelope>, mapSpan: string,
      requests: Requests)
    requires next <= |order|
  {
    && (forall k :: 0 <= k < |batches| ==> IsBuilt(batches[k], built, mapSpan, requests) && batches[k].produced.None?)
    && (forall k :: 0 <= k < |batches| ==> IndexOf(batches[k]) in order[..next])
    && DistinctBy(batches, IndexOf)
    && (forall j :: 0 <= j < next && ChildrenOf(Group(built, BatchIndex, order[j]), mapSpan) != [] ==>
      HasIndex(batches, order[j]))
  }

  lemma SkipIndex(batches: seq<Batch>, order: seq<int>, next: nat, built: seq<Envelope>, mapSpan: string,
      requests: Requests)
    requires next < |order| && BuiltSoFar(batches, order, next, built, mapSpan, requests)
    requires ChildrenOf(Group(built, BatchIndex, order[next]), mapSpan) == []
    ensures BuiltSoFar(batches, order, next + 1, built, mapSpan, requests)
  {
    assert order[..next + 1] == order[..next] + [order[next]];
  }

  lemma AddIndex(batches: seq<Batch>, b: Batch, order: seq<int>, next: nat, built: seq<Envelope>, mapSpan: string,
      requests: Requests)
    requires next < |order| && BuiltSoFar(batches, order, next, built, mapSpan, requests)
    requires forall i, j :: 0 <= i < j < |order| ==> order[i] != order[j]
    requires b.produced.None? && IsBatch(b, Group(built, BatchIndex, order[next]), mapSpan, requests)
    ensures BuiltSoFar(batches + [b], order, next + 1, built, mapSpan, requests)
  {
    BatchKeepsIndex(b, built, order[next], mapSpan, requests);
    Appended(batches, b);
    IndicesAppended(batches, b, order, next);
    var more := batches + [b];
    forall k | 0 <= k < |more| ensures IsBuilt(more[k], built, mapSpan, requests) && more[k].produced.None? {
      assert k < |batches| ==> more[k] == batches[k];
    }
  }

  lemma IndicesAppended(batches: seq<Batch>, b: Batch, order: seq<int>, next: nat)
    requires next < |order| && IndexOf(b) == order[next] && DistinctBy(batches, IndexOf)
    requires forall i, j :: 0 <= i < j < |order| ==> order[i] != order[j]
    requires forall k :: 0 <= k < |batches| ==> IndexOf(batches[k]) in order[..next]
    ensures DistinctBy(batches + [b], IndexOf)
    ensures forall k :: 0 <= k < |batches + [b]| ==> IndexOf((batches + [b])[k]) in order[..next + 1]
  {
    assert order[..next + 1] == order[..next] + [order[next]];
    assert order[next] !in order[..next];
  }

  method BuildBatches(built: seq<Envelope>, mapSpan: Option<string>, requests: Requests) returns (batches: seq<Batch>)
    requires OrderedRequests(requests)
    ensures AreBatches(batches, built, mapSpan, requests)
    ensures forall k :: 0 <= k < |batches| ==> batches[k].produced.None?
  {
    var groups, order := GroupBy(built, BatchIndex);
    batches := [];
    if mapSpan.None? {
      return;
    }
    for next := 0 to |order|
      invariant BuiltSoFar(batches, order, next, built, mapSpan.value, requests)
    {
      var batch := BuildBatch(Get(groups, order[next]), mapSpan.value, requests);
      if batch.Some? {
        AddIndex(batches, batch.value, order, next, built, mapSpan.value, requests);
        batches := batches + [batch.value];
      } else {
        SkipIndex(batches, order, next, built, mapSpan.value, requests);
      }
    }
    forall e | e in built && e.parentSpanId == mapSpan ensures HasIndex(batches, BatchIndex(e)) {
      assert e in ChildrenOf(Group(built, BatchIndex, BatchIndex(e)), mapSpan.value);
    }
  }

  lemma Appended(batches: seq<Batch>, b: Batch)
    ensures forall index :: HasIndex(batches + [b], index) <==> HasIndex(batches, index) || IndexOf(b) == index
  {
    forall index
      ensures HasIndex(batches + [b], index) <==> HasIndex(batches, index) || IndexOf(b) == index
    {
      var more := batches + [b];
      if HasIndex(batches, index) {
        var k :| 0 <= k < |batches| && IndexOf(batches[k]) == index;
        assert more[k] == batches[k];
      }
      assert more[|batches|] == b;
    }
  }

  // ----- points -----

  /** A new request of the map span after the completion and not after the points. */
  predicate LaterStart(s: Envelope, p: Envelope, completed: Envelope, mapSpan: Option<string>) {
    s.parentSpanId == mapSpan && completed.sequence < s.sequence <= p.sequence
  }

  /** Points that belong to the completed request of the batch. */
  predicate Eligible(p: Envelope, b: Batch, mapSpan: Option<string>, requests: Requests) {
    && BatchIndex(p) == IndexOf(b) && p.spanId == b.latestBuilt.spanId && p.parentSpanId == mapSpan
    && b.llm.completed.Some? && b.llm.completed.value.sequence <= p.sequence
    && forall s | s in Get(requests.started, p.spanId) :: !LaterStart(s, p, b.llm.completed.value, mapSpan)
  }

  /** The batch with its latest eligible points. */
  function WithPoints(b: Batch, points: seq<Envelope>, mapSpan: Option<string>, requests: Requests): Batch {
    b.(produced := LastWhere(points, p => Eligible(p, b, mapSpan, requests)))
  }

  lemma PointsSnoc(b: Batch, points: seq<Envelope>, p: Envelope, mapSpan: Option<string>, requests: Requests)
    ensures WithPoints(b, points + [p], mapSpan, requests)
      == if Eligible(p, b, mapSpan, requests) then b.(produced := Some(p)) else WithPoints(b, points, mapSpan, requests)
  {
    assert (points + [p])[..|points|] == points;
  }

  /** Gives each batch its points, one points event after the other. */
  method AssignPoints(built: seq<Batch>, points: seq<Envelope>, mapSpan: Option<string>, requests: Requests)
    returns (batches: seq<Batch>)
    requires DistinctBy(built, IndexOf) && Ordered(points) && forall k :: 0 <= k < |built| ==> built[k].produced.None?
    ensures |batches| == |built|
    ensures forall k :: 0 <= k < |built| ==> batches[k] == WithPoints(built[k], points, mapSpan, requests)
  {
    batches := built;
    for next := 0 to |points|
      invariant |batches| == |built|
      invariant forall k :: 0 <= k < |built| ==> batches[k] == WithPoints(built[k], points[..next], mapSpan, requests)
    {
      var p := points[next];
      ghost var before := batches;
      assert points[..next + 1] == points[..next] + [p];
      var at := FindIndex(batches, BatchIndex(p));
      if at < |batches| && Eligible(p, batches[at], mapSpan, requests) {
        var produced := batches[at].produced;
        if produced.None? || p.sequence >= produced.value.sequence {
          batches := batches[at := batches[at].(produced := Some(p))];
        }
      }
      forall k | 0 <= k < |built| ensures batches[k] == WithPoints(built[k], points[..next + 1], mapSpan, requests) {
        PointsSnoc(built[k], points[..next], p, mapSpan, requests);
      }
    }
    assert points[..|points|] == points;
  }

  /** `batches.get(index)`. */
  method FindIndex(batches: seq<Batch>, index: int) returns (at: nat)
    ensures at <= |batches|
    ensures at < |batches| ==> IndexOf(batches[at]) == index
    ensures forall k :: 0 <= k < at ==> IndexOf(batches[k]) != index
  {
    at := 0;
    while at < |batches| && IndexOf(batches[at]) != index
      invariant at <= |batches|
      invariant forall k :: 0 <= k < at ==> IndexOf(batches[k]) != index
    {
      at := at + 1;
    }
  }

  /** The order of the events of one batch, for `BatchesInOrder`. */
  lemma BatchInOrder(b: Batch, events: seq<Envelope>, points: seq<Envelope>, mapSpan: string, requests: Requests)
    requires IsBatch(b, events, mapSpan, requests)
    ensures var w := WithPoints(b, points, Some(mapSpan), requests);
      && (w.produced.Some? ==> w.llm.completed.Some? && w.llm.completed.value.sequence <= w.produced.value.sequence)
      && (w.llm.completed.Some? ==>
        w.llm.started.Some? && w.llm.started.value.sequence <= w.llm.completed.value.sequence)
      && (w.llm.started.Some? ==> w.latestBuilt.sequence < w.llm.started.value.sequence)
      && (w.produced.Some? ==>
            forall s ::
              s in Get(requests.started, b.latestBuilt.spanId) && IsValid(s, mapSpan, b.latestBuilt.sequence) ==>
              s.sequence <= w.llm.started.value.sequence || s.sequence > w.produced.value.sequence)
  {
    var w := WithPoints(b, points, Some(mapSpan), requests);
    if w.produced.Some? {
      assert Eligible(w.produced.value, b, Some(mapSpan), requests);
    }
  }

  // ----- the steps -----

  function BatchEvents(b: Batch): seq<Envelope> {
    b.canonical + Present([b.llm.started, b.llm.completed, b.produced])
  }

  function AllBatchEvents(batches: seq<Batch>): seq<Envelope> {
    if batches == [] then [] else BatchEvents(batches[0]) + AllBatchEvents(batches[1..])
  }

  datatype Model = Model(
    selection: Option<Selection>, batches: seq<Batch>, reduceBuilt: Option<Envelope>, reduceSkipped: Option<Envelope>,
    answer: Pair,
    communityRaw: seq<Envelope>, mapRaw: seq<Envelope>, reduceRaw: seq<Envelope>, answerRaw: seq<Envelope>,
    diagnostics: seq<Envelope>)

  function SelectionRaw(selection: Option<Selection>): seq<Envelope> {
    if selection.Some? then selection.value.rawEvents else []
  }

  predicate IsQueryRoot(e: Envelope) {
    e.event == QueryStarted("global") && e.parentSpanId.None?
  }

  function QueryRootSpan(ordered: seq<Envelope>): Option<string> {
    match FirstWhere(ordered, IsQueryRoot) case Some(e) => Some(e.spanId) case None => None
  }

  function SpanOf(e: Option<Envelope>): Option<string> {
    match e case Some(v) => Some(v.spanId) case None => None
  }

  predicate SkipsReduce(e: Envelope, built: Envelope) {
    e.spanId == built.spanId && e.parentSpanId == built.parentSpanId && e.sequence > built.sequence
  }

  /** The latest skip after the reduce context, which must have no positive points. */
  function CompatibleSkip(built: Option<Envelope>, skips: seq<Envelope>): Option<Envelope> {
    if built.None? then None
    else if built.value.event.GlobalReduceContextBuilt? && built.value.event.positivePointCount > 0 then None
    else LastWhere(skips, e => SkipsReduce(e, built.value))
  }

  predicate InCommunity(e: Envelope, claimed: set<int>) {
    var kind := Classify(e.event);
    kind == ContextBuilt || kind == MapStart || (kind == BatchBuilt && e.sequence in claimed)
  }

  function CommunityRaw(ordered: seq<Envelope>, claimed: set<int>): seq<Envelope> {
    Filter(ordered, e => InCommunity(e, claimed))
  }

  /** The answer's request, under the parent of the reduce context, unless reduction was skipped. */
  ghost predicate IsAnswer(answer: Pair, built: Option<Envelope>, skip: Option<Envelope>, requests: Requests) {
    if built.None? || built.value.parentSpanId.None? || skip.Some? then answer == Pair(None, None)
    else LatestRequest(answer, Get(requests.started, built.value.spanId), Get(requests.completed, built.value.spanId),
                       built.value.parentSpanId.value, built.value.sequence)
  }

  /** The events by kind, and the requests by span. */
  datatype Sources = Sources(ordered: seq<Envelope>, all: Candidates, requests: Requests)

  ghost predicate SourcesOf(sources: Sources, ordered: seq<Envelope>) {
    && sources.ordered == ordered
    && sources.all
      == Candidates(OfKind(ordered, SelectionStart), OfKind(ordered, Wave), OfKind(ordered, Attempt),
        OfKind(ordered, SelectionEnd))
    && forall span ::
         && Get(sources.requests.started, span) == Group(OfKind(ordered, LlmStart), SpanIdOf, span)
         && Get(sources.requests.completed, span) == Group(OfKind(ordered, LlmEnd), SpanIdOf, span)
  }

  function SpanIdOf(e: Envelope): string {
    e.spanId
  }

  /** There is a selection exactly when the root has a window, and it is the selection of that window. */
  ghost predicate SelectionLaid(selection: Option<Selection>, sources: Sources) {
    match QueryRootSpan(sources.ordered)
    case None => selection.None?
    case Some(root) =>
      var c := RootCandidates(root, sources.all);
      if selection.None? then FindWindow(root, c).None? else Selects(selection.value, root, c, sources.requests)
  }

  /** The reduction and the answer, and the events that show them. */
  ghost predicate ReduceLaid(m: Model, sources: Sources) {
    && m.reduceBuilt == Last(OfKind(sources.ordered, ReduceBuilt))
    && m.reduceSkipped == CompatibleSkip(m.reduceBuilt, OfKind(sources.ordered, ReduceSkip))
    && IsAnswer(m.answer, m.reduceBuilt, m.reduceSkipped, sources.requests)
    && m.reduceRaw == SortBySequence(Present([m.reduceBuilt, m.reduceSkipped]))
    && m.answerRaw == SortBySequence(Present([m.answer.started, m.answer.completed]))
  }

  ghost predicate MapLaid(m: Model, sources: Sources) {
    && PointedBatches(m.batches, sources.ordered, SpanOf(Last(OfKind(sources.ordered, MapStart))), sources.requests)
    && m.mapRaw == SortBySequence(AllBatchEvents(m.batches))
  }

  function BuildClaims(m: Model): set<int> {
    Sequences(SelectionRaw(m.selection)) + Sequences(AllBatchEvents(m.batches))
  }

  /** The steps hold what their lifecycles say, and nothing else. */
  ghost predicate Lays(m: Model, sources: Sources) {
    && SelectionLaid(m.selection, sources)
    && MapLaid(m, sources)
    && ReduceLaid(m, sources)
    && m.communityRaw == CommunityRaw(sources.ordered, BuildClaims(m))
    && m.diagnostics == Unclaimed(sources.ordered, Claimed(m))
  }

  /** The sequence numbers that the steps claim. */
  ghost function Claimed(m: Model): set<int> {
    Sequences(SelectionRaw(m.selection)) + Sequences(AllBatchEvents(m.batches)) + Sequences(m.communityRaw)
    + Sequences(m.reduceRaw) + Sequences(m.answerRaw)
  }

  ghost predicate PointedBatches(batches: seq<Batch>, ordered: seq<Envelope>, mapSpan: Option<string>,
      requests: Requests)
  {
    exists built :: AreBatches(built, OfKind(ordered, BatchBuilt), mapSpan, requests) && |batches| == |built|
      && forall k :: 0 <= k < |built| ==> batches[k] == WithPoints(built[k], OfKind(ordered, Points), mapSpan, requests)
  }

  ghost predicate IsTimeline(m: Model, ordered: seq<Envelope>) {
    exists sources :: SourcesOf(sources, ordered) && Lays(m, sources)
  }

  const KINDS := [
    SelectionStart, Wave, Attempt, SelectionEnd, ContextBuilt, MapStart, BatchBuilt, Points, ReduceBuilt, ReduceSkip,
    LlmStart, LlmEnd
  ]

  /** The candidate lists, one per kind. */
  method ClassifyEvents(ordered: seq<Envelope>) returns (lists: map<Kind, seq<Envelope>>)
    ensures forall kind :: kind in KINDS ==> kind in lists && lists[kind] == OfKind(ordered, kind)
  {
    lists := map kind | kind in KINDS :: [];
    for next := 0 to |ordered|
      invariant forall kind :: kind in KINDS ==> kind in lists && lists[kind] == OfKind(ordered[..next], kind)
    {
      var envelope := ordered[next];
      assert ordered[..next + 1][..next] == ordered[..next];
      var kind := Classify(envelope.event);
      if kind in lists {
        lists := lists[kind := lists[kind] + [envelope]];
      }
    }
    assert ordered[..|ordered|] == ordered;
  }

  lemma KindOrdered(ordered: seq<Envelope>, kind: Kind)
    requires Ordered(ordered)
    ensures Ordered(OfKind(ordered, kind))
  {
    FilterOrdered(ordered, (e: Envelope) => Classify(e.event) == kind);
  }

  lemma SourcesOrdered(sources: Sources, ordered: seq<Envelope>)
    requires SourcesOf(sources, ordered) && Ordered(ordered)
    ensures OrderedCandidates(sources.all, sources.requests) && OrderedRequests(sources.requests)
  {
    forall kind ensures Ordered(OfKind(ordered, kind)) { KindOrdered(ordered, kind); }
    forall span ensures Ordered(Get(sources.requests.started, span)) && Ordered(Get(sources.requests.completed, span)) {
      GroupOrdered(OfKind(ordered, LlmStart), SpanIdOf, span);
      GroupOrdered(OfKind(ordered, LlmEnd), SpanIdOf, span);
    }
  }

  method BuildSources(ordered: seq<Envelope>, lists: map<Kind, seq<Envelope>>) returns (sources: Sources)
    requires Ordered(ordered) && forall kind :: kind in KINDS ==> kind in lists && lists[kind] == OfKind(ordered, kind)
    ensures SourcesOf(sources, ordered)
  {
    var started, _ := GroupBy(lists[LlmStart], SpanIdOf);
    var completed, _ := GroupBy(lists[LlmEnd], SpanIdOf);
    sources := Sources(ordered,
      Candidates(lists[SelectionStart], lists[Wave], lists[Attempt], lists[SelectionEnd]),
      Requests(started, completed));
  }

  /** `buildGlobalSemanticTimeline`. */
  method BuildGlobalSemanticTimeline(ordered: seq<Envelope>) returns (m: Model)
    requires Ordered(ordered)
    ensures IsTimeline(m, ordered)
  {
    var lists := ClassifyEvents(ordered);
    var sources := BuildSources(ordered, lists);
    SourcesOrdered(sources, ordered);
    var selection := BuildDynamicSelection(QueryRootSpan(ordered), sources.all, sources.requests);
    var batches :=
      PointBatches(lists[BatchBuilt], lists[Points], ordered, SpanOf(Last(lists[MapStart])), sources.requests);
    var reduceBuilt := Last(lists[ReduceBuilt]);
    var reduceSkipped := CompatibleSkip(reduceBuilt, lists[ReduceSkip]);
    var answer := FindAnswer(reduceBuilt, reduceSkipped, sources.requests);
    m := Assemble(ordered, selection, batches, reduceBuilt, reduceSkipped, answer);
    assert SelectionLaid(m.selection, sources);
    assert Lays(m, sources);
  }

  /** Claims the events of each step in turn and leaves the rest. */
  method Assemble(ordered: seq<Envelope>, selection: Option<Selection>, batches: seq<Batch>,
                  reduceBuilt: Option<Envelope>, reduceSkipped: Option<Envelope>, answer: Pair) returns (m: Model)
    ensures m.selection == selection && m.batches == batches
    ensures m.reduceBuilt == reduceBuilt && m.reduceSkipped == reduceSkipped && m.answer == answer
    ensures m.mapRaw == SortBySequence(AllBatchEvents(batches))
    ensures m.communityRaw == CommunityRaw(ordered, BuildClaims(m))
    ensures m.reduceRaw == SortBySequence(Present([reduceBuilt, reduceSkipped]))
    ensures m.answerRaw == SortBySequence(Present([answer.started, answer.completed]))
    ensures m.diagnostics == Unclaimed(ordered, Claimed(m))
  {
    var claimed := Sequences(SelectionRaw(selection));
    claimed := claimed + Sequences(AllBatchEvents(batches));
    var communityRaw := CommunityRaw(ordered, claimed);
    claimed := claimed + Sequences(communityRaw);
    var reduceRaw := SortBySequence(Present([reduceBuilt, reduceSkipped]));
    claimed := claimed + Sequences(reduceRaw);
    var answerRaw := SortBySequence(Present([answer.started, answer.completed]));
    claimed := claimed + Sequences(answerRaw);
    m := Model(selection, batches, reduceBuilt, reduceSkipped, answer, communityRaw,
      SortBySequence(AllBatchEvents(batches)),
               reduceRaw, answerRaw, Unclaimed(ordered, claimed));
  }

  method PointBatches(built: seq<Envelope>, points: seq<Envelope>, ordered: seq<Envelope>, mapSpan: Option<string>,
      requests: Requests)
    returns (batches: seq<Batch>)
    requires Ordered(ordered) && built == OfKind(ordered, BatchBuilt) && points == OfKind(ordered, Points)
    requires OrderedRequests(requests)
    ensures PointedBatches(batches, ordered, mapSpan, requests)
  {
    KindOrdered(ordered, Points);
    var unpointed := BuildBatches(built, mapSpan, requests);
    batches := AssignPoints(unpointed, points, mapSpan, requests);
  }

  method FindAnswer(built: Option<Envelope>, skip: Option<Envelope>, requests: Requests) returns (answer: Pair)
    requires OrderedRequests(requests)
    ensures IsAnswer(answer, built, skip, requests)
  {
    if built.None? || built.value.parentSpanId.None? || skip.Some? {
      return Pair(None, None);
    }
    var starts, completions := Get(requests.started, built.value.spanId), Get(requests.completed, built.value.spanId);
    answer := SelectLlmLifecycle(starts, completions, built.value.parentSpanId.value, built.value.sequence);
    SearchFindsLatest(starts, completions, built.value.parentSpanId.value, built.value.sequence);
  }

  // ----- diagnostics are the rest -----

  ghost predicate IsShown(e: Envelope, m: Model) {
    e in SelectionRaw(m.selection) || e in m.communityRaw || e in m.mapRaw || e in m.reduceRaw || e in m.answerRaw
  }

  lemma RequestIsOfRun(e: Envelope, sources: Sources, ordered: seq<Envelope>)
    requires SourcesOf(sources, ordered) && IsRequest(e, sources.requests)
    ensures e in ordered && Classify(e.event) in [LlmStart, LlmEnd]
  {
    var span :| e in Get(sources.requests.started, span) || e in Get(sources.requests.completed, span);
    assert e in Group(OfKind(ordered, LlmStart), SpanIdOf, span) || e in Group(OfKind(ordered, LlmEnd), SpanIdOf, span);
  }

  const SELECTION_KINDS := [SelectionStart, Wave, Attempt, SelectionEnd, LlmStart, LlmEnd]

  lemma SelectionIsOfRun(e: Envelope, selection: Option<Selection>, sources: Sources, ordered: seq<Envelope>)
    requires SourcesOf(sources, ordered) && SelectionLaid(selection, sources) && e in SelectionRaw(selection)
    ensures e in ordered && Classify(e.event) in SELECTION_KINDS
  {
    var root := QueryRootSpan(ordered).value;
    RawEventsAreCandidates(selection.value, root, RootCandidates(root, sources.all), sources.requests);
    CandidateIsOfRun(e, root, sources, ordered);
  }

  lemma CandidateIsOfRun(e: Envelope, root: string, sources: Sources, ordered: seq<Envelope>)
    requires SourcesOf(sources, ordered) && IsCandidate(e, RootCandidates(root, sources.all), sources.requests)
    ensures e in ordered && Classify(e.event) in SELECTION_KINDS
  {
    if IsRequest(e, sources.requests) {
      RequestIsOfRun(e, sources, ordered);
    } else {
      FromRoot(e, root, sources.all);
      KindOf(e, ordered);
    }
  }

  lemma FromRoot(e: Envelope, root: string, all: Candidates)
    ensures var c := RootCandidates(root, all);
      (e in c.starts ==> e in all.starts) && (e in c.waves ==> e in all.waves)
      && (e in c.attempts ==> e in all.attempts) && c.completions == all.completions
  {
  }

  lemma KindOf(e: Envelope, ordered: seq<Envelope>)
    ensures forall kind :: e in OfKind(ordered, kind) <==> e in ordered && Classify(e.event) == kind
  {
  }

  ghost predicate InBatch(e: Envelope, batches: seq<Batch>) {
    exists k :: 0 <= k < |batches| && e in BatchEvents(batches[k])
  }

  ghost predicate IsCanonical(e: Envelope, batches: seq<Batch>) {
    exists k :: 0 <= k < |batches| && e in batches[k].canonical
  }

  lemma {:induction false} FromBatchEvents(batches: seq<Batch>, e: Envelope)
    ensures e in AllBatchEvents(batches) <==> InBatch(e, batches)
  {
    if batches != [] {
      var rest := batches[1..];
      FromBatchEvents(rest, e);
      if InBatch(e, rest) {
        var k :| 0 <= k < |rest| && e in BatchEvents(rest[k]);
        assert e in BatchEvents(batches[k + 1]);
      }
      if InBatch(e, batches) && e !in BatchEvents(batches[0]) {
        var k :| 0 <= k < |batches| && e in BatchEvents(batches[k]);
        assert e in BatchEvents(rest[k - 1]);
      }
    }
  }

  const BATCH_KINDS := [BatchBuilt, Points, LlmStart, LlmEnd]

  lemma CanonicalKind(b: Batch, ordered: seq<Envelope>, mapSpan: string, requests: Requests)
    requires IsBuilt(b, OfKind(ordered, BatchBuilt), mapSpan, requests)
    ensures forall e :: e in b.canonical ==> e in ordered && Classify(e.event) == BatchBuilt
  {
    var children := ChildrenOf(Group(OfKind(ordered, BatchBuilt), BatchIndex, IndexOf(b)), mapSpan);
    forall e | e in b.canonical ensures e in ordered && Classify(e.event) == BatchBuilt {
      assert e in children;
      KindOf(e, ordered);
    }
  }

  lemma RequestOfBatch(b: Batch, ordered: seq<Envelope>, mapSpan: string, requests: Requests, e: Envelope)
    requires IsBuilt(b, OfKind(ordered, BatchBuilt), mapSpan, requests)
    requires b.llm.started == Some(e) || b.llm.completed == Some(e)
    ensures IsRequest(e, requests)
  {
  }

  lemma PointsOfBatch(b: Batch, ordered: seq<Envelope>, mapSpan: Option<string>, requests: Requests, e: Envelope)
    requires WithPoints(b, OfKind(ordered, Points), mapSpan, requests).produced == Some(e)
    ensures e in ordered && Classify(e.event) == Points
  {
    KindOf(e, ordered);
  }

  /** An event of a batch is an event of the run, and it is a build exactly when it is a canonical one. */
  ghost predicate OfBatch(e: Envelope, b: Batch, ordered: seq<Envelope>) {
    && e in ordered && Classify(e.event) in BATCH_KINDS
    && (Classify(e.event) == BatchBuilt <==> e in b.canonical)
  }

  lemma BatchEventIsOfRun(built: Batch, sources: Sources, ordered: seq<Envelope>, mapSpan: string, e: Envelope)
    requires SourcesOf(sources, ordered) && IsBuilt(built, OfKind(ordered, BatchBuilt), mapSpan, sources.requests)
    requires e in BatchEvents(WithPoints(built, OfKind(ordered, Points), Some(mapSpan), sources.requests))
    ensures OfBatch(e, built, ordered)
  {
    hide Classify, SourcesOf, IsBuilt, OfKind, Eligible;
    var b := WithPoints(built, OfKind(ordered, Points), Some(mapSpan), sources.requests);
    PresentElements([b.llm.started, b.llm.completed, b.produced]);
    CanonicalKind(built, ordered, mapSpan, sources.requests);
    if built.llm.started == Some(e) || built.llm.completed == Some(e) {
      RequestOfBatch(built, ordered, mapSpan, sources.requests, e);
      RequestIsOfRun(e, sources, ordered);
    } else if e !in built.canonical {
      PointsOfBatch(built, ordered, Some(mapSpan), sources.requests, e);
    }
  }

  lemma BatchesAreOfRun(e: Envelope, m: Model, sources: Sources, ordered: seq<Envelope>)
    requires SourcesOf(sources, ordered) && MapLaid(m, sources) && InBatch(e, m.batches)
    ensures e in ordered && Classify(e.event) in BATCH_KINDS
    ensures Classify(e.event) == BatchBuilt ==> IsCanonical(e, m.batches)
  {
    var mapSpan := SpanOf(Last(OfKind(ordered, MapStart)));
    var built :| AreBatches(built, OfKind(ordered, BatchBuilt), mapSpan, sources.requests) && |m.batches| == |built|
      && forall k :: 0 <= k < |built| ==>
        m.batches[k] == WithPoints(built[k], OfKind(ordered, Points), mapSpan, sources.requests);
    var k :| 0 <= k < |m.batches| && e in BatchEvents(m.batches[k]);
    assert IsBuilt(built[k], OfKind(ordered, BatchBuilt), mapSpan.value, sources.requests);
    BatchEventIsOfRun(built[k], sources, ordered, mapSpan.value, e);
  }

  lemma CanonicalIsBuild(e: Envelope, m: Model, sources: Sources, ordered: seq<Envelope>)
    requires SourcesOf(sources, ordered) && MapLaid(m, sources) && IsCanonical(e, m.batches)
    ensures e in ordered && Classify(e.event) == BatchBuilt && InBatch(e, m.batches)
  {
    var mapSpan := SpanOf(Last(OfKind(ordered, MapStart)));
    var built :| AreBatches(built, OfKind(ordered, BatchBuilt), mapSpan, sources.requests) && |m.batches| == |built|
      && forall k :: 0 <= k < |built| ==>
        m.batches[k] == WithPoints(built[k], OfKind(ordered, Points), mapSpan, sources.requests);
    var k :| 0 <= k < |m.batches| && e in m.batches[k].canonical;
    assert IsBuilt(built[k], OfKind(ordered, BatchBuilt), mapSpan.value, sources.requests);
    CanonicalKind(built[k], ordered, mapSpan.value, sources.requests);
    assert e in BatchEvents(m.batches[k]);
  }

  lemma AnswerIsRequest(e: Envelope, m: Model, sources: Sources)
    requires IsAnswer(m.answer, m.reduceBuilt, m.reduceSkipped, sources.requests)
    requires m.answer.started == Some(e) || m.answer.completed == Some(e)
    ensures IsRequest(e, sources.requests)
  {
  }

  lemma AnswerIsOfRun(e: Envelope, m: Model, sources: Sources, ordered: seq<Envelope>)
    requires SourcesOf(sources, ordered) && ReduceLaid(m, sources) && e in m.answerRaw
    ensures e in ordered
  {
    hide IsAnswer, SourcesOf;
    SortOrders(Present([m.answer.started, m.answer.completed]));
    PresentElements([m.answer.started, m.answer.completed]);
    AnswerIsRequest(e, m, sources);
    RequestIsOfRun(e, sources, ordered);
  }

  lemma ReduceIsOfRun(e: Envelope, m: Model, sources: Sources, ordered: seq<Envelope>)
    requires SourcesOf(sources, ordered) && ReduceLaid(m, sources) && (e in m.reduceRaw || e in m.answerRaw)
    ensures e in ordered
  {
    if e in m.answerRaw {
      AnswerIsOfRun(e, m, sources, ordered);
    } else {
      hide IsAnswer, Classify, SortBySequence;
      SortOrders(Present([m.reduceBuilt, m.reduceSkipped]));
      PresentElements([m.reduceBuilt, m.reduceSkipped]);
    }
  }

  /** Every event shown is an event of the run. */
  lemma ShownIsOfRun(e: Envelope, m: Model, sources: Sources, ordered: seq<Envelope>)
    requires SourcesOf(sources, ordered) && Lays(m, sources) && IsShown(e, m)
    ensures e in ordered
  {
    SortOrders(AllBatchEvents(m.batches));
    FromBatchEvents(m.batches, e);
    if e in SelectionRaw(m.selection) {
      SelectionIsOfRun(e, m.selection, sources, ordered);
    } else if e in m.mapRaw {
      BatchesAreOfRun(e, m, sources, ordered);
    } else if e !in m.communityRaw {
      ReduceIsOfRun(e, m, sources, ordered);
    }
  }

  lemma InSequences(s: seq<Envelope>, n: int)
    ensures n in Sequences(s) <==> exists e :: e in s && e.sequence == n
  {
    if n in Sequences(s) {
      var k :| 0 <= k < |s| && s[k].sequence == n;
      assert s[k] in s;
    }
  }

  lemma ClaimedAreShown(m: Model, n: int)
    requires m.mapRaw == SortBySequence(AllBatchEvents(m.batches))
    ensures n in Claimed(m) <==> exists e :: IsShown(e, m) && e.sequence == n
  {
    SortOrders(AllBatchEvents(m.batches));
    InSequences(SelectionRaw(m.selection), n);
    InSequences(AllBatchEvents(m.batches), n);
    InSequences(m.communityRaw, n);
    InSequences(m.reduceRaw, n);
    InSequences(m.answerRaw, n);
  }

  /** The diagnostics are exactly the events of the run that no step shows. */
  lemma DiagnosticsAreTheRest(m: Model, ordered: seq<Envelope>)
    requires IsTimeline(m, ordered) && DistinctSequences(ordered)
    ensures forall e :: e in m.diagnostics <==> e in ordered && !IsShown(e, m)
    ensures forall e :: IsShown(e, m) ==> e in ordered
  {
    var sources :| SourcesOf(sources, ordered) && Lays(m, sources);
    forall e | IsShown(e, m) ensures e in ordered {
      ShownIsOfRun(e, m, sources, ordered);
    }
    forall e ensures e in m.diagnostics <==> e in ordered && !IsShown(e, m) {
      ClaimedAreShown(m, e.sequence);
      if e in ordered && e.sequence in Claimed(m) {
        var x :| IsShown(x, m) && x.sequence == e.sequence;
        ShownIsOfRun(x, m, sources, ordered);
        SameSequenceSameEnvelope(ordered, x, e);
      }
    }
  }

  /**
   * Of the batch builds, Community Context shows the canonical ones and leaves the superseded ones to
   * the diagnostics.
   */
  lemma CommunityShows(m: Model, ordered: seq<Envelope>, e: Envelope)
    requires IsTimeline(m, ordered) && DistinctSequences(ordered)
    ensures e in m.communityRaw <==>
      e in ordered && (Classify(e.event) == ContextBuilt || Classify(e.event) == MapStart || IsCanonical(e, m.batches))
  {
    var sources :| SourcesOf(sources, ordered) && Lays(m, sources);
    if IsCanonical(e, m.batches) {
      CanonicalIsBuild(e, m, sources, ordered);
      FromBatchEvents(m.batches, e);
      InSequences(AllBatchEvents(m.batches), e.sequence);
    }
    if e in ordered && Classify(e.event) == BatchBuilt && e.sequence in BuildClaims(m) {
      BuiltClaimIsCanonical(m, sources, ordered, e);
    }
  }

  /** A build whose sequence number a selection or batch event carries is that event. */
  lemma BuiltClaimIsCanonical(m: Model, sources: Sources, ordered: seq<Envelope>, e: Envelope)
    requires SourcesOf(sources, ordered) && SelectionLaid(m.selection, sources) && MapLaid(m, sources)
    requires DistinctSequences(ordered)
    requires e in ordered && Classify(e.event) == BatchBuilt && e.sequence in BuildClaims(m)
    ensures IsCanonical(e, m.batches)
  {
    InSequences(SelectionRaw(m.selection), e.sequence);
    InSequences(AllBatchEvents(m.batches), e.sequence);
    if x :| x in SelectionRaw(m.selection) && x.sequence == e.sequence {
      SelectionIsOfRun(x, m.selection, sources, ordered);
      NoBuilds(x, e, ordered);
    } else {
      var x :| x in AllBatchEvents(m.batches) && x.sequence == e.sequence;
      FromBatchEvents(m.batches, x);
      BatchesAreOfRun(x, m, sources, ordered);
      SameSequenceSameEnvelope(ordered, x, e);
    }
  }

  lemma NoBuilds(x: Envelope, e: Envelope, ordered: seq<Envelope>)
    requires DistinctSequences(ordered) && x in ordered && e in ordered && Classify(x.event) in SELECTION_KINDS
    requires Classify(e.event) == BatchBuilt
    ensures x.sequence != e.sequence
  {
    if x.sequence == e.sequence {
      SameSequenceSameEnvelope(ordered, x, e);
    }
  }

  // ----- the selection of a timeline -----

  lemma ValidOfKind(ordered: seq<Envelope>)
    ensures forall e :: e in OfKind(ordered, SelectionStart) ==> IsSelectionStart(e.event)
    ensures forall e :: e in OfKind(ordered, Attempt) ==> IsAttempt(e.event)
    ensures forall e :: e in OfKind(ordered, SelectionEnd) ==> IsSelectionEnd(e.event)
  {
    hide IsSelectionStart, IsAttempt, IsSelectionEnd, IsWave;
  }

  lemma ValidCandidates(root: string, sources: Sources, ordered: seq<Envelope>)
    requires SourcesOf(sources, ordered)
    ensures var c := RootCandidates(root, sources.all);
      && ValidAttempts(c)
      && (forall e :: e in c.starts ==> IsSelectionStart(e.event))
      && (forall e :: e in c.completions ==> IsSelectionEnd(e.event))
  {
    hide IsSelectionStart, IsAttempt, IsSelectionEnd, OfKind;
    ValidOfKind(ordered);
    var c := RootCandidates(root, sources.all);
    assert c.completions == sources.all.completions == OfKind(ordered, SelectionEnd);
    assert forall e :: e in c.starts ==> e in OfKind(ordered, SelectionStart);
    assert forall e :: e in c.attempts ==> e in OfKind(ordered, Attempt);
  }

  /**
   * The selection that any Global timeline shows: one attempt for each repeat of a community, all of it
   * inside the window, no more attempts than the repeats of the wave communities, and a completion that
   * agrees with the threshold of the start on its span.
   */
  lemma TimelineSelection(m: Model, ordered: seq<Envelope>)
    requires IsTimeline(m, ordered) && m.selection.Some?
    ensures var s := m.selection.value;
      && DistinctBy(s.attempts, Slot)
      && (forall e :: e in s.rawEvents && s.window.started != Some(e) && s.window.completed != Some(e) ==>
            Inside(e, s.window))
      && (s.waves != [] && s.window.started.Some? ==>
            && s.window.started.value.event.DynamicSelectionStarted?
            && |s.attempts| <= s.window.started.value.event.numRepeats * |CommunityIds(s.waves)|)
      && (s.window.completed.Some? ==>
            && s.window.started.Some? && StartsBefore(s.window.started.value, s.window.completed.value)
            && IsSelectionStart(s.window.started.value.event) && IsSelectionEnd(s.window.completed.value.event)
            && ThresholdConsistent(s.window.completed.value.event.ratings, s.window.started.value.event.threshold))
  {
    var sources :| SourcesOf(sources, ordered) && Lays(m, sources);
    var root := QueryRootSpan(ordered).value;
    SelectionHolds(m.selection.value, root, sources, ordered);
  }

  lemma SelectionHolds(s: Selection, root: string, sources: Sources, ordered: seq<Envelope>)
    requires SourcesOf(sources, ordered) && Selects(s, root, RootCandidates(root, sources.all), sources.requests)
    ensures DistinctBy(s.attempts, Slot)
    ensures forall e :: e in s.rawEvents && s.window.started != Some(e) && s.window.completed != Some(e) ==>
      Inside(e, s.window)
    ensures s.waves != [] && s.window.started.Some? ==>
      && s.window.started.value.event.DynamicSelectionStarted?
      && |s.attempts| <= s.window.started.value.event.numRepeats * |CommunityIds(s.waves)|
    ensures s.window.completed.Some? ==>
      && s.window.started.Some? && StartsBefore(s.window.started.value, s.window.completed.value)
      && IsSelectionStart(s.window.started.value.event) && IsSelectionEnd(s.window.completed.value.event)
      && ThresholdConsistent(s.window.completed.value.event.ratings, s.window.started.value.event.threshold)
  {
    hide IsSelectionStart, IsSelectionEnd, IsAttempt, SourcesOf;
    var c := RootCandidates(root, sources.all);
    ValidCandidates(root, sources, ordered);
    DistinctSlots(s, root, c, sources.requests);
    RawEventsInsideWindow(s, root, c, sources.requests);
    WindowStarts(s, root, c, sources.requests);
    if s.window.completed.Some? {
      WindowIsCoherent(root, c);
    }
    if s.waves != [] && s.window.started.Some? {
      StartIsStart(s.window.started.value);
      AttemptsFit(s, root, c, sources.requests);
    }
  }

  lemma StartIsStart(e: Envelope)
    requires IsSelectionStart(e.event)
    ensures e.event.DynamicSelectionStarted?
  {
  }

  lemma WindowStarts(s: Selection, root: string, c: Candidates, requests: Requests)
    requires Selects(s, root, c, requests)
    ensures s.window.started.Some? ==> s.window.started.value in c.starts
  {
  }

  // ----- the batches of a timeline -----

  /** Built, requested, answered and turned into points, in that order. */
  ghost predicate TellsOneStory(b: Batch) {
    && (b.produced.Some? ==> b.llm.completed.Some? && b.llm.completed.value.sequence <= b.produced.value.sequence)
    && (b.llm.completed.Some? ==>
          b.llm.started.Some? && b.llm.started.value.sequence <= b.llm.completed.value.sequence)
    && (b.llm.started.Some? ==> b.latestBuilt.sequence < b.llm.started.value.sequence)
  }

  /** Of the requests on the span of the batch, none starts between its request and its points. */
  ghost predicate NothingBetween(b: Batch, ordered: seq<Envelope>, mapSpan: string) {
    b.produced.Some? && b.llm.started.Some? ==>
      forall s :: s in Group(OfKind(ordered, LlmStart), SpanIdOf, b.latestBuilt.spanId)
                  && IsValid(s, mapSpan, b.latestBuilt.sequence) ==>
        s.sequence <= b.llm.started.value.sequence || s.sequence > b.produced.value.sequence
  }

  lemma PointedBatchInOrder(built: Batch, sources: Sources, ordered: seq<Envelope>, mapSpan: string)
    requires SourcesOf(sources, ordered) && IsBuilt(built, OfKind(ordered, BatchBuilt), mapSpan, sources.requests)
    ensures var b := WithPoints(built, OfKind(ordered, Points), Some(mapSpan), sources.requests);
      TellsOneStory(b) && NothingBetween(b, ordered, mapSpan)
  {
    hide Classify, OfKind, IsBatch, IsValid, Group;
    var events := Group(OfKind(ordered, BatchBuilt), BatchIndex, IndexOf(built));
    BatchInOrder(built, events, OfKind(ordered, Points), mapSpan, sources.requests);
    assert Get(sources.requests.started, built.latestBuilt.spanId)
      == Group(OfKind(ordered, LlmStart), SpanIdOf, built.latestBuilt.spanId);
  }

  /** Every batch of a Global timeline tells one story, with no further request of its span in between. */
  lemma BatchesInOrder(m: Model, ordered: seq<Envelope>, k: nat)
    requires IsTimeline(m, ordered) && k < |m.batches|
    ensures OfKind(ordered, MapStart) != []
    ensures TellsOneStory(m.batches[k])
    ensures NothingBetween(m.batches[k], ordered, SpanOf(Last(OfKind(ordered, MapStart))).value)
  {
    hide Classify, OfKind, SourcesOf, TellsOneStory, NothingBetween, WithPoints, IsBuilt, SelectionLaid, ReduceLaid;
    var sources :| SourcesOf(sources, ordered) && Lays(m, sources);
    var mapSpan := SpanOf(Last(OfKind(ordered, MapStart)));
    SourcesHold(sources, ordered);
    var built :| AreBatches(built, OfKind(ordered, BatchBuilt), mapSpan, sources.requests) && |m.batches| == |built|
      && forall k :: 0 <= k < |built| ==>
        m.batches[k] == WithPoints(built[k], OfKind(ordered, Points), mapSpan, sources.requests);
    PointedBatchInOrder(built[k], sources, ordered, mapSpan.value);
  }

  lemma SourcesHold(sources: Sources, ordered: seq<Envelope>)
    requires SourcesOf(sources, ordered)
    ensures sources.ordered == ordered
  {
  }
}
