/** Run envelopes: their events, their order, and the merging of deliveries. */
module Timeline {
  import opened Lists
  import opened Text

  /** Largest integer that `Number.isSafeInteger` accepts. */
  const MAX_SAFE_INTEGER: int := 9007199254740991

  datatype Candidate = Candidate(id: string, recordType: string, selected: bool, rank: Option<int>,
      reason: Option<string>)

  datatype ContextSection = ContextSection(
    section: string, tokenBudget: int, tokensUsed: int, candidateCount: int, selectedCount: int,
    truncated: bool, selectedRecordIds: seq<string>)

  datatype SectionBudget = SectionBudget(section: string, tokenBudget: int)

  datatype Rating = Rating(
    communityId: string, reportId: string, level: int, selectedRating: int, thresholdPassed: bool, selected: bool)

  datatype MapPoint = MapPoint(batchIndex: int, pointIndex: int, score: real)

  /**
   * Event payloads whose fields have the declared JSON types. A payload with a
   * missing or mistyped field is `Other`, and so is every unknown type.
   */
  datatype Event =
    | QueryStarted(queryMethod: string)
    | RunCompleted
    | RunFailed
    | EmbeddingStarted(modelId: string)
    | EmbeddingCompleted(modelId: string, promptTokens: int, dimensions: int)
    | CandidatesRetrieved(recordType: string, candidates: seq<Candidate>)
    | CandidatesFiltered(recordType: string, candidates: seq<Candidate>)
    | BasicRetrievalSkipped(reason: string)
    | ContextBudgetAllocated(totalTokenBudget: int, sections: seq<SectionBudget>)
    | ContextSectionBuilt(section: ContextSection)
    | ContextCompleted(tokensUsed: int, context: Option<string>)
    | LlmRequestStarted(modelId: string, promptTokens: int, prompt: Option<string>)
    | LlmRequestCompleted(modelId: string, inputTokens: int, outputTokens: int, elapsedMs: int,
      response: Option<string>)
    | GlobalContextBuilt(batchCount: int, reportCount: int)
    | GlobalMapStarted(batchCount: int)
    | GlobalMapBatchBuilt(batchIndex: int, reportCount: int, tokensUsed: int, tokenBudget: int)
    | GlobalMapPointsProduced(batchIndex: int, points: seq<MapPoint>)
    | GlobalReduceContextBuilt(positivePointCount: int)
    | GlobalReduceSkipped(reason: string)
    | DynamicSelectionStarted(initialCommunityCount: int, threshold: int, maxLevel: int, numRepeats: int)
    | DynamicWaveStarted(waveIndex: int, source: string, communityIds: seq<string>)
    | DynamicAttemptStarted(communityId: string, reportId: string, repeatIndex: int, repeatCount: int)
    | DynamicSelectionCompleted(
        visitedCount: int, thresholdPassedCount: int, selectedCount: int,
        selectedCommunityIds: seq<string>, selectedReportIds: seq<string>, ratings: seq<Rating>)
    | Other(eventType: string)

  datatype Envelope = Envelope(sequence: int, spanId: string, parentSpanId: Option<string>, event: Event)

  /** A start and its completion, as far as they were found. */
  datatype Pair = Pair(started: Option<Envelope>, completed: Option<Envelope>)

  // ----- numbers -----

  predicate IsSafeInteger(n: int) {
    -MAX_SAFE_INTEGER <= n <= MAX_SAFE_INTEGER
  }

  predicate IsNonNegativeInteger(n: int) {
    IsSafeInteger(n) && n >= 0
  }

  predicate IsPositiveInteger(n: int) {
    IsSafeInteger(n) && n > 0
  }

  // ----- order -----

  ghost predicate Ordered(s: seq<Envelope>) {
    forall i, j :: 0 <= i < j < |s| ==> s[i].sequence <= s[j].sequence
  }

  ghost predicate StrictlyOrdered(s: seq<Envelope>) {
    forall i, j :: 0 <= i < j < |s| ==> s[i].sequence < s[j].sequence
  }

  ghost predicate DistinctSequences(s: seq<Envelope>) {
    forall i, j :: 0 <= i < j < |s| ==> s[i].sequence != s[j].sequence
  }

  function SequenceOf(e: Envelope): int {
    e.sequence
  }

  /** The stable `sort(bySequence)`. */
  function SortBySequence(s: seq<Envelope>): (r: seq<Envelope>)
    ensures multiset(r) == multiset(s)
    ensures |r| == |s|
  {
    SortBy(s, SequenceOf)
  }

  lemma SortOrders(s: seq<Envelope>)
    ensures Ordered(SortBySequence(s))
    ensures forall x :: x in SortBySequence(s) <==> x in s
  {
    SortAscends(s, SequenceOf);
  }

  lemma SortsStrictly(s: seq<Envelope>)
    requires DistinctSequences(s)
    ensures StrictlyOrdered(SortBySequence(s))
  {
    SortStrictly(s, SequenceOf);
  }

  lemma DistinctOccurOnce(s: seq<Envelope>)
    requires DistinctSequences(s)
    ensures forall e :: multiset(s)[e] <= 1
  {
    DistinctOnce(s, SequenceOf);
  }

  lemma SameSequenceSameEnvelope(s: seq<Envelope>, x: Envelope, y: Envelope)
    requires DistinctSequences(s) && x in s && y in s && x.sequence == y.sequence
    ensures x == y
  {
  }

  /** A strictly ordered list is determined by its elements. */
  lemma StrictlyOrderedUnique(s: seq<Envelope>, t: seq<Envelope>)
    requires StrictlyOrdered(s) && StrictlyOrdered(t) && forall e :: e in s <==> e in t
    ensures s == t
  {
    StrictlyAscendingUnique(s, t, SequenceOf);
  }

  // ----- searching -----

  /** `last(s.filter(f))`. */
  function LastWhere(s: seq<Envelope>, f: Envelope -> bool): (r: Option<Envelope>)
    ensures r.None? ==> forall e :: e in s ==> !f(e)
    ensures r.Some? ==> r.value in s && f(r.value)
    ensures r.Some? && Ordered(s) ==> forall e :: e in s && f(e) ==> e.sequence <= r.value.sequence
  {
    if s == [] then None
    else
      assert s == s[..|s| - 1] + [s[|s| - 1]];
      if f(s[|s| - 1]) then Some(s[|s| - 1]) else LastWhere(s[..|s| - 1], f)
  }

  /** `s.find(f)`. */
  function FirstWhere(s: seq<Envelope>, f: Envelope -> bool): (r: Option<Envelope>)
    ensures r.None? ==> forall e :: e in s ==> !f(e)
    ensures r.Some? ==> r.value in s && f(r.value)
    ensures r.Some? && Ordered(s) ==> forall e :: e in s && f(e) ==> r.value.sequence <= e.sequence
  {
    if s == [] then None
    else
      assert s == [s[0]] + s[1..];
      if f(s[0]) then Some(s[0]) else FirstWhere(s[1..], f)
  }

  function Last(s: seq<Envelope>): Option<Envelope> {
    if s == [] then None else Some(s[|s| - 1])
  }

  lemma FilterOrdered(s: seq<Envelope>, f: Envelope -> bool)
    ensures Ordered(s) ==> Ordered(Filter(s, f))
    ensures StrictlyOrdered(s) ==> StrictlyOrdered(Filter(s, f))
  {
    FilterAscends(s, f, SequenceOf);
    OrderedAscends(s);
    OrderedAscends(Filter(s, f));
  }

  lemma OrderedAscends(s: seq<Envelope>)
    ensures Ordered(s) <==> Ascending(s, SequenceOf)
    ensures StrictlyOrdered(s) <==> StrictlyAscending(s, SequenceOf)
  {
  }

  function Sequences(s: seq<Envelope>): set<int> {
    set k | 0 <= k < |s| :: s[k].sequence
  }

  lemma SequencesOf(s: seq<Envelope>, t: seq<Envelope>)
    ensures Sequences(s + t) == Sequences(s) + Sequences(t)
    ensures (forall e :: e in s <==> e in t) ==> Sequences(s) == Sequences(t)
  {
    var u := s + t;
    forall n | n in Sequences(s) + Sequences(t) ensures n in Sequences(u) {
      if n in Sequences(s) {
        var k :| 0 <= k < |s| && s[k].sequence == n;
        assert u[k] == s[k];
      } else {
        var k :| 0 <= k < |t| && t[k].sequence == n;
        assert u[|s| + k] == t[k];
      }
    }
    if forall e :: e in s <==> e in t {
      forall k | 0 <= k < |s| ensures s[k].sequence in Sequences(t) { assert s[k] in s && s[k] in t; }
      forall k | 0 <= k < |t| ensures t[k].sequence in Sequences(s) { assert t[k] in t && t[k] in s; }
    }
  }

  /** `ordered.filter(envelope => !claimed.has(envelope.sequence))`. */
  function Unclaimed(ordered: seq<Envelope>, claimed: set<int>): seq<Envelope> {
    Filter(ordered, (e: Envelope) => e.sequence !in claimed)
  }

  /** What is not claimed by sequence number is exactly what is not shown. */
  lemma Partition(ordered: seq<Envelope>, raw: seq<Envelope>, claimed: set<int>)
    requires DistinctSequences(ordered) && (forall e :: multiset(raw)[e] <= 1) &&
      (forall e :: e in raw ==> e in ordered)
    requires claimed == Sequences(raw)
    ensures multiset(raw) + multiset(Unclaimed(ordered, claimed)) == multiset(ordered)
  {
    var rest := Unclaimed(ordered, claimed);
    DistinctOccurOnce(ordered);
    FilterCounts(ordered, (e: Envelope) => e.sequence !in claimed);
    forall e
      ensures multiset(raw)[e] + multiset(rest)[e] == multiset(ordered)[e]
    {
      assert e in raw <==> multiset(raw)[e] > 0;
      assert e in rest <==> multiset(rest)[e] > 0;
      assert e in ordered <==> multiset(ordered)[e] > 0;
      if e in ordered && e.sequence in claimed {
        var k :| 0 <= k < |raw| && raw[k].sequence == e.sequence;
        assert raw[k] in raw;
        SameSequenceSameEnvelope(ordered, raw[k], e);
      }
    }
  }

  /** `values.filter(defined)`. */
  function Present(options: seq<Option<Envelope>>): seq<Envelope> {
    if options == [] then []
    else (if options[0].Some? then [options[0].value] else []) + Present(options[1..])
  }

  lemma {:induction false} PresentElements(options: seq<Option<Envelope>>)
    ensures forall e :: e in Present(options) <==> Some(e) in options
  {
    if options != [] {
      PresentElements(options[1..]);
      assert options == [options[0]] + options[1..];
    }
  }

  // ----- merging deliveries -----

  predicate HasSequence(s: seq<Envelope>, sequence: int) {
    exists k | 0 <= k < |s| :: s[k].sequence == sequence
  }

  /** `mergeEnvelopes`. */
  function MergeEnvelopes(current: seq<Envelope>, incoming: Envelope): seq<Envelope> {
    if HasSequence(current, incoming.sequence) then current else SortBySequence(current + [incoming])
  }

  /** The envelopes held after a stream of deliveries. */
  function MergeAll(deliveries: seq<Envelope>): seq<Envelope> {
    if deliveries == [] then []
    else MergeEnvelopes(MergeAll(deliveries[..|deliveries| - 1]), deliveries[|deliveries| - 1])
  }

  /** `e` is the first delivery of its sequence number. */
  ghost predicate FirstDelivered(e: Envelope, deliveries: seq<Envelope>) {
    FirstWhere(deliveries, (d: Envelope) => d.sequence == e.sequence) == Some(e)
  }

  lemma {:induction false} FirstSnoc(s: seq<Envelope>, last: Envelope, f: Envelope -> bool)
    ensures FirstWhere(s + [last], f)
      == if FirstWhere(s, f).Some? then FirstWhere(s, f) else if f(last) then Some(last) else None
  {
    if s == [] {
      assert s + [last] == [last];
    } else {
      assert (s + [last])[1..] == s[1..] + [last];
      FirstSnoc(s[1..], last, f);
    }
  }

  /** The first delivery of every sequence number is held, in strict order. */
  lemma {:induction false} MergeHolds(deliveries: seq<Envelope>)
    ensures StrictlyOrdered(MergeAll(deliveries))
    ensures forall e :: e in MergeAll(deliveries) <==> FirstDelivered(e, deliveries)
  {
    if deliveries != [] {
      var most, incoming := deliveries[..|deliveries| - 1], deliveries[|deliveries| - 1];
      assert deliveries == most + [incoming];
      MergeHolds(most);
      var current := MergeAll(most);
      Held(most, incoming.sequence);
      forall e ensures FirstDelivered(e, deliveries) <==>
        FirstDelivered(e, most) || (e == incoming && !HasSequence(current, incoming.sequence))
      {
        FirstSnoc(most, incoming, (d: Envelope) => d.sequence == e.sequence);
        Held(most, e.sequence);
      }
      if !HasSequence(current, incoming.sequence) {
        SortsStrictly(current + [incoming]);
        SortOrders(current + [incoming]);
      }
    }
  }

  lemma Held(deliveries: seq<Envelope>, sequence: int)
    requires forall e :: e in MergeAll(deliveries) <==> FirstDelivered(e, deliveries)
    ensures HasSequence(MergeAll(deliveries), sequence)
      <==> FirstWhere(deliveries, (d: Envelope) => d.sequence == sequence).Some?
  {
    var current := MergeAll(deliveries);
    var first := FirstWhere(deliveries, (d: Envelope) => d.sequence == sequence);
    if first.Some? {
      assert first.value in current;
    }
    if HasSequence(current, sequence) {
      var k :| 0 <= k < |current| && current[k].sequence == sequence;
      assert current[k] in current;
    }
  }

  /** Two streams of deliveries merge to the same list exactly when they agree on first deliveries. */
  lemma MergeDeterminedByFirst(deliveries: seq<Envelope>, others: seq<Envelope>)
    ensures MergeAll(deliveries) == MergeAll(others)
      <==> forall e :: FirstDelivered(e, deliveries) <==> FirstDelivered(e, others)
  {
    MergeHolds(deliveries);
    MergeHolds(others);
    if forall e :: FirstDelivered(e, deliveries) <==> FirstDelivered(e, others) {
      StrictlyOrderedUnique(MergeAll(deliveries), MergeAll(others));
    } else {
      var e :| FirstDelivered(e, deliveries) != FirstDelivered(e, others);
      assert (e in MergeAll(deliveries)) != (e in MergeAll(others));
    }
  }

  /** Redeliveries of a sequence number carry the same envelope. */
  ghost predicate Consistent(deliveries: seq<Envelope>) {
    forall x, y :: x in deliveries && y in deliveries && x.sequence == y.sequence ==> x == y
  }

  /** Then delivery order and duplicates do not matter. */
  lemma MergeOrderIrrelevant(deliveries: seq<Envelope>, others: seq<Envelope>)
    requires Consistent(deliveries) && forall e :: e in deliveries <==> e in others
    ensures MergeAll(deliveries) == MergeAll(others)
    ensures forall e :: e in MergeAll(deliveries) <==> e in deliveries
  {
    forall e ensures FirstDelivered(e, deliveries) <==> e in deliveries {}
    forall e ensures FirstDelivered(e, others) <==> e in others {}
    MergeHolds(deliveries);
    MergeDeterminedByFirst(deliveries, others);
  }
}
