/** The events of a Global query: their validation, their grouping, and the lifecycle of a model request. */
module GlobalEvents {
  import opened Lists
  import opened Text
  import opened Timeline

  // ----- event validation -----

  datatype Kind =
    | SelectionStart | Wave | Attempt | SelectionEnd | ContextBuilt | MapStart
    | BatchBuilt | Points | ReduceBuilt | ReduceSkip | LlmStart | LlmEnd | Unrelated

  predicate IsWave(event: Event) {
    && event.DynamicWaveStarted? && IsNonNegativeInteger(event.waveIndex)
    && event.source in ["initial", "child_expansion", "fallback"]
    && event.communityIds != [] && "" !in event.communityIds
  }

  predicate IsAttempt(event: Event) {
    && event.DynamicAttemptStarted? && event.communityId != "" && event.reportId != ""
    && IsNonNegativeInteger(event.repeatIndex) && IsPositiveInteger(event.repeatCount)
    && event.repeatIndex < event.repeatCount
  }

  predicate IsSelectionStart(event: Event) {
    && event.DynamicSelectionStarted? && IsPositiveInteger(event.initialCommunityCount) &&
      IsSafeInteger(event.threshold)
    && IsNonNegativeInteger(event.maxLevel) && IsPositiveInteger(event.numRepeats)
  }

  predicate IsRating(rating: Rating) {
    && rating.communityId != "" && rating.reportId != ""
    && IsSafeInteger(rating.level) && IsSafeInteger(rating.selectedRating)
    && (rating.selected ==> rating.thresholdPassed)
  }

  predicate IsSelectionEnd(event: Event) {
    && event.DynamicSelectionCompleted?
    && IsNonNegativeInteger(event.visitedCount) && IsNonNegativeInteger(event.thresholdPassedCount)
    && IsNonNegativeInteger(event.selectedCount)
    && "" !in event.selectedCommunityIds && "" !in event.selectedReportIds
    && (forall k | 0 <= k < |event.ratings| :: IsRating(event.ratings[k]))
    && var passed := Filter(event.ratings, (rating: Rating) => rating.thresholdPassed);
       var selected := Filter(event.ratings, (rating: Rating) => rating.selected);
       && event.visitedCount == |event.ratings|
       && event.thresholdPassedCount == |passed|
       && event.selectedCount == |selected| == |event.selectedCommunityIds| == |event.selectedReportIds|
       && forall k | 0 <= k < |selected| ::
            && selected[k].thresholdPassed
            && selected[k].communityId == event.selectedCommunityIds[k]
            && selected[k].reportId == event.selectedReportIds[k]
  }

  function Classify(event: Event): Kind {
    if IsSelectionStart(event) then SelectionStart
    else if IsWave(event) then Wave
    else if IsAttempt(event) then Attempt
    else if IsSelectionEnd(event) then SelectionEnd
    else if event.GlobalContextBuilt? then ContextBuilt
    else if event.GlobalMapStarted? then MapStart
    else if event.GlobalMapBatchBuilt? then BatchBuilt
    else if event.GlobalMapPointsProduced? then Points
    else if event.GlobalReduceContextBuilt? then ReduceBuilt
    else if event.GlobalReduceSkipped? && event.reason == "no_positive_points" then ReduceSkip
    else if event.LlmRequestStarted? then LlmStart
    else if event.LlmRequestCompleted? then LlmEnd
    else Unrelated
  }

  function OfKind(s: seq<Envelope>, kind: Kind): seq<Envelope> {
    Filter(s, (e: Envelope) => Classify(e.event) == kind)
  }

  // ----- grouping -----

  /** `target.get(key) ?? []`. */
  function Get<T, K>(target: map<K, seq<T>>, key: K): seq<T> {
    if key in target then target[key] else []
  }

  /** The items of one group. */
  function Group<T(!new), K(==)>(items: seq<T>, key: T -> K, group: K): seq<T> {
    Filter(items, item => key(item) == group)
  }

  lemma GroupSnoc<T(!new), K>(items: seq<T>, item: T, key: T -> K, group: K)
    ensures Group(items + [item], key, group) == Group(items, key, group) + (if key(item) == group then [item] else [])
  {
    assert (items + [item])[..|items|] == items;
  }

  lemma GroupCounts<T(!new), K>(items: seq<T>, key: T -> K, group: K)
    ensures forall x :: multiset(Group(items, key, group))[x] == (if key(x) == group then multiset(items)[x] else 0)
  {
    FilterCounts(items, item => key(item) == group);
  }

  lemma GroupAscends<T(!new), K>(items: seq<T>, key: T -> K, group: K, order: T -> int)
    requires Ascending(items, order)
    ensures Ascending(Group(items, key, group), order)
  {
    FilterAscends(items, item => key(item) == group, order);
  }

  lemma GroupOrdered<K>(events: seq<Envelope>, key: Envelope -> K, group: K)
    requires Ordered(events)
    ensures Ordered(Group(events, key, group))
  {
    GroupAscends(events, key, group, SequenceOf);
    OrderedAscends(events);
    OrderedAscends(Group(events, key, group));
  }

  /** A `Map` of lists filled by `append`; `order` is the iteration order of its keys. */
  method GroupBy<T(!new), K(==, !new)>(items: seq<T>, key: T -> K) returns (groups: map<K, seq<T>>, order: seq<K>)
    ensures forall k :: Get(groups, k) == Group(items, key, k)
    ensures forall i, j :: 0 <= i < j < |order| ==> order[i] != order[j]
    ensures forall e :: e in items ==> key(e) in order
  {
    groups, order := map[], [];
    for next := 0 to |items|
      invariant forall k :: Get(groups, k) == Group(items[..next], key, k)
      invariant forall k :: k in groups <==> k in order
      invariant forall i, j :: 0 <= i < j < |order| ==> order[i] != order[j]
      invariant forall i :: 0 <= i < next ==> key(items[i]) in order
    {
      var item := items[next];
      assert items[..next + 1] == items[..next] + [item];
      ghost var before := groups;
      if key(item) !in groups {
        order := order + [key(item)];
      }
      groups := groups[key(item) := Get(groups, key(item)) + [item]];
      forall k ensures Get(groups, k) == Group(items[..next + 1], key, k) {
        GroupSnoc(items[..next], item, key, k);
        assert Get(before, k) == Group(items[..next], key, k);
      }
    }
    assert items[..|items|] == items;
  }

  /** `map.set(key(e), e)` on a `Map` given by its values: the key keeps its place. */
  function Put<K(==)>(values: seq<Envelope>, key: Envelope -> K, e: Envelope): (r: seq<Envelope>)
    ensures e in r
    ensures forall x :: x in r ==> x == e || x in values
    ensures forall x :: x in values && key(x) != key(e) ==> x in r
    ensures DistinctBy(values, key) ==> DistinctBy(r, key)
    ensures DistinctBy(values, key) ==> forall x :: x in r && key(x) == key(e) ==> x == e
  {
    if values == [] then [e]
    else
      assert values == [values[0]] + values[1..];
      if key(values[0]) == key(e) then [e] + values[1..] else [values[0]] + Put(values[1..], key, e)
  }

  /** The latest event of each key: nothing of the same key comes after it. */
  ghost predicate LatestOf<K>(x: Envelope, events: seq<Envelope>, key: Envelope -> K) {
    x in events && forall e :: e in events && key(e) == key(x) ==> e.sequence <= x.sequence
  }

  ghost predicate HasKey<K>(values: seq<Envelope>, key: Envelope -> K, k: K) {
    exists x :: x in values && key(x) == k
  }

  /** A `Map` that ends with the last event of each key. */
  method LatestByKey<K(==)>(events: seq<Envelope>, key: Envelope -> K) returns (latest: seq<Envelope>)
    requires Ordered(events)
    ensures DistinctBy(latest, key)
    ensures forall x :: x in latest ==> LatestOf(x, events, key)
    ensures forall e :: e in events ==> HasKey(latest, key, key(e))
  {
    latest := [];
    for next := 0 to |events|
      invariant DistinctBy(latest, key)
      invariant forall x :: x in latest ==> LatestOf(x, events[..next], key)
      invariant forall e :: e in events[..next] ==> HasKey(latest, key, key(e))
    {
      var event := events[next];
      ghost var before := latest;
      assert events[..next + 1] == events[..next] + [event];
      latest := Put(latest, key, event);
      forall e | e in events[..next + 1] ensures HasKey(latest, key, key(e)) {
        if key(e) != key(event) {
          assert HasKey(before, key, key(e));
        }
      }
    }
    assert events[..|events|] == events;
  }

  function ChildrenOf(s: seq<Envelope>, parent: string): seq<Envelope> {
    Filter(s, (e: Envelope) => e.parentSpanId == Some(parent))
  }

  // ----- the lifecycle of a model request -----

  /** Model request events by span. */
  datatype Requests = Requests(started: map<string, seq<Envelope>>, completed: map<string, seq<Envelope>>)

  ghost predicate IsRequest(e: Envelope, requests: Requests) {
    exists span :: e in Get(requests.started, span) || e in Get(requests.completed, span)
  }

  /** A request event of the parent, after its cause. */
  predicate IsValid(e: Envelope, parent: string, after: int) {
    e.parentSpanId == Some(parent) && e.sequence > after
  }

  function Valid(events: seq<Envelope>, parent: string, after: int): seq<Envelope> {
    Filter(events, e => IsValid(e, parent, after))
  }

  /** The latest start that is not after the completion. */
  function StartFor(starts: seq<Envelope>, completed: Envelope): Option<Envelope> {
    LastWhere(starts, (e: Envelope) => e.sequence <= completed.sequence)
  }

  /** The backward search: the last completion with a start, else the last start. */
  function SearchBack(starts: seq<Envelope>, completions: seq<Envelope>): Pair {
    if completions == [] then Pair(Last(starts), None)
    else
      var completed := completions[|completions| - 1];
      var started := StartFor(starts, completed);
      if started.Some? then Pair(started, Some(completed)) else SearchBack(starts, completions[..|completions| - 1])
  }

  /** Testing the latest completion only. */
  function TestLatest(starts: seq<Envelope>, completions: seq<Envelope>): Pair {
    var completed := Last(completions);
    if completed.Some? && StartFor(starts, completed.value).Some?
    then Pair(StartFor(starts, completed.value), completed) else Pair(Last(starts), None)
  }

  /** `selectLlmLifecycle`. */
  method SelectLlmLifecycle(starts: seq<Envelope>, completions: seq<Envelope>, parent: string, after: int)
    returns (pair: Pair)
    ensures pair == SearchBack(Valid(starts, parent, after), Valid(completions, parent, after))
  {
    var validStarts := Valid(starts, parent, after);
    var validCompletions := Valid(completions, parent, after);
    var next := |validCompletions|;
    assert validCompletions[..next] == validCompletions;
    while next > 0
      invariant 0 <= next <= |validCompletions|
      invariant SearchBack(validStarts, validCompletions) == SearchBack(validStarts, validCompletions[..next])
    {
      next := next - 1;
      var completed := validCompletions[next];
      assert validCompletions[..next + 1][..next] == validCompletions[..next];
      var started := StartFor(validStarts, completed);
      if started.Some? {
        return Pair(started, Some(completed));
      }
    }
    pair := Pair(Last(validStarts), None);
  }

  /** On ordered input a start that misses the latest completion misses every completion. */
  lemma {:induction false} SearchIsTest(starts: seq<Envelope>, completions: seq<Envelope>)
    requires Ordered(completions)
    ensures SearchBack(starts, completions) == TestLatest(starts, completions)
  {
    if completions != [] {
      var most, completed := completions[..|completions| - 1], completions[|completions| - 1];
      SearchIsTest(starts, most);
      if most != [] && StartFor(starts, completed).None? {
        assert most[|most| - 1].sequence <= completed.sequence;
      }
    }
  }

  /**
   * The lifecycle of one request, given its candidate events: the latest valid
   * completion with its latest start, unless no valid start precedes it; then
   * the latest valid start alone.
   */
  ghost predicate LatestRequest(pair: Pair, starts: seq<Envelope>, completions: seq<Envelope>, parent: string,
      after: int)
  {
    match pair.completed
    case Some(c) =>
      && c in completions && IsValid(c, parent, after)
      && (forall d :: d in completions && IsValid(d, parent, after) ==> d.sequence <= c.sequence)
      && pair.started.Some? && pair.started.value in starts
      && IsValid(pair.started.value, parent, after) && pair.started.value.sequence <= c.sequence
      && (forall s :: s in starts && IsValid(s, parent, after) && s.sequence <= c.sequence ==>
        s.sequence <= pair.started.value.sequence)
    case None =>
      && (forall s, d :: s in starts && IsValid(s, parent, after) && d in completions && IsValid(d, parent, after) ==>
        s.sequence > d.sequence)
      && (pair.started.None? ==> forall s :: s in starts ==> !IsValid(s, parent, after))
      && (pair.started.Some? ==>
            && pair.started.value in starts && IsValid(pair.started.value, parent, after)
            && forall s :: s in starts && IsValid(s, parent, after) ==> s.sequence <= pair.started.value.sequence)
  }

  lemma LastOf(s: seq<Envelope>)
    requires Ordered(s)
    ensures s != [] ==> s[|s| - 1] in s && forall e :: e in s ==> e.sequence <= s[|s| - 1].sequence
  {
  }

  lemma ValidEvents(events: seq<Envelope>, parent: string, after: int)
    requires Ordered(events)
    ensures Ordered(Valid(events, parent, after))
    ensures forall e :: e in Valid(events, parent, after) <==> e in events && IsValid(e, parent, after)
  {
    FilterOrdered(events, e => IsValid(e, parent, after));
  }

  /** The test of the latest completion, over lists of valid events. */
  lemma TestFindsLatest(starts: seq<Envelope>, completions: seq<Envelope>)
    requires Ordered(starts) && Ordered(completions)
    ensures var pair := TestLatest(starts, completions);
      match pair.completed
      case Some(c) =>
        && c in completions && (forall d :: d in completions ==> d.sequence <= c.sequence)
        && pair.started.Some? && pair.started.value in starts && pair.started.value.sequence <= c.sequence
        && (forall s :: s in starts && s.sequence <= c.sequence ==> s.sequence <= pair.started.value.sequence)
      case None =>
        && (forall s, d :: s in starts && d in completions ==> s.sequence > d.sequence)
        && (pair.started.None? ==> starts == [])
        && (pair.started.Some? ==>
              && pair.started.value in starts
              && forall s :: s in starts ==> s.sequence <= pair.started.value.sequence)
  {
    LastOf(starts);
    LastOf(completions);
  }

  /** Over ordered events, the search finds that lifecycle. */
  lemma SearchFindsLatest(starts: seq<Envelope>, completions: seq<Envelope>, parent: string, after: int)
    requires Ordered(starts) && Ordered(completions)
    ensures LatestRequest(SearchBack(Valid(starts, parent, after), Valid(completions, parent, after)), starts,
      completions, parent, after)
  {
    ValidEvents(starts, parent, after);
    ValidEvents(completions, parent, after);
    var validStarts, validCompletions := Valid(starts, parent, after), Valid(completions, parent, after);
    SearchIsTest(validStarts, validCompletions);
    TestFindsLatest(validStarts, validCompletions);
  }
}
