/** Dynamic community selection: the window of one traversal and the rating attempts in it. */
module Selection {
  import opened GlobalEvents
  import opened Lists
  import opened Text
  import opened Timeline
  import Json

  // ----- candidates -----

  /** The selection events under the query root. */
  datatype Candidates = Candidates(
    starts: seq<Envelope>, waves: seq<Envelope>, attempts: seq<Envelope>, completions: seq<Envelope>)

  function ParentOr(e: Envelope, default: string): string {
    match e.parentSpanId case Some(p) => p case None => default
  }

  function Spans(s: seq<Envelope>): set<string> {
    set k | 0 <= k < |s| :: s[k].spanId
  }

  function RootCandidates(root: string, c: Candidates): Candidates {
    var starts, waves := ChildrenOf(c.starts, root), ChildrenOf(c.waves, root);
    var spans := Spans(starts + waves);
    Candidates(starts, waves, Filter(c.attempts, (e: Envelope) => ParentOr(e, "") in spans), c.completions)
  }

  // ----- the window -----

  datatype Window = Window(span: string, parent: Option<string>, started: Option<Envelope>, completed: Option<Envelope>)

  predicate ThresholdConsistent(ratings: seq<Rating>, threshold: int) {
    forall k | 0 <= k < |ratings| :: ratings[k].thresholdPassed == (ratings[k].selectedRating >= threshold)
  }

  predicate StartsBefore(s: Envelope, candidate: Envelope) {
    s.spanId == candidate.spanId && s.parentSpanId == candidate.parentSpanId && s.sequence < candidate.sequence
  }

  function StartBefore(starts: seq<Envelope>, candidate: Envelope): Option<Envelope> {
    LastWhere(starts, s => StartsBefore(s, candidate))
  }

  /** A completion under the root that agrees with the threshold of the latest start before it on its span. */
  predicate Coherent(candidate: Envelope, root: string, starts: seq<Envelope>) {
    && candidate.parentSpanId == Some(root)
    && candidate.event.DynamicSelectionCompleted?
    && var start := StartBefore(starts, candidate);
       && start.Some? && start.value.event.DynamicSelectionStarted?
       && ThresholdConsistent(candidate.event.ratings, start.value.event.threshold)
  }

  /** The latest coherent completion. */
  function ChosenCompletion(root: string, c: Candidates): Option<Envelope> {
    LastWhere(c.completions, e => Coherent(e, root, c.starts))
  }

  function LatestSignal(c: Candidates): Option<Envelope> {
    Last(SortBySequence(c.starts + c.waves + c.attempts))
  }

  function SelectionSpan(root: string, c: Candidates): Option<string> {
    var completed, signal := ChosenCompletion(root, c), LatestSignal(c);
    if completed.Some? then Some(completed.value.spanId)
    else if signal.None? then None
    else if signal.value.event.DynamicAttemptStarted? then signal.value.parentSpanId
    else Some(signal.value.spanId)
  }

  function SelectionParent(root: string, c: Candidates, span: string): Option<string> {
    var completed := ChosenCompletion(root, c);
    if completed.Some? && completed.value.parentSpanId.Some? then completed.value.parentSpanId
    else
      match Last(SortBySequence(Filter(c.starts + c.waves, (e: Envelope) => e.spanId == span)))
      case Some(e) => e.parentSpanId
      case None => None
  }

  predicate Below(sequence: int, upper: Option<Envelope>) {
    upper.Some? ==> sequence < upper.value.sequence
  }

  predicate Above(sequence: int, lower: Option<Envelope>) {
    lower.Some? ==> sequence > lower.value.sequence
  }

  function FindWindow(root: string, c: Candidates): Option<Window> {
    match SelectionSpan(root, c)
    case None => None
    case Some(span) =>
      var parent := SelectionParent(root, c, span);
      var completed := ChosenCompletion(root, c);
      var started := LastWhere(c.starts, (e: Envelope) =>
        e.spanId == span && e.parentSpanId == parent && Below(e.sequence, completed));
      Some(Window(span, parent, started, completed))
  }

  predicate Inside(e: Envelope, w: Window) {
    Above(e.sequence, w.started) && Below(e.sequence, w.completed)
  }

  /**
   * A chosen completion is coherent with the start of its own window and no later
   * completion is coherent with its start.
   */
  lemma WindowIsCoherent(root: string, c: Candidates)
    requires FindWindow(root, c).Some? && FindWindow(root, c).value.completed.Some?
    ensures var w := FindWindow(root, c).value;
      && w.completed.value in c.completions && w.span == w.completed.value.spanId && w.parent == Some(root)
      && w.started.Some? && w.started.value in c.starts && StartsBefore(w.started.value, w.completed.value)
      && w.started.value.event.DynamicSelectionStarted? && w.completed.value.event.DynamicSelectionCompleted?
      && ThresholdConsistent(w.completed.value.event.ratings, w.started.value.event.threshold)
    ensures Ordered(c.completions) ==>
      forall e :: e in c.completions && Coherent(e, root, c.starts) ==>
        e.sequence <= FindWindow(root, c).value.completed.value.sequence
  {
    var w := FindWindow(root, c).value;
    SameStart(c.starts, w);
  }

  /** The start of the window is the start its completion was checked against. */
  lemma SameStart(starts: seq<Envelope>, w: Window)
    requires w.completed.Some? && w.completed.value.spanId == w.span && w.completed.value.parentSpanId == w.parent
    ensures StartBefore(starts, w.completed.value) == LastWhere(starts, (e: Envelope) =>
      e.spanId == w.span && e.parentSpanId == w.parent && Below(e.sequence, w.completed))
  {
    LastWhereSame(starts, s => StartsBefore(s, w.completed.value), (e: Envelope) =>
      e.spanId == w.span && e.parentSpanId == w.parent && Below(e.sequence, w.completed));
  }

  lemma {:induction false} LastWhereSame(s: seq<Envelope>, f: Envelope -> bool, g: Envelope -> bool)
    requires forall e :: f(e) == g(e)
    ensures LastWhere(s, f) == LastWhere(s, g)
  {
    if s != [] {
      LastWhereSame(s[..|s| - 1], f, g);
    }
  }

  // ----- waves -----

  function WaveIndex(e: Envelope): int {
    if e.event.DynamicWaveStarted? then e.event.waveIndex else 0
  }

  function MatchingWaves(c: Candidates, w: Window): seq<Envelope> {
    Filter(c.waves, (e: Envelope) => e.spanId == w.span && e.parentSpanId == w.parent && Inside(e, w))
  }

  function CommunityIds(waves: seq<Envelope>): set<string> {
    set k, id | 0 <= k < |waves| && waves[k].event.DynamicWaveStarted? && id in waves[k].event.communityIds :: id
  }

  // ----- attempts -----

  function CommunityId(e: Envelope): string {
    if e.event.DynamicAttemptStarted? then e.event.communityId else ""
  }

  function RepeatIndex(e: Envelope): int {
    if e.event.DynamicAttemptStarted? then e.event.repeatIndex else 0
  }

  /** `dynamicAttemptIdentity`. */
  function AttemptIdentity(communityId: string, repeatIndex: int): string {
    communityId + ":" + (if repeatIndex < 0 then "-" + Json.DigitText(-repeatIndex) else Json.DigitText(repeatIndex))
  }

  function Identity(e: Envelope): string {
    AttemptIdentity(CommunityId(e), RepeatIndex(e))
  }

  /** `finalReports.get(communityId)`: a later rating of the same community wins. */
  function FinalReport(ratings: seq<Rating>, communityId: string): Option<string> {
    if ratings == [] then None
    else if ratings[|ratings| - 1].communityId == communityId then Some(ratings[|ratings| - 1].reportId)
    else FinalReport(ratings[..|ratings| - 1], communityId)
  }

  function Ratings(completed: Option<Envelope>): seq<Rating> {
    if completed.Some? && completed.value.event.DynamicSelectionCompleted? then completed.value.event.ratings else []
  }

  /**
   * An attempt of the window, for a community of its waves, with the repeats of its start and the
   * report it ended with.
   */
  predicate Admissible(e: Envelope, w: Window, waves: seq<Envelope>) {
    && e.event.DynamicAttemptStarted?
    && e.parentSpanId == Some(w.span) && Inside(e, w)
    && (waves != [] ==> e.event.communityId in CommunityIds(waves))
    && (w.started.Some? && w.started.value.event.DynamicSelectionStarted? ==>
          e.event.repeatCount == w.started.value.event.numRepeats)
    && (w.completed.Some? ==> FinalReport(Ratings(w.completed), e.event.communityId) == Some(e.event.reportId))
  }

  function AdmissibleAttempts(c: Candidates, w: Window, waves: seq<Envelope>): seq<Envelope> {
    Filter(c.attempts, e => Admissible(e, w, waves))
  }

  datatype AttemptView = AttemptView(attempt: Envelope, llm: Pair, rawEvents: seq<Envelope>)

  function BelowUpper(events: seq<Envelope>, upper: Option<Envelope>): seq<Envelope> {
    Filter(events, (e: Envelope) => Below(e.sequence, upper))
  }

  /** The attempt with the latest lifecycle of its request inside the window. */
  ghost predicate IsViewOf(view: AttemptView, attempt: Envelope, w: Window, requests: Requests) {
    && view.attempt == attempt
    && LatestRequest(view.llm,
                     BelowUpper(Get(requests.started, attempt.spanId), w.completed),
                     BelowUpper(Get(requests.completed, attempt.spanId), w.completed), w.span, attempt.sequence)
    && view.rawEvents == SortBySequence([attempt] + Present([view.llm.started, view.llm.completed]))
  }

  /** `buildDynamicAttemptView`. */
  method BuildDynamicAttemptView(attempt: Envelope, w: Window, requests: Requests) returns (view: AttemptView)
    requires Ordered(Get(requests.started, attempt.spanId)) && Ordered(Get(requests.completed, attempt.spanId))
    ensures IsViewOf(view, attempt, w, requests)
  {
    var starts := BelowUpper(Get(requests.started, attempt.spanId), w.completed);
    var completions := BelowUpper(Get(requests.completed, attempt.spanId), w.completed);
    FilterOrdered(Get(requests.started, attempt.spanId), (e: Envelope) => Below(e.sequence, w.completed));
    FilterOrdered(Get(requests.completed, attempt.spanId), (e: Envelope) => Below(e.sequence, w.completed));
    var llm := SelectLlmLifecycle(starts, completions, w.span, attempt.sequence);
    SearchFindsLatest(starts, completions, w.span, attempt.sequence);
    view := AttemptView(attempt, llm, SortBySequence([attempt] + Present([llm.started, llm.completed])));
  }

  // ----- decisions -----

  datatype Decision = Decision(rating: Rating, attempts: seq<AttemptView>)

  function ViewCommunity(view: AttemptView): string {
    CommunityId(view.attempt)
  }

  function ViewRepeat(view: AttemptView): int {
    RepeatIndex(view.attempt)
  }

  function AttemptsOf(views: seq<AttemptView>, communityId: string): seq<AttemptView> {
    SortBy(Group(views, ViewCommunity, communityId), ViewRepeat)
  }

  function DecisionOn(rating: Rating, views: seq<AttemptView>): Decision {
    Decision(rating, AttemptsOf(views, rating.communityId))
  }

  function Decisions(ratings: seq<Rating>, views: seq<AttemptView>): seq<Decision> {
    seq(|ratings|, i requires 0 <= i < |ratings| => DecisionOn(ratings[i], views))
  }

  // ----- the selection -----

  datatype Selection = Selection(
    window: Window, waves: seq<Envelope>, attempts: seq<AttemptView>, decisions: seq<Decision>,
    rawEvents: seq<Envelope>)

  function Attempts(views: seq<AttemptView>): seq<Envelope> {
    seq(|views|, i requires 0 <= i < |views| => views[i].attempt)
  }

  function AttemptEvents(views: seq<AttemptView>): seq<Envelope> {
    if views == [] then [] else views[0].rawEvents + AttemptEvents(views[1..])
  }

  function RawEvents(w: Window, waves: seq<Envelope>, views: seq<AttemptView>): seq<Envelope> {
    SortBySequence(Present([w.started]) + waves + AttemptEvents(views) + Present([w.completed]))
  }

  /** One event for each key of `all`: its latest. */
  ghost predicate LatestForEach<K>(latest: seq<Envelope>, all: seq<Envelope>, key: Envelope -> K) {
    && DistinctBy(latest, key)
    && (forall x :: x in latest ==> LatestOf(x, all, key))
    && (forall e :: e in all ==> HasKey(latest, key, key(e)))
  }

  /** What a selection holds, given the candidates under its root. */
  ghost predicate Selects(s: Selection, root: string, c: Candidates, requests: Requests) {
    && FindWindow(root, c) == Some(s.window)
    && Ordered(s.waves) && LatestForEach(s.waves, MatchingWaves(c, s.window), WaveIndex)
    && LatestForEach(Attempts(s.attempts), AdmissibleAttempts(c, s.window, s.waves), Identity)
    && (forall k :: 0 <= k < |s.attempts| ==> IsViewOf(s.attempts[k], s.attempts[k].attempt, s.window, requests))
    && s.decisions == Decisions(Ratings(s.window.completed), s.attempts)
    && s.rawEvents == RawEvents(s.window, s.waves, s.attempts)
  }

  ghost predicate OrderedCandidates(c: Candidates, requests: Requests) {
    && Ordered(c.starts) && Ordered(c.waves) && Ordered(c.attempts) && Ordered(c.completions)
    && (forall span :: Ordered(Get(requests.started, span)) && Ordered(Get(requests.completed, span)))
  }

  /** `buildDynamicSelection`. */
  method BuildDynamicSelection(root: Option<string>, all: Candidates, requests: Requests) returns (r: Option<Selection>)
    requires OrderedCandidates(all, requests)
    ensures root.None? ==> r.None?
    ensures root.Some? ==> (r.None? <==> FindWindow(root.value, RootCandidates(root.value, all)).None?)
    ensures root.Some? && r.Some? ==> Selects(r.value, root.value, RootCandidates(root.value, all), requests)
  {
    if root.None? {
      return None;
    }
    var c := RootCandidates(root.value, all);
    CandidatesOrdered(root.value, all);
    var window := FindWindow(root.value, c);
    if window.None? {
      return None;
    }
    var s := SelectIn(window.value, root.value, c, requests);
    r := Some(s);
  }

  /** The canonical waves and attempts of a window. */
  method SelectIn(w: Window, root: string, c: Candidates, requests: Requests) returns (s: Selection)
    requires FindWindow(root, c) == Some(w) && Ordered(c.waves) && Ordered(c.attempts)
    requires forall span :: Ordered(Get(requests.started, span)) && Ordered(Get(requests.completed, span))
    ensures Selects(s, root, c, requests)
  {
    var waves := CanonicalWaves(c, w);
    var views := CanonicalAttempts(c, w, waves, requests);
    s := Selection(w, waves, views, Decisions(Ratings(w.completed), views), RawEvents(w, waves, views));
  }

  method CanonicalWaves(c: Candidates, w: Window) returns (waves: seq<Envelope>)
    requires Ordered(c.waves)
    ensures Ordered(waves) && LatestForEach(waves, MatchingWaves(c, w), WaveIndex)
  {
    WindowOrdered(c, w);
    var latestWaves := LatestByKey(MatchingWaves(c, w), WaveIndex);
    waves := SortBySequence(latestWaves);
    SortKeepsLatest(latestWaves, MatchingWaves(c, w), WaveIndex);
  }

  method CanonicalAttempts(c: Candidates, w: Window, waves: seq<Envelope>, requests: Requests)
    returns (views: seq<AttemptView>)
    requires Ordered(c.attempts)
    requires forall span :: Ordered(Get(requests.started, span)) && Ordered(Get(requests.completed, span))
    ensures LatestForEach(Attempts(views), AdmissibleAttempts(c, w, waves), Identity)
    ensures forall k :: 0 <= k < |views| ==> IsViewOf(views[k], views[k].attempt, w, requests)
  {
    FilterOrdered(c.attempts, e => Admissible(e, w, waves));
    var latestAttempts := LatestByKey(AdmissibleAttempts(c, w, waves), Identity);
    views := BuildViews(latestAttempts, w, requests);
    assert Attempts(views) == latestAttempts;
  }

  lemma CandidatesOrdered(root: string, all: Candidates)
    requires Ordered(all.starts) && Ordered(all.waves) && Ordered(all.attempts)
    ensures var c := RootCandidates(root, all); Ordered(c.starts) && Ordered(c.waves) && Ordered(c.attempts)
  {
    var c := RootCandidates(root, all);
    var spans := Spans(c.starts + c.waves);
    FilterOrdered(all.starts, (e: Envelope) => e.parentSpanId == Some(root));
    FilterOrdered(all.waves, (e: Envelope) => e.parentSpanId == Some(root));
    FilterOrdered(all.attempts, (e: Envelope) => ParentOr(e, "") in spans);
  }

  lemma WindowOrdered(c: Candidates, w: Window)
    requires Ordered(c.waves)
    ensures Ordered(MatchingWaves(c, w))
  {
    FilterOrdered(c.waves, (e: Envelope) => e.spanId == w.span && e.parentSpanId == w.parent && Inside(e, w));
  }

  lemma SortKeepsLatest<K>(latest: seq<Envelope>, all: seq<Envelope>, key: Envelope -> K)
    requires LatestForEach(latest, all, key)
    ensures Ordered(SortBySequence(latest)) && LatestForEach(SortBySequence(latest), all, key)
  {
    var sorted := SortBySequence(latest);
    SortOrders(latest);
    DistinctOnce(latest, key);
    forall i, j | 0 <= i < j < |sorted| ensures key(sorted[i]) != key(sorted[j]) {
      if key(sorted[i]) == key(sorted[j]) {
        assert sorted[i] in sorted && sorted[j] in sorted;
        SameKeySameElement(latest, key, sorted[i], sorted[j]);
        TwiceInMultiset(sorted, i, j);
      }
    }
    forall e | e in all ensures HasKey(sorted, key, key(e)) {
      assert HasKey(latest, key, key(e));
    }
  }

  method BuildViews(attempts: seq<Envelope>, w: Window, requests: Requests) returns (views: seq<AttemptView>)
    requires forall span :: Ordered(Get(requests.started, span)) && Ordered(Get(requests.completed, span))
    ensures |views| == |attempts|
    ensures forall k :: 0 <= k < |views| ==> IsViewOf(views[k], attempts[k], w, requests)
  {
    views := [];
    for next := 0 to |attempts|
      invariant |views| == next
      invariant forall k :: 0 <= k < next ==> IsViewOf(views[k], attempts[k], w, requests)
    {
      var view := BuildDynamicAttemptView(attempts[next], w, requests);
      views := views + [view];
    }
  }

  // ----- one coherent window -----

  ghost predicate InSome(e: Envelope, views: seq<AttemptView>) {
    exists k :: 0 <= k < |views| && e in views[k].rawEvents
  }

  lemma {:induction false} FromAttemptEvents(views: seq<AttemptView>, e: Envelope)
    ensures e in AttemptEvents(views) <==> InSome(e, views)
  {
    if views != [] {
      var rest := views[1..];
      FromAttemptEvents(rest, e);
      if InSome(e, rest) {
        var k :| 0 <= k < |rest| && e in rest[k].rawEvents;
        assert e in views[k + 1].rawEvents;
      }
      if InSome(e, views) && e !in views[0].rawEvents {
        var k :| 0 <= k < |views| && e in views[k].rawEvents;
        assert e in rest[k - 1].rawEvents;
      }
    }
  }

  lemma RawEventsAre(w: Window, waves: seq<Envelope>, views: seq<AttemptView>)
    ensures forall e :: e in RawEvents(w, waves, views) <==>
      w.started == Some(e) || w.completed == Some(e) || e in waves || InSome(e, views)
  {
    SortOrders(Present([w.started]) + waves + AttemptEvents(views) + Present([w.completed]));
    forall e ensures e in AttemptEvents(views) <==> InSome(e, views) { FromAttemptEvents(views, e); }
    PresentElements([w.started]);
    PresentElements([w.completed]);
  }

  lemma ViewEvents(view: AttemptView, w: Window, requests: Requests)
    requires IsViewOf(view, view.attempt, w, requests)
    ensures forall e :: e in view.rawEvents <==>
      e == view.attempt || view.llm.started == Some(e) || view.llm.completed == Some(e)
    ensures view.llm.started.Some? ==>
      view.llm.started.value in Get(requests.started, view.attempt.spanId)
      && view.llm.started.value.sequence > view.attempt.sequence && Below(view.llm.started.value.sequence, w.completed)
    ensures view.llm.completed.Some? ==>
      view.llm.completed.value in Get(requests.completed, view.attempt.spanId)
      && view.llm.completed.value.sequence > view.attempt.sequence &&
        Below(view.llm.completed.value.sequence, w.completed)
  {
    SortOrders([view.attempt] + Present([view.llm.started, view.llm.completed]));
    PresentElements([view.llm.started, view.llm.completed]);
  }

  /** Every event shown lies between the start and the completion of the window. */
  lemma RawEventsInsideWindow(s: Selection, root: string, c: Candidates, requests: Requests)
    requires Selects(s, root, c, requests)
    ensures forall e :: e in s.rawEvents && s.window.started != Some(e) && s.window.completed != Some(e) ==>
      Inside(e, s.window)
    ensures s.window.started.Some? && s.window.completed.Some? ==>
      s.window.started.value.sequence < s.window.completed.value.sequence
  {
    RawEventsAre(s.window, s.waves, s.attempts);
    forall e | e in s.rawEvents && s.window.started != Some(e) && s.window.completed != Some(e)
      ensures Inside(e, s.window)
    {
      if e in s.waves {
        assert LatestOf(e, MatchingWaves(c, s.window), WaveIndex);
      } else {
        ViewInside(s, root, c, requests, e);
      }
    }
  }

  lemma ViewInside(s: Selection, root: string, c: Candidates, requests: Requests, e: Envelope)
    requires Selects(s, root, c, requests) && InSome(e, s.attempts)
    ensures Inside(e, s.window)
  {
    var k :| 0 <= k < |s.attempts| && e in s.attempts[k].rawEvents;
    AttemptIsAdmissible(s, root, c, requests, k);
    ViewEventInside(s.attempts[k], s.window, requests, e);
  }

  lemma ViewEventInside(view: AttemptView, w: Window, requests: Requests, e: Envelope)
    requires IsViewOf(view, view.attempt, w, requests) && Inside(view.attempt, w) && e in view.rawEvents
    ensures Inside(e, w)
  {
    ViewEvents(view, w, requests);
  }

  lemma AttemptIsAdmissible(s: Selection, root: string, c: Candidates, requests: Requests, k: nat)
    requires Selects(s, root, c, requests) && k < |s.attempts|
    ensures s.attempts[k].attempt in c.attempts && Admissible(s.attempts[k].attempt, s.window, s.waves)
  {
    var attempts := Attempts(s.attempts);
    assert attempts[k] in attempts;
    assert LatestOf(attempts[k], AdmissibleAttempts(c, s.window, s.waves), Identity);
  }

  /** Every event shown is one of the candidates or of the requests. */
  ghost predicate IsCandidate(e: Envelope, c: Candidates, requests: Requests) {
    e in c.starts || e in c.waves || e in c.attempts || e in c.completions || IsRequest(e, requests)
  }

  lemma RawEventsAreCandidates(s: Selection, root: string, c: Candidates, requests: Requests)
    requires Selects(s, root, c, requests)
    ensures forall e :: e in s.rawEvents ==> IsCandidate(e, c, requests)
  {
    RawEventsAre(s.window, s.waves, s.attempts);
    forall e | e in s.rawEvents ensures IsCandidate(e, c, requests) {
      if e in s.waves {
        assert LatestOf(e, MatchingWaves(c, s.window), WaveIndex);
      } else if InSome(e, s.attempts) {
        ViewIsCandidate(s, root, c, requests, e);
      }
    }
  }

  lemma ViewIsCandidate(s: Selection, root: string, c: Candidates, requests: Requests, e: Envelope)
    requires Selects(s, root, c, requests) && InSome(e, s.attempts)
    ensures IsCandidate(e, c, requests)
  {
    var k :| 0 <= k < |s.attempts| && e in s.attempts[k].rawEvents;
    AttemptIsAdmissible(s, root, c, requests, k);
    ViewEventKnown(s.attempts[k], s.window, requests, e);
  }

  lemma ViewEventKnown(view: AttemptView, w: Window, requests: Requests, e: Envelope)
    requires IsViewOf(view, view.attempt, w, requests) && e in view.rawEvents
    ensures e == view.attempt || IsRequest(e, requests)
  {
    ViewEvents(view, w, requests);
  }

  // ----- distinct attempts -----

  lemma {:induction false} DigitsOnly(n: nat)
    ensures Json.DigitText(n) != "" && forall c :: c in Json.DigitText(n) ==> '0' <= c <= '9'
  {
    if n >= 10 {
      DigitsOnly(n / 10);
    }
  }

  lemma DigitDistinct(a: nat, b: nat)
    requires a < 10 && b < 10 && "0123456789"[a] == "0123456789"[b]
    ensures a == b
  {
  }

  lemma LastDigit(n: nat)
    ensures var s := Json.DigitText(n); s != "" && s[|s| - 1] == "0123456789"[n % 10]
    ensures n >= 10 ==> Json.DigitText(n)[..|Json.DigitText(n)| - 1] == Json.DigitText(n / 10) != ""
    ensures n < 10 ==> |Json.DigitText(n)| == 1
  {
    DigitsOnly(n / 10);
  }

  lemma {:induction false} DigitTextInjective(m: nat, n: nat)
    requires Json.DigitText(m) == Json.DigitText(n)
    ensures m == n
  {
    LastDigit(m);
    LastDigit(n);
    DigitDistinct(m % 10, n % 10);
    if m >= 10 && n >= 10 {
      DigitTextInjective(m / 10, n / 10);
    }
  }

  /** Identities are unambiguous although community ids may hold any characters. */
  lemma IdentityInjective(a: string, i: nat, b: string, j: nat)
    requires AttemptIdentity(a, i) == AttemptIdentity(b, j)
    ensures a == b && i == j
  {
    var s, t := AttemptIdentity(a, i), AttemptIdentity(b, j);
    DigitsOnly(i);
    DigitsOnly(j);
    forall k | |a| < k < |s| ensures s[k] != ':' { assert s[k] == Json.DigitText(i)[k - |a| - 1]; }
    forall k | |b| < k < |t| ensures t[k] != ':' { assert t[k] == Json.DigitText(j)[k - |b| - 1]; }
    assert s[|a|] == ':' && t[|b|] == ':';
    assert a == s[..|a|] == t[..|b|] == b;
    assert Json.DigitText(i) == s[|a| + 1..] == t[|b| + 1..] == Json.DigitText(j);
    DigitTextInjective(i, j);
  }

  // ----- how many attempts -----

  function Slot(view: AttemptView): (string, int) {
    (ViewCommunity(view), ViewRepeat(view))
  }

  ghost function Slots(communities: set<string>, repeats: nat): set<(string, int)> {
    set id, i | id in communities && 0 <= i < repeats :: (id, i)
  }

  lemma {:induction false} SlotCount(communities: set<string>, repeats: nat)
    ensures |Slots(communities, repeats)| == |communities| * repeats
    decreases |communities|
  {
    if communities == {} {
      assert Slots(communities, repeats) == {};
    } else {
      var id :| id in communities;
      var rest := communities - {id};
      SlotCount(rest, repeats);
      SlotCountOne(id, repeats);
      assert communities == rest + {id};
      SlotsSplit(rest, id, repeats);
      OneMore(|rest|, repeats);
    }
  }

  lemma SlotsSplit(rest: set<string>, id: string, repeats: nat)
    requires id !in rest
    ensures |Slots(rest + {id}, repeats)| == |Slots(rest, repeats)| + |Slots({id}, repeats)|
  {
    assert Slots(rest + {id}, repeats) == Slots(rest, repeats) + Slots({id}, repeats);
  }

  lemma {:induction false} SlotCountOne(id: string, repeats: nat)
    ensures |Slots({id}, repeats)| == repeats
  {
    if repeats == 0 {
      assert Slots({id}, 0) == {};
    } else {
      SlotCountOne(id, repeats - 1);
      assert Slots({id}, repeats) == Slots({id}, repeats - 1) + {(id, repeats - 1)};
    }
  }

  lemma {:induction false} DistinctFit(views: seq<AttemptView>, slots: set<(string, int)>)
    requires DistinctBy(views, Slot) && forall k :: 0 <= k < |views| ==> Slot(views[k]) in slots
    ensures |views| <= |slots|
  {
    if views != [] {
      var last := Slot(views[|views| - 1]);
      DistinctFit(views[..|views| - 1], slots - {last});
    }
  }

  ghost predicate ValidAttempts(c: Candidates) {
    forall e :: e in c.attempts ==> IsAttempt(e.event)
  }

  /** No two attempts shown are for the same repeat of the same community. */
  lemma DistinctSlots(s: Selection, root: string, c: Candidates, requests: Requests)
    requires Selects(s, root, c, requests) && ValidAttempts(c)
    ensures DistinctBy(s.attempts, Slot)
  {
    var attempts := Attempts(s.attempts);
    forall i, j | 0 <= i < j < |s.attempts| ensures Slot(s.attempts[i]) != Slot(s.attempts[j]) {
      assert Identity(attempts[i]) != Identity(attempts[j]);
    }
  }

  /** With waves and a start, the attempts fit into the repeats of the communities of the waves. */
  lemma AttemptsFit(s: Selection, root: string, c: Candidates, requests: Requests)
    requires Selects(s, root, c, requests) && ValidAttempts(c)
    requires s.waves != [] && s.window.started.Some? && IsSelectionStart(s.window.started.value.event)
    ensures |s.attempts| <= s.window.started.value.event.numRepeats * |CommunityIds(s.waves)|
  {
    var repeats := s.window.started.value.event.numRepeats;
    DistinctSlots(s, root, c, requests);
    forall k | 0 <= k < |s.attempts| ensures Slot(s.attempts[k]) in Slots(CommunityIds(s.waves), repeats) {
      AttemptIsAdmissible(s, root, c, requests, k);
    }
    DistinctFit(s.attempts, Slots(CommunityIds(s.waves), repeats));
    SlotCount(CommunityIds(s.waves), repeats);
  }

  // ----- the attempts of the decisions -----

  function DecidedAttempts(decisions: seq<Decision>): seq<AttemptView> {
    if decisions == [] then []
    else DecidedAttempts(decisions[..|decisions| - 1]) + decisions[|decisions| - 1].attempts
  }

  function TimesRated(ratings: seq<Rating>, communityId: string): nat {
    if ratings == [] then 0
    else
      var last := ratings[|ratings| - 1];
      TimesRated(ratings[..|ratings| - 1], communityId) + (if last.communityId == communityId then 1 else 0)
  }

  lemma CountedUnder(rating: Rating, views: seq<AttemptView>, view: AttemptView)
    ensures multiset(DecisionOn(rating, views).attempts)[view]
      == if ViewCommunity(view) == rating.communityId then multiset(views)[view] else 0
  {
    GroupCounts(views, ViewCommunity, rating.communityId);
  }

  lemma DecidedLast(ratings: seq<Rating>, views: seq<AttemptView>)
    requires ratings != []
    ensures DecidedAttempts(Decisions(ratings, views))
      == DecidedAttempts(Decisions(ratings[..|ratings| - 1], views))
        + DecisionOn(ratings[|ratings| - 1], views).attempts
  {
    var decisions := Decisions(ratings, views);
    assert decisions[..|decisions| - 1] == Decisions(ratings[..|ratings| - 1], views);
  }

  /** An attempt is under every rating of its community. */
  lemma {:induction false} DecidedOften(ratings: seq<Rating>, views: seq<AttemptView>, view: AttemptView)
    ensures multiset(DecidedAttempts(Decisions(ratings, views)))[view]
      == TimesRated(ratings, ViewCommunity(view)) * multiset(views)[view]
  {
    if ratings != [] {
      var most, last := ratings[..|ratings| - 1], ratings[|ratings| - 1];
      DecidedOften(most, views, view);
      DecidedLast(ratings, views);
      CountedUnder(last, views, view);
      OneMore(TimesRated(most, ViewCommunity(view)), multiset(views)[view]);
    }
  }

  lemma OneMore(often: nat, n: nat)
    ensures (often + 1) * n == often * n + n
    ensures n > 0 ==> (often * n == n <==> often == 1)
  {
    if often > 1 && n > 0 {
      assert often * n >= 2 * n;
    }
  }

  lemma {:induction false} ReportedIsRated(ratings: seq<Rating>, communityId: string)
    ensures FinalReport(ratings, communityId).Some? <==> TimesRated(ratings, communityId) > 0
  {
    if ratings != [] {
      ReportedIsRated(ratings[..|ratings| - 1], communityId);
    }
  }

  /**
   * After a completion, the attempts under the decisions are the attempts shown,
   * each once, exactly when no attempted community is rated twice.
   */
  lemma DecisionsPartition(s: Selection, root: string, c: Candidates, requests: Requests)
    requires Selects(s, root, c, requests) && s.window.completed.Some?
    ensures multiset(DecidedAttempts(s.decisions)) == multiset(s.attempts)
      <==> forall view :: view in s.attempts ==> TimesRated(Ratings(s.window.completed), ViewCommunity(view)) <= 1
  {
    var ratings := Ratings(s.window.completed);
    forall view | view in s.attempts
      ensures TimesRated(ratings, ViewCommunity(view)) > 0
    {
      var k :| 0 <= k < |s.attempts| && s.attempts[k] == view;
      AttemptIsAdmissible(s, root, c, requests, k);
      ReportedIsRated(ratings, ViewCommunity(view));
    }
    PartitionWhen(ratings, s.attempts);
  }

  lemma PartitionWhen(ratings: seq<Rating>, views: seq<AttemptView>)
    requires forall view :: view in views ==> TimesRated(ratings, ViewCommunity(view)) > 0
    ensures multiset(DecidedAttempts(Decisions(ratings, views))) == multiset(views)
      <==> forall view :: view in views ==> TimesRated(ratings, ViewCommunity(view)) <= 1
  {
    var decided := multiset(DecidedAttempts(Decisions(ratings, views)));
    forall view
      ensures view in views ==>
        (decided[view] == multiset(views)[view] <==> TimesRated(ratings, ViewCommunity(view)) == 1)
      ensures view !in views ==> decided[view] == multiset(views)[view]
    {
      DecidedOften(ratings, views, view);
      OneMore(TimesRated(ratings, ViewCommunity(view)), multiset(views)[view]);
      assert view in views <==> multiset(views)[view] > 0;
    }
    assert decided == multiset(views) <==> forall view :: decided[view] == multiset(views)[view];
  }

  /** The attempts of a decision are in strict order of their repeats. */
  lemma DecisionAscends(s: Selection, root: string, c: Candidates, requests: Requests, k: nat)
    requires Selects(s, root, c, requests) && ValidAttempts(c) && k < |Ratings(s.window.completed)|
    ensures |s.decisions| == |Ratings(s.window.completed)|
    ensures StrictlyAscending(s.decisions[k].attempts, ViewRepeat)
  {
    assert s.decisions[k] == DecisionOn(Ratings(s.window.completed)[k], s.attempts);
    DistinctSlots(s, root, c, requests);
    var id := Ratings(s.window.completed)[k].communityId;
    GroupKeepsDistinct(s.attempts, id);
    SortStrictly(Group(s.attempts, ViewCommunity, id), ViewRepeat);
  }

  lemma {:induction false} GroupKeepsDistinct(views: seq<AttemptView>, id: string)
    requires DistinctBy(views, Slot)
    ensures DistinctBy(Group(views, ViewCommunity, id), ViewRepeat)
  {
    if views != [] {
      var most, last := views[..|views| - 1], views[|views| - 1];
      GroupKeepsDistinct(most, id);
      forall e | e in Group(most, ViewCommunity, id) && ViewCommunity(last) == id
        ensures ViewRepeat(e) != ViewRepeat(last)
      {
        var k :| 0 <= k < |most| && most[k] == e;
        assert Slot(views[k]) != Slot(views[|views| - 1]);
      }
      var front := Group(most, ViewCommunity, id);
      assert forall i :: 0 <= i < |front| ==> front[i] in front;
    }
  }

  // ----- a community rated twice -----

  function TwiceRated(community: string): seq<Rating> {
    var rating := Rating(community, "report", 0, 0, false, false);
    [rating, rating]
  }

  /** A start, one attempt and a completion that rates the community of the attempt twice. */
  function TwiceRatedRun(root: string, community: string): Candidates {
    Candidates(
      [Envelope(1, "selection", Some(root), DynamicSelectionStarted(1, 1, 0, 1))], [],
      [Envelope(2, "attempt", Some("selection"), DynamicAttemptStarted(community, "report", 0, 1))],
      [Envelope(3, "selection", Some(root), DynamicSelectionCompleted(2, 0, 0, [], [], TwiceRated(community)))])
  }

  const NO_REQUESTS := Requests(map[], map[])

  ghost predicate AllValid(c: Candidates) {
    && (forall e :: e in c.starts ==> IsSelectionStart(e.event)) && (forall e :: e in c.waves ==> IsWave(e.event))
    && ValidAttempts(c) && (forall e :: e in c.completions ==> IsSelectionEnd(e.event))
  }

  lemma TwiceRatedEvents(root: string, community: string)
    requires community != ""
    ensures AllValid(TwiceRatedRun(root, community))
  {
    var c := TwiceRatedRun(root, community);
    var end := c.completions[0].event;
    FilterNone(end.ratings, (rating: Rating) => rating.thresholdPassed);
    FilterNone(end.ratings, (rating: Rating) => rating.selected);
  }

  lemma TwiceRatedIsValid(root: string, community: string)
    requires community != ""
    ensures AllValid(TwiceRatedRun(root, community))
    ensures OrderedCandidates(TwiceRatedRun(root, community), NO_REQUESTS)
    ensures RootCandidates(root, TwiceRatedRun(root, community)) == TwiceRatedRun(root, community)
  {
    hide AllValid;
    var c := TwiceRatedRun(root, community);
    TwiceRatedEvents(root, community);
    FilterAll(c.starts, (e: Envelope) => e.parentSpanId == Some(root));
    assert (c.starts + c.waves)[0].spanId == "selection";
    FilterAll(c.attempts, (e: Envelope) => ParentOr(e, "") in Spans(c.starts + c.waves));
  }

  lemma {:induction false} FilterAll<T(!new)>(s: seq<T>, f: T -> bool)
    requires forall k :: 0 <= k < |s| ==> f(s[k])
    ensures Filter(s, f) == s
  {
    FilterTail(s, f, 0);
    assert s[0..] == s;
  }

  lemma FilterNone<T(!new)>(s: seq<T>, f: T -> bool)
    requires forall k :: 0 <= k < |s| ==> !f(s[k])
    ensures Filter(s, f) == []
  {
    FilterTail(s, f, |s|);
  }

  function TwiceRatedWindow(root: string, community: string): Window {
    var c := TwiceRatedRun(root, community);
    Window("selection", Some(root), Some(c.starts[0]), Some(c.completions[0]))
  }

  /** What is shown of it. */
  function TwiceRatedSelection(root: string, community: string): Selection {
    var c, w := TwiceRatedRun(root, community), TwiceRatedWindow(root, community);
    var view := AttemptView(c.attempts[0], Pair(None, None), SortBySequence([c.attempts[0]] + Present([None, None])));
    Selection(w, [], [view], Decisions(TwiceRated(community), [view]), RawEvents(w, [], [view]))
  }

  lemma TwiceRatedFindsWindow(root: string, community: string)
    ensures FindWindow(root, TwiceRatedRun(root, community)) == Some(TwiceRatedWindow(root, community))
  {
    var c := TwiceRatedRun(root, community);
    assert StartBefore(c.starts, c.completions[0]) == Some(c.starts[0]);
    assert Coherent(c.completions[0], root, c.starts);
    assert ChosenCompletion(root, c) == Some(c.completions[0]);
  }

  lemma TwiceRatedAdmits(root: string, community: string)
    ensures AdmissibleAttempts(TwiceRatedRun(root, community), TwiceRatedWindow(root, community), [])
      == TwiceRatedRun(root, community).attempts
    ensures MatchingWaves(TwiceRatedRun(root, community), TwiceRatedWindow(root, community)) == []
  {
    var c, w := TwiceRatedRun(root, community), TwiceRatedWindow(root, community);
    assert FinalReport(TwiceRated(community), community) == Some("report");
    FilterAll(c.attempts, e => Admissible(e, w, []));
  }

  lemma TwiceRatedView(root: string, community: string)
    ensures var s := TwiceRatedSelection(root, community);
      && |s.attempts| == 1 && IsViewOf(s.attempts[0], s.attempts[0].attempt, s.window, NO_REQUESTS)
  {
    hide SortBySequence;
    var s := TwiceRatedSelection(root, community);
    var attempt := s.attempts[0].attempt;
    assert BelowUpper(Get(NO_REQUESTS.started, attempt.spanId), s.window.completed) == [];
    assert BelowUpper(Get(NO_REQUESTS.completed, attempt.spanId), s.window.completed) == [];
  }

  lemma OneIsLatest(e: Envelope)
    ensures LatestForEach([e], [e], Identity)
  {
    assert HasKey([e], Identity, Identity(e)) by { assert [e][0] == e; }
  }

  lemma TwiceRatedSelects(root: string, community: string)
    ensures Selects(TwiceRatedSelection(root, community), root, TwiceRatedRun(root, community), NO_REQUESTS)
  {
    hide FindWindow, AdmissibleAttempts, MatchingWaves, IsViewOf, LatestForEach, SortBySequence, Decisions, RawEvents;
    var c, s := TwiceRatedRun(root, community), TwiceRatedSelection(root, community);
    TwiceRatedFindsWindow(root, community);
    TwiceRatedAdmits(root, community);
    TwiceRatedView(root, community);
    OneIsLatest(c.attempts[0]);
    NoneIsLatest();
    assert Attempts(s.attempts) == [c.attempts[0]];
    assert c.attempts == [c.attempts[0]];
  }

  lemma NoneIsLatest()
    ensures LatestForEach([], [], WaveIndex)
  {
  }

  lemma RatedTwice(root: string, community: string)
    ensures var s := TwiceRatedSelection(root, community);
      && s.window.completed.Some? && s.attempts != []
      && TimesRated(Ratings(s.window.completed), ViewCommunity(s.attempts[0])) == 2
  {
    hide SortBySequence, Decisions, RawEvents;
    var ratings := TwiceRated(community);
    assert ratings[..1] == [ratings[0]] && ratings[..1][..0] == [];
    assert TimesRated(ratings[..1], community) == 1;
  }

  /** Such a run is valid, and the decisions of its selection do not partition its attempts. */
  lemma TwiceRatedSplits(root: string, community: string)
    requires community != ""
    ensures var c := TwiceRatedRun(root, community);
      && AllValid(c) && RootCandidates(root, c) == c && OrderedCandidates(c, NO_REQUESTS)
      && exists s :: Selects(s, root, c, NO_REQUESTS) && multiset(DecidedAttempts(s.decisions)) != multiset(s.attempts)
  {
    hide AllValid, Selects, TwiceRatedRun, TwiceRatedSelection, OrderedCandidates, RootCandidates, Ratings, TimesRated;
    var c, s := TwiceRatedRun(root, community), TwiceRatedSelection(root, community);
    TwiceRatedIsValid(root, community);
    TwiceRatedSelects(root, community);
    RatedTwice(root, community);
    DecisionsPartition(s, root, c, NO_REQUESTS);
    assert s.attempts[0] in s.attempts;
  }
}
