/** The run history of the Studio: one request at a time against a paged server. */
module History {
  import opened Lists
  import opened Text
  import Json

  datatype Run = Run(startedAt: int, runId: string)

  datatype Cursor = Cursor(startedAt: int, runId: string)

  datatype Page = Page(runs: seq<Run>, nextCursor: Option<Cursor>)

  /** A request: the first page, or the page before a cursor. */
  datatype Request = First | More(cursor: Cursor)

  /** What a render shows to the callbacks that it creates. */
  datatype Shown = Shown(cursor: Option<Cursor>, loading: bool)

  /** The hook's state, the controller of the active request, and every request sent so far, by controller. */
  datatype State = State(
    runs: seq<Run>, cursor: Option<Cursor>, loading: bool, error: Option<string>,
    shown: Shown, active: Option<nat>, requests: seq<Request>, aborted: set<nat>)

  const UNAVAILABLE := "Run history is unavailable."

  const INITIAL := State([], None, true, None, Shown(None, true), None, [], {})

  datatype Event =
    | Refresh
    | LoadMore
    | Resolve(controller: nat, page: Page)
    | Reject(controller: nat)
    | Render
    | Unmount

  function Begin(s: State, request: Request): State {
    s.(aborted := if s.active.Some? then s.aborted + {s.active.value} else s.aborted,
       active := Some(|s.requests|), requests := s.requests + [request], loading := true, error := None)
  }

  predicate HasRun(runs: seq<Run>, runId: string) {
    exists k | 0 <= k < |runs| :: runs[k].runId == runId
  }

  /** `response.runs.filter(run => !current.runs.some(...))`. */
  function NewRuns(runs: seq<Run>, incoming: seq<Run>): seq<Run> {
    Filter(incoming, (run: Run) => !HasRun(runs, run.runId))
  }

  /** A first page replaces the runs, a further page adds those not held yet. */
  function Merge(runs: seq<Run>, request: Request, incoming: seq<Run>): seq<Run> {
    if request.First? then incoming else runs + NewRuns(runs, incoming)
  }

  function Step(s: State, e: Event): State {
    match e
    case Refresh => Begin(s, First)
    case LoadMore =>
      if s.shown.cursor.None? || s.shown.loading then s else Begin(s, More(s.shown.cursor.value))
    case Resolve(controller, page) =>
      if s.active != Some(controller) || controller >= |s.requests| then s
      else
        s.(active := None, runs := Merge(s.runs, s.requests[controller], page.runs), cursor := page.nextCursor,
          loading := false, error := None)
    case Reject(controller) =>
      if s.active != Some(controller) || controller in s.aborted then s
      else s.(active := None, loading := false, error := Some(UNAVAILABLE))
    case Render => s.(shown := Shown(s.cursor, s.loading))
    case Unmount => s.(aborted := if s.active.Some? then s.aborted + {s.active.value} else s.aborted, active := None)
  }

  function Steps(s: State, events: seq<Event>): State {
    if events == [] then s else Step(Steps(s, events[..|events| - 1]), events[|events| - 1])
  }

  class RunHistory {
    var runs: seq<Run>
    var cursor: Option<Cursor>
    var loading: bool
    var error: Option<string>
    var shown: Shown
    var active: Option<nat>
    var requests: seq<Request>
    var aborted: set<nat>

    ghost function View(): State
      reads this
    {
      State(runs, cursor, loading, error, shown, active, requests, aborted)
    }

    constructor ()
      ensures View() == INITIAL
    {
      runs, cursor, loading, error, shown := [], None, true, None, Shown(None, true);
      active, requests, aborted := None, [], {};
    }

    method BeginRequest(request: Request)
      modifies this
      ensures View() == Begin(old(View()), request).(loading := old(loading), error := old(error))
    {
      if active.Some? {
        aborted := aborted + {active.value};
      }
      active := Some(|requests|);
      requests := requests + [request];
    }

    method Refresh()
      modifies this
      ensures View() == Step(old(View()), Event.Refresh)
    {
      BeginRequest(First);
      loading, error := true, None;
    }

    method LoadMore()
      modifies this
      ensures View() == Step(old(View()), Event.LoadMore)
    {
      if shown.cursor.None? || shown.loading {
        return;
      }
      BeginRequest(More(shown.cursor.value));
      loading, error := true, None;
    }

    method Resolve(controller: nat, page: Page)
      requires controller < |requests|
      modifies this
      ensures View() == Step(old(View()), Event.Resolve(controller, page))
    {
      if active != Some(controller) {
        return;
      }
      active := None;
      if requests[controller].First? {
        runs := page.runs;
      } else {
        runs := runs + NewRuns(runs, page.runs);
      }
      cursor, loading, error := page.nextCursor, false, None;
    }

    method Reject(controller: nat)
      modifies this
      ensures View() == Step(old(View()), Event.Reject(controller))
    {
      if active != Some(controller) || controller in aborted {
        return;
      }
      active := None;
      loading, error := false, Some(UNAVAILABLE);
    }

    method Render()
      modifies this
      ensures View() == Step(old(View()), Event.Render)
    {
      shown := Shown(cursor, loading);
    }

    method Unmount()
      modifies this
      ensures View() == Step(old(View()), Event.Unmount)
    {
      if active.Some? {
        aborted := aborted + {active.value};
      }
      active := None;
    }
  }

  // ----- requests -----

  ghost predicate DistinctRuns(runs: seq<Run>) {
    forall i, j :: 0 <= i < j < |runs| ==> runs[i].runId != runs[j].runId
  }

  /** Only the latest request can be active, and it is not aborted; run ids are distinct. */
  ghost predicate Consistent(s: State) {
    && (s.active.Some? ==> s.active.value == |s.requests| - 1 && s.active.value !in s.aborted)
    && (forall k :: k in s.aborted ==> k < |s.requests|)
    && DistinctRuns(s.runs)
  }

  /** Pages have distinct runs. */
  ghost predicate WellFormedEvent(e: Event) {
    e.Resolve? ==> DistinctRuns(e.page.runs)
  }

  lemma NewRunsDistinct(runs: seq<Run>, incoming: seq<Run>)
    requires DistinctRuns(runs) && DistinctRuns(incoming)
    ensures DistinctRuns(runs + NewRuns(runs, incoming))
  {
    var more := NewRuns(runs, incoming);
    FilterKeepsDistinct(incoming, (run: Run) => !HasRun(runs, run.runId));
    forall i, j | 0 <= i < |runs| && 0 <= j < |more| ensures runs[i].runId != more[j].runId {
      assert more[j] in more;
    }
  }

  lemma {:induction false} FilterKeepsDistinct(runs: seq<Run>, f: Run -> bool)
    requires DistinctRuns(runs)
    ensures DistinctRuns(Filter(runs, f))
  {
    if runs != [] {
      var most, last := runs[..|runs| - 1], runs[|runs| - 1];
      FilterKeepsDistinct(most, f);
      var front := Filter(most, f);
      forall i | 0 <= i < |front| ensures front[i].runId != last.runId {
        assert front[i] in front;
        var k :| 0 <= k < |most| && most[k] == front[i];
        assert runs[k] == most[k];
      }
    }
  }

  lemma StepConsistent(s: State, e: Event)
    requires Consistent(s) && WellFormedEvent(e)
    ensures Consistent(Step(s, e))
  {
    if e.Resolve? && s.active == Some(e.controller) {
      NewRunsDistinct(s.runs, e.page.runs);
    }
  }

  /** Over every run: one active request at most, the latest one, and distinct run ids. */
  lemma {:induction false} RunConsistent(s: State, events: seq<Event>)
    requires Consistent(s) && forall k :: 0 <= k < |events| ==> WellFormedEvent(events[k])
    ensures Consistent(Steps(s, events))
  {
    if events != [] {
      RunConsistent(s, events[..|events| - 1]);
      StepConsistent(Steps(s, events[..|events| - 1]), events[|events| - 1]);
    }
  }

  /** From the refresh of the mount until the unmount, `loading` holds exactly while a request is active. */
  lemma {:induction false} LoadingWhileActive(events: seq<Event>)
    requires events != [] && events[0] == Refresh && Unmount !in events
    requires forall k :: 0 <= k < |events| ==> WellFormedEvent(events[k])
    ensures var s := Steps(INITIAL, events); s.loading <==> s.active.Some?
  {
    var most := events[..|events| - 1];
    if most == [] {
      assert Steps(INITIAL, most) == INITIAL;
    } else {
      LoadingWhileActive(most);
      RunConsistent(INITIAL, most);
    }
  }

  // ----- a fixed server list -----

  function KeyOf(run: Run): Cursor {
    Cursor(run.startedAt, run.runId)
  }

  /** `(started_at, run_id) < (?, ?)`. */
  predicate Before(run: Run, cursor: Cursor) {
    run.startedAt < cursor.startedAt || (run.startedAt == cursor.startedAt && Json.KeyLess(run.runId, cursor.runId))
  }

  /** The server's order: newest first. */
  ghost predicate Descending(list: seq<Run>) {
    forall i, j :: 0 <= i < j < |list| ==> Before(list[j], KeyOf(list[i]))
  }

  function Rest(list: seq<Run>, request: Request): seq<Run> {
    match request
    case First => list
    case More(cursor) => Filter(list, (run: Run) => Before(run, cursor))
  }

  /** `list_runs`: the next runs up to the limit, and a cursor when the page is full. */
  function Serve(list: seq<Run>, limit: nat, request: Request): Page {
    var rest := Rest(list, request);
    var runs := if |rest| <= limit then rest else rest[..limit];
    Page(runs, if |runs| == limit && runs != [] then Some(KeyOf(runs[|runs| - 1])) else None)
  }

  lemma NotBefore(list: seq<Run>, i: nat, k: nat)
    requires Descending(list) && k <= i < |list|
    ensures !Before(list[k], KeyOf(list[i]))
  {
    Json.KeyLessTrichotomy(list[k].runId, list[i].runId);
    if k < i {
      assert Before(list[i], KeyOf(list[k]));
    }
  }

  /** The runs before the cursor of a run are the runs behind it. */
  lemma RestAfter(list: seq<Run>, i: nat)
    requires Descending(list) && i < |list|
    ensures Rest(list, More(KeyOf(list[i]))) == list[i + 1..]
  {
    var cursor := KeyOf(list[i]);
    forall k | 0 <= k < i + 1 ensures !Before(list[k], cursor) { NotBefore(list, i, k); }
    FilterTail(list, (run: Run) => Before(run, cursor), i + 1);
  }

  lemma HasHeldRun(list: seq<Run>, m: nat, k: nat)
    requires DistinctRuns(list) && m <= |list| && k < |list|
    ensures HasRun(list[..m], list[k].runId) <==> k < m
  {
    if k < m {
      assert list[..m][k].runId == list[k].runId;
    }
  }

  /** Of a page of the list, the runs not held yet are new. */
  lemma NewRunsAre(list: seq<Run>, m: nat, p: nat, q: nat)
    requires DistinctRuns(list) && m <= |list| && p <= q <= |list|
    ensures NewRuns(list[..m], list[p..q]) == if q <= m then [] else if p <= m then list[m..q] else list[p..q]
  {
    var page, runs := list[p..q], list[..m];
    var k := if q <= m then q - p else if p <= m then m - p else 0;
    forall i | 0 <= i < |page| ensures HasRun(runs, page[i].runId) <==> i < k {
      HasHeldRun(list, m, p + i);
    }
    FilterTail(page, (run: Run) => !HasRun(runs, run.runId), k);
    assert page[k..] == list[p + k..q];
  }

  /** The held runs stay a prefix of the list exactly when the page leaves no gap behind them. */
  lemma PrefixIffNoGap(list: seq<Run>, m: nat, p: nat, q: nat)
    requires DistinctRuns(list) && m <= |list| && p < q <= |list|
    ensures list[..m] + NewRuns(list[..m], list[p..q]) <= list <==> p <= m
    ensures p <= m ==> list[..m] + NewRuns(list[..m], list[p..q]) == list[..if q <= m then m else q]
  {
    NewRunsAre(list, m, p, q);
    var merged := list[..m] + NewRuns(list[..m], list[p..q]);
    if p > m {
      assert merged[m] == list[p];
    }
  }

  /** A cursor of one of the runs held. */
  ghost predicate Held(runs: seq<Run>, cursor: Cursor) {
    exists i :: 0 <= i < |runs| && KeyOf(runs[i]) == cursor
  }

  /** The runs are a prefix of the list, the whole of it when an answer left no cursor, and cursors are of runs held. */
  ghost predicate Tracks(s: State, list: seq<Run>) {
    && s.runs <= list
    && (s.cursor.Some? ==> Held(s.runs, s.cursor.value))
    && (s.active.Some? ==> s.active.value < |s.requests|)
    && (s.active.Some? && s.requests[s.active.value].More? ==> Held(s.runs, s.requests[s.active.value].cursor))
  }

  /** The server answers from the list. */
  ghost predicate Served(s: State, list: seq<Run>, limit: nat, e: Event) {
    e.Resolve? ==> e.controller < |s.requests| && e.page == Serve(list, limit, s.requests[e.controller])
  }

  /** A `loadMore` that sends a request asks with the cursor of a run held. */
  ghost predicate AsksHeld(s: State, e: Event) {
    e.LoadMore? && s.shown.cursor.Some? && !s.shown.loading ==> Held(s.runs, s.shown.cursor.value)
  }

  /**
   * A page is a stretch of the list; its cursor is its last run, and a missing cursor means that it
   * reaches the end.
   */
  lemma ServedStretch(list: seq<Run>, limit: nat, p: nat, request: Request) returns (q: nat)
    requires p <= |list| && Rest(list, request) == list[p..] && limit > 0
    ensures p <= q <= |list|
    ensures Serve(list, limit, request).runs == list[p..q]
    ensures Serve(list, limit, request).nextCursor == if p < q && q - p == limit then Some(KeyOf(list[q - 1])) else None
    ensures q - p != limit ==> q == |list|
  {
    q := if |list| - p <= limit then |list| else p + limit;
    var rest := Rest(list, request);
    assert rest == list[p..] && |rest| == |list| - p;
    assert |rest| > limit ==> rest[..limit] == list[p..p + limit];
    assert |rest| <= limit ==> rest == list[p..q];
  }

  /** Where the page of a request starts: within the runs held or right behind them. */
  lemma RequestStart(runs: seq<Run>, list: seq<Run>, request: Request) returns (p: nat)
    requires Descending(list) && runs <= list
    requires request.More? ==> Held(runs, request.cursor)
    ensures p <= |runs| && Rest(list, request) == list[p..] && (request.First? ==> p == 0)
  {
    p := 0;
    if request.More? {
      var i :| 0 <= i < |runs| && KeyOf(runs[i]) == request.cursor;
      assert runs[i] == list[i];
      RestAfter(list, i);
      p := i + 1;
    }
  }

  lemma MergedRuns(runs: seq<Run>, list: seq<Run>, p: nat, q: nat, request: Request)
    requires DistinctRuns(list) && runs <= list && p <= q <= |list| && p <= |runs|
    requires request.First? ==> p == 0
    ensures Merge(runs, request, list[p..q]) <= list && q <= |Merge(runs, request, list[p..q])|
  {
    var m := |runs|;
    assert runs == list[..m];
    NewRunsAre(list, m, p, q);
    if request.More? && q > m {
      assert list[..m] + list[m..q] == list[..q];
    }
  }

  lemma CursorIsHeld(runs: seq<Run>, list: seq<Run>, q: nat)
    requires runs <= list && 0 < q <= |runs|
    ensures Held(runs, KeyOf(list[q - 1]))
  {
    assert runs[q - 1] == list[q - 1];
  }

  /** Merging the served page keeps the prefix and the cursor of a run held, or completes the list. */
  lemma AnswerTracks(runs: seq<Run>, list: seq<Run>, limit: nat, request: Request)
    requires Descending(list) && DistinctRuns(list) && limit > 0 && runs <= list
    requires request.More? ==> Held(runs, request.cursor)
    ensures var page := Serve(list, limit, request);
      var merged := Merge(runs, request, page.runs);
      && merged <= list
      && (page.nextCursor.Some? ==> Held(merged, page.nextCursor.value))
      && (page.nextCursor.None? ==> merged == list)
  {
    hide Descending, DistinctRuns, NewRuns, Merge, Rest;
    var p := RequestStart(runs, list, request);
    var q := ServedStretch(list, limit, p, request);
    MergedRuns(runs, list, p, q, request);
    if p < q {
      CursorIsHeld(Merge(runs, request, list[p..q]), list, q);
    }
  }

  lemma ResolveTracks(s: State, list: seq<Run>, limit: nat, e: Event)
    requires e.Resolve? && Descending(list) && DistinctRuns(list) && limit > 0
    requires Tracks(s, list) && Served(s, list, limit, e) && s.active == Some(e.controller)
    ensures Tracks(Step(s, e), list)
    ensures Step(s, e).cursor.None? ==> Step(s, e).runs == list
  {
    AnswerTracks(s.runs, list, limit, s.requests[e.controller]);
  }

  lemma StepTracks(s: State, list: seq<Run>, limit: nat, e: Event)
    requires Descending(list) && DistinctRuns(list) && limit > 0
    requires Tracks(s, list) && Served(s, list, limit, e) && AsksHeld(s, e)
    ensures Tracks(Step(s, e), list)
  {
    if e.Resolve? && s.active == Some(e.controller) {
      ResolveTracks(s, list, limit, e);
    }
  }

  ghost predicate ServedRun(s: State, list: seq<Run>, limit: nat, events: seq<Event>) {
    events == [] ||
    (ServedRun(s, list, limit, events[..|events| - 1]) &&
     Served(Steps(s, events[..|events| - 1]), list, limit, events[|events| - 1]))
  }

  // ----- callbacks of the current render -----

  /** No answer has arrived since the last render. */
  predicate RenderIsCurrent(events: seq<Event>) {
    if events == [] || events[|events| - 1].Render? then true
    else !events[|events| - 1].Resolve? && RenderIsCurrent(events[..|events| - 1])
  }

  /** Every `loadMore` is of the current render. */
  predicate Prompt(events: seq<Event>) {
    events == [] ||
    (Prompt(events[..|events| - 1]) && (events[|events| - 1].LoadMore? ==> RenderIsCurrent(events[..|events| - 1])))
  }

  /** Until an answer arrives the cursor is the rendered one. */
  lemma {:induction false} RenderShowsCursor(events: seq<Event>)
    requires RenderIsCurrent(events)
    ensures Steps(INITIAL, events).shown.cursor == Steps(INITIAL, events).cursor
  {
    if events != [] && !events[|events| - 1].Render? {
      RenderShowsCursor(events[..|events| - 1]);
    }
  }

  /**
   * Against a fixed list, with `loadMore` of the current render only, the runs held are always a prefix
   * of the list.
   */
  lemma {:induction false} PromptRunTracks(list: seq<Run>, limit: nat, events: seq<Event>)
    requires Descending(list) && DistinctRuns(list) && limit > 0
    requires ServedRun(INITIAL, list, limit, events) && Prompt(events)
    ensures Tracks(Steps(INITIAL, events), list)
  {
    if events != [] {
      var most, last := events[..|events| - 1], events[|events| - 1];
      PromptRunTracks(list, limit, most);
      if last.LoadMore? {
        RenderShowsCursor(most);
      }
      StepTracks(Steps(INITIAL, most), list, limit, last);
    }
  }

  /** With it, an applied answer that leaves no cursor has completed the list. */
  lemma PromptRunCompletes(list: seq<Run>, limit: nat, events: seq<Event>, e: Event)
    requires Descending(list) && DistinctRuns(list) && limit > 0
    requires ServedRun(INITIAL, list, limit, events) && Prompt(events)
    requires e.Resolve? && Served(Steps(INITIAL, events), list, limit, e)
    requires Steps(INITIAL, events).active == Some(e.controller)
    ensures Step(Steps(INITIAL, events), e).cursor.None? ==> Step(Steps(INITIAL, events), e).runs == list
  {
    PromptRunTracks(list, limit, events);
    ResolveTracks(Steps(INITIAL, events), list, limit, e);
  }

  // ----- callbacks of any render -----

  /** Merging a stretch of the list that begins behind the run at `i`. */
  lemma StretchBehind(runs: seq<Run>, list: seq<Run>, i: nat, q: nat)
    requires DistinctRuns(list) && runs <= list && i < q <= |list|
    ensures var merged := runs + NewRuns(runs, list[i + 1..q]);
      && (merged <= list <==> i < |runs| || i + 1 == q)
      && (q == |list| ==> (merged == list <==> i < |runs|))
  {
    hide DistinctRuns, NewRuns;
    var m := |runs|;
    assert runs == list[..m];
    NewRunsAre(list, m, i + 1, q);
    if i < m {
      if m < q {
        assert list[..m] + list[m..q] == list[..q];
      }
    } else if i + 1 < q {
      PrefixIffNoGap(list, m, i + 1, q);
    } else {
      assert list[q..q] == [];
    }
  }

  /** The page behind the run at `i` keeps the prefix exactly when that run is held or nothing is behind it. */
  lemma PageBehind(runs: seq<Run>, list: seq<Run>, limit: nat, i: nat)
    requires Descending(list) && DistinctRuns(list) && limit > 0 && runs <= list && i < |list|
    ensures var page := Serve(list, limit, More(KeyOf(list[i])));
      var merged := Merge(runs, More(KeyOf(list[i])), page.runs);
      && (merged <= list <==> i < |runs| || i + 1 == |list|)
      && (page.nextCursor.None? ==> (merged == list <==> i < |runs|))
  {
    hide Descending, DistinctRuns, NewRuns;
    RestAfter(list, i);
    var q := ServedStretch(list, limit, i + 1, More(KeyOf(list[i])));
    StretchBehind(runs, list, i, q);
  }

  /**
   * A served `loadMore` keeps the runs a prefix exactly when the run of its rendered cursor is held
   * or is the last one, and ends the list with all of its runs exactly when that run is held.
   */
  lemma LoadMoreKeepsPrefix(s: State, list: seq<Run>, limit: nat, i: nat)
    requires Descending(list) && DistinctRuns(list) && limit > 0
    requires s.runs <= list && i < |list| && s.shown == Shown(Some(KeyOf(list[i])), false)
    ensures var page := Serve(list, limit, More(KeyOf(list[i])));
      var after := Step(Step(s, LoadMore), Resolve(|s.requests|, page));
      && (after.runs <= list <==> i < |s.runs| || i + 1 == |list|)
      && (after.cursor.None? ==> (after.runs == list <==> i < |s.runs|))
  {
    PageBehind(s.runs, list, limit, i);
    assert Step(s, LoadMore).requests[|s.requests|] == More(KeyOf(list[i]));
  }

  ghost predicate InList(list: seq<Run>, cursor: Option<Cursor>) {
    cursor.Some? ==> exists i :: 0 <= i < |list| && KeyOf(list[i]) == cursor.value
  }

  /** All cursors are of runs of the list. */
  ghost predicate Listed(s: State, list: seq<Run>) {
    && InList(list, s.cursor) && InList(list, s.shown.cursor)
    && (s.active.Some? ==> s.active.value < |s.requests|)
    && forall k :: 0 <= k < |s.requests| && s.requests[k].More? ==> InList(list, Some(s.requests[k].cursor))
  }

  /** The run of a cursor is held, or is the last one. */
  ghost predicate Reaches(runs: seq<Run>, list: seq<Run>, cursor: Cursor) {
    exists i :: 0 <= i < |list| && KeyOf(list[i]) == cursor && (i < |runs| || i + 1 == |list|)
  }

  /** An applied answer to `loadMore` continues from a run held, or from the last one. */
  ghost predicate LeavesNoGap(s: State, list: seq<Run>, e: Event) {
    e.Resolve? && s.active == Some(e.controller) && e.controller < |s.requests| && s.requests[e.controller].More? ==>
      Reaches(s.runs, list, s.requests[e.controller].cursor)
  }

  lemma ReachesAt(runs: seq<Run>, list: seq<Run>, i: nat)
    requires DistinctRuns(list) && i < |list|
    ensures Reaches(runs, list, KeyOf(list[i])) <==> i < |runs| || i + 1 == |list|
  {
    if Reaches(runs, list, KeyOf(list[i])) {
      var k :| 0 <= k < |list| && KeyOf(list[k]) == KeyOf(list[i]) && (k < |runs| || k + 1 == |list|);
      assert list[k].runId == list[i].runId;
    }
  }

  lemma ServedCursorInList(list: seq<Run>, limit: nat, request: Request)
    ensures InList(list, Serve(list, limit, request).nextCursor)
  {
    var runs := Serve(list, limit, request).runs;
    if runs != [] {
      var last := runs[|runs| - 1];
      assert last in Rest(list, request);
      var i :| 0 <= i < |list| && list[i] == last;
    }
  }

  lemma StepListed(s: State, list: seq<Run>, limit: nat, e: Event)
    requires Listed(s, list) && Served(s, list, limit, e)
    ensures Listed(Step(s, e), list)
  {
    if e.Resolve? {
      ServedCursorInList(list, limit, s.requests[e.controller]);
    }
  }

  /** One step keeps the prefix exactly when it leaves no gap. */
  lemma StepKeepsPrefix(s: State, list: seq<Run>, limit: nat, e: Event)
    requires Descending(list) && DistinctRuns(list) && limit > 0
    requires Listed(s, list) && s.runs <= list && Served(s, list, limit, e)
    ensures Step(s, e).runs <= list <==> LeavesNoGap(s, list, e)
  {
    if e.Resolve? && s.active == Some(e.controller) {
      var request := s.requests[e.controller];
      if request.More? {
        var i :| 0 <= i < |list| && KeyOf(list[i]) == request.cursor;
        PageBehind(s.runs, list, limit, i);
        ReachesAt(s.runs, list, i);
      }
    }
  }

  /** The runs held are a prefix of the list all along. */
  ghost predicate AlwaysPrefix(s: State, list: seq<Run>, events: seq<Event>) {
    Steps(s, events).runs <= list && (events == [] || AlwaysPrefix(s, list, events[..|events| - 1]))
  }

  ghost predicate NeverLeavesGap(s: State, list: seq<Run>, events: seq<Event>) {
    events == [] ||
    (NeverLeavesGap(s, list, events[..|events| - 1]) &&
     LeavesNoGap(Steps(s, events[..|events| - 1]), list, events[|events| - 1]))
  }

  lemma {:induction false} RunListed(s: State, list: seq<Run>, limit: nat, events: seq<Event>)
    requires Listed(s, list) && ServedRun(s, list, limit, events)
    ensures Listed(Steps(s, events), list)
  {
    if events != [] {
      RunListed(s, list, limit, events[..|events| - 1]);
      StepListed(Steps(s, events[..|events| - 1]), list, limit, events[|events| - 1]);
    }
  }

  /**
   * Over every run against a fixed list, whenever its callbacks were rendered, the runs held are a
   * prefix all along exactly when every applied page continues from a run held or from the last run.
   */
  lemma {:induction false} RunTracks(s: State, list: seq<Run>, limit: nat, events: seq<Event>)
    requires Descending(list) && DistinctRuns(list) && limit > 0
    requires Listed(s, list) && s.runs <= list && ServedRun(s, list, limit, events)
    ensures AlwaysPrefix(s, list, events) <==> NeverLeavesGap(s, list, events)
  {
    if events != [] {
      var most, last := events[..|events| - 1], events[|events| - 1];
      RunTracks(s, list, limit, most);
      if AlwaysPrefix(s, list, most) {
        RunListed(s, list, limit, most);
        StepKeepsPrefix(Steps(s, most), list, limit, last);
      }
    }
  }

  /** A hook that has just been called has nothing that could leave a gap. */
  lemma InitialListed(list: seq<Run>)
    ensures Listed(INITIAL, list) && Tracks(INITIAL, list)
  {
  }

  // ----- a gap -----

  lemma ThreeApart(a: Run, b: Run, c: Run)
    requires DistinctRuns([a, b, c])
    ensures a.runId != b.runId && a.runId != c.runId
  {
    var list := [a, b, c];
    assert list[0].runId != list[1].runId && list[0].runId != list[2].runId;
  }

  /** A state that the hook is in after some served run. */
  ghost predicate Reachable(s: State, list: seq<Run>, limit: nat) {
    exists events :: ServedRun(INITIAL, list, limit, events) && Steps(INITIAL, events) == s
  }

  lemma InitialReachable(list: seq<Run>, limit: nat)
    ensures Reachable(INITIAL, list, limit)
  {
    assert ServedRun(INITIAL, list, limit, []) && Steps(INITIAL, []) == INITIAL;
  }

  lemma Reaching(s: State, list: seq<Run>, limit: nat, e: Event, next: State)
    requires Reachable(s, list, limit) && Served(s, list, limit, e) && Step(s, e) == next
    ensures Reachable(next, list, limit)
  {
    var events :| ServedRun(INITIAL, list, limit, events) && Steps(INITIAL, events) == s;
    assert (events + [e])[..|events + [e]| - 1] == events;
    assert ServedRun(INITIAL, list, limit, events + [e]) && Steps(INITIAL, events + [e]) == next;
  }

  lemma ServedAfter(list: seq<Run>, limit: nat, i: nat)
    requires Descending(list) && limit > 0 && i + 1 + limit <= |list|
    ensures Serve(list, limit, More(KeyOf(list[i])))
      == Page(list[i + 1..i + 1 + limit], Some(KeyOf(list[i + limit])))
  {
    RestAfter(list, i);
    var q := ServedStretch(list, limit, i + 1, More(KeyOf(list[i])));
  }

  lemma ServedPages(a: Run, b: Run, c: Run)
    requires Descending([a, b, c])
    ensures Serve([a, b, c], 1, First) == Page([a], Some(KeyOf(a)))
    ensures Serve([a, b, c], 1, More(KeyOf(a))) == Page([b], Some(KeyOf(b)))
    ensures Serve([a, b, c], 1, More(KeyOf(b))) == Page([c], Some(KeyOf(c)))
  {
    hide Descending;
    var list := [a, b, c];
    ServedAfter(list, 1, 0);
    ServedAfter(list, 1, 1);
    assert list[..1] == [a] && list[1..2] == [b] && list[2..3] == [c];
  }

  lemma NewRun(held: Run, other: Run)
    requires held.runId != other.runId
    ensures NewRuns([held], [other]) == [other]
  {
    assert [held][0] == held;
    FilterTail([other], (run: Run) => !HasRun([held], run.runId), 0);
    assert [other][0..] == [other];
  }

  /** The first two pages, then the first page again, with the second page's cursor still rendered. */
  ghost function Refreshed(a: Run, b: Run): State {
    State([a], Some(KeyOf(a)), false, None, Shown(Some(KeyOf(b)), false), None, [First, More(KeyOf(a)), First], {})
  }

  lemma FirstPage(a: Run, b: Run, c: Run)
    requires Descending([a, b, c]) && DistinctRuns([a, b, c])
    ensures Reachable(State([a], Some(KeyOf(a)), false, None, Shown(Some(KeyOf(a)), false), None, [First], {}),
      [a, b, c], 1)
  {
    hide Descending, DistinctRuns, Reachable, ServedRun, Steps, Serve;
    var list, key := [a, b, c], Some(KeyOf(a));
    ServedPages(a, b, c);
    InitialReachable(list, 1);
    var s1 := State([], None, true, None, Shown(None, true), Some(0), [First], {});
    Reaching(INITIAL, list, 1, Refresh, s1);
    var s2 := State([a], key, false, None, Shown(None, true), None, [First], {});
    Reaching(s1, list, 1, Resolve(0, Page([a], key)), s2);
    Reaching(s2, list, 1, Render, s2.(shown := Shown(key, false)));
  }

  /** The answer to a further page that has one new run. */
  lemma OneRunAnswered(s: State, held: Run, other: Run, cursor: Cursor, next: Option<Cursor>)
    requires held.runId != other.runId && s.runs == [held] && s.requests != [] && s.active == Some(|s.requests| - 1)
    requires s.requests[|s.requests| - 1] == More(cursor)
    ensures Step(s, Resolve(|s.requests| - 1, Page([other], next)))
      == s.(active := None, runs := [held, other], cursor := next, loading := false, error := None)
  {
    NewRun(held, other);
    assert [held] + [other] == [held, other];
  }

  lemma SecondPage(a: Run, b: Run, c: Run)
    requires Descending([a, b, c]) && DistinctRuns([a, b, c])
    ensures Reachable(State([a, b], Some(KeyOf(b)), false, None, Shown(Some(KeyOf(b)), false), None,
                            [First, More(KeyOf(a))], {}), [a, b, c], 1)
  {
    hide Descending, DistinctRuns, Reachable, ServedRun, Steps, Serve, Merge;
    var list, shown := [a, b, c], Shown(Some(KeyOf(a)), false);
    FirstPage(a, b, c);
    ServedPages(a, b, c);
    ThreeApart(a, b, c);
    var s3 := State([a], Some(KeyOf(a)), false, None, shown, None, [First], {});
    var s4 := State([a], Some(KeyOf(a)), true, None, shown, Some(1), [First, More(KeyOf(a))], {});
    Reaching(s3, list, 1, LoadMore, s4);
    var s5 := State([a, b], Some(KeyOf(b)), false, None, shown, None, [First, More(KeyOf(a))], {});
    OneRunAnswered(s4, a, b, KeyOf(a), Some(KeyOf(b)));
    Reaching(s4, list, 1, Resolve(1, Page([b], Some(KeyOf(b)))), s5);
    Reaching(s5, list, 1, Render, s5.(shown := Shown(Some(KeyOf(b)), false)));
  }

  lemma RefreshedReachable(a: Run, b: Run, c: Run)
    requires Descending([a, b, c]) && DistinctRuns([a, b, c])
    ensures Reachable(Refreshed(a, b), [a, b, c], 1)
  {
    hide Descending, DistinctRuns, Reachable, ServedRun, Steps, Serve;
    var list, shown := [a, b, c], Shown(Some(KeyOf(b)), false);
    SecondPage(a, b, c);
    ServedPages(a, b, c);
    var s6 := State([a, b], Some(KeyOf(b)), false, None, shown, None, [First, More(KeyOf(a))], {});
    var s7 := State([a, b], Some(KeyOf(b)), true, None, shown, Some(2), [First, More(KeyOf(a)), First], {});
    Reaching(s6, list, 1, Refresh, s7);
    Reaching(s7, list, 1, Resolve(2, Page([a], Some(KeyOf(a)))), Refreshed(a, b));
  }

  /**
   * A callback of an older render can leave a gap: after two pages, a refresh brings the first page
   * back, and a `loadMore` rendered before that continues behind the second.
   */
  lemma StaleLoadMoreLeavesGap(a: Run, b: Run, c: Run)
    requires Descending([a, b, c]) && DistinctRuns([a, b, c])
    ensures exists s :: Reachable(s, [a, b, c], 1) && s.runs == [a, c]
  {
    hide Descending, DistinctRuns, Reachable, ServedRun, Steps, Serve, Merge;
    var list, s := [a, b, c], Refreshed(a, b);
    RefreshedReachable(a, b, c);
    ServedPages(a, b, c);
    ThreeApart(a, b, c);
    var asked := s.(loading := true, active := Some(3), requests := s.requests + [More(KeyOf(b))]);
    Reaching(s, list, 1, LoadMore, asked);
    var answered := asked.(runs := [a, c], cursor := Some(KeyOf(c)), loading := false, active := None);
    OneRunAnswered(asked, a, c, KeyOf(b), Some(KeyOf(c)));
    Reaching(asked, list, 1, Resolve(3, Page([c], Some(KeyOf(c)))), answered);
  }
}
