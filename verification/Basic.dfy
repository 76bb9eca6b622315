/** The Basic query timeline: lifecycle selection and the split of a run into steps and diagnostics. */
module Basic {
  import opened Lists
  import opened Text
  import opened Timeline

  // ----- event validation -----

  datatype Kind =
    | EmbeddingStart | EmbeddingEnd | Retrieved | Filtered | Skip
    | Budget | Section | Context | LlmStart | LlmEnd | Unrelated

  predicate IsCandidateArray(candidates: seq<Candidate>) {
    forall k | 0 <= k < |candidates| :: candidates[k].rank.Some? ==> IsPositiveInteger(candidates[k].rank.value)
  }

  predicate IsContextSection(section: ContextSection) {
    && IsNonNegativeInteger(section.tokenBudget) && IsNonNegativeInteger(section.tokensUsed)
    && IsNonNegativeInteger(section.candidateCount) && IsNonNegativeInteger(section.selectedCount)
  }

  /** The list an event of the query belongs to. */
  function Classify(event: Event): Kind {
    match event
    case EmbeddingStarted(_) => EmbeddingStart
    case EmbeddingCompleted(_, tokens, dimensions) =>
      if IsNonNegativeInteger(tokens) && IsNonNegativeInteger(dimensions) then EmbeddingEnd else Unrelated
    case CandidatesRetrieved(recordType, candidates) =>
      if IsCandidateArray(candidates) && recordType == "text_unit" then Retrieved else Unrelated
    case CandidatesFiltered(recordType, candidates) =>
      if IsCandidateArray(candidates) && recordType == "text_unit" then Filtered else Unrelated
    case BasicRetrievalSkipped(reason) => if reason == "empty_query" then Skip else Unrelated
    case ContextBudgetAllocated(total, sections) =>
      if IsNonNegativeInteger(total) &&
        (forall k | 0 <= k < |sections| :: IsNonNegativeInteger(sections[k].tokenBudget))
      then Budget else Unrelated
    case ContextSectionBuilt(section) =>
      if IsContextSection(section) && section.section == "sources" then Section else Unrelated
    case ContextCompleted(tokens, _) => if IsNonNegativeInteger(tokens) then Context else Unrelated
    case LlmRequestStarted(_, tokens, _) => if IsNonNegativeInteger(tokens) then LlmStart else Unrelated
    case LlmRequestCompleted(_, input, output, elapsed, _) =>
      if IsNonNegativeInteger(input) && IsNonNegativeInteger(output) && IsNonNegativeInteger(elapsed)
      then LlmEnd else Unrelated
    case _ => Unrelated
  }

  // ----- the window of the query -----

  predicate IsRoot(e: Envelope) {
    e.parentSpanId.None? && e.event == QueryStarted("basic")
  }

  function RootOf(ordered: seq<Envelope>): Option<Envelope> {
    FirstWhere(ordered, e => IsRoot(e))
  }

  predicate EndsRun(e: Envelope, root: Envelope) {
    && e.sequence > root.sequence && e.spanId == root.spanId && e.parentSpanId.None?
    && (e.event.RunCompleted? || e.event.RunFailed?)
  }

  function SequenceOr(e: Option<Envelope>, default: int): int {
    match e case Some(v) => v.sequence case None => default
  }

  function TerminalCutoff(ordered: seq<Envelope>, root: Envelope): int {
    SequenceOr(FirstWhere(ordered, e => EndsRun(e, root)), MAX_SAFE_INTEGER)
  }

  /** `e` is a child of the root between the root and the first terminal event after it. */
  predicate InWindow(e: Envelope, root: Envelope, cutoff: int) {
    root.sequence < e.sequence < cutoff && e.parentSpanId == Some(root.spanId)
  }

  /** The events of one kind in the window, in order. */
  function OfKind(s: seq<Envelope>, root: Envelope, cutoff: int, kind: Kind): seq<Envelope> {
    Filter(s, e => InWindow(e, root, cutoff) && Classify(e.event) == kind)
  }

  // ----- pairs of a start and a completion -----

  predicate Starts(s: Envelope, c: Envelope, floor: int) {
    s.spanId == c.spanId && floor <= s.sequence <= c.sequence
  }

  ghost predicate HasStart(starts: seq<Envelope>, c: Envelope, floor: int) {
    exists s :: s in starts && Starts(s, c, floor)
  }

  ghost predicate LatestIn(x: Envelope, s: seq<Envelope>, floor: int, cutoff: int) {
    && x in s && floor <= x.sequence <= cutoff
    && forall y :: y in s && floor <= y.sequence <= cutoff ==> y.sequence <= x.sequence
  }

  /**
   * The latest completion under `cutoff` that has a start on its span, with its
   * latest start; without one, the latest start between `floor` and `cutoff`.
   */
  ghost predicate LatestPair(pair: Pair, starts: seq<Envelope>, completions: seq<Envelope>, cutoff: int, floor: int) {
    match pair.completed
    case Some(c) =>
      && c in completions && c.sequence <= cutoff
      && pair.started.Some? && pair.started.value in starts && Starts(pair.started.value, c, floor)
      && (forall s :: s in starts && Starts(s, c, floor) ==> s.sequence <= pair.started.value.sequence)
      && (forall d :: d in completions && d.sequence <= cutoff && HasStart(starts, d, floor) ==>
        d.sequence <= c.sequence)
    case None =>
      && (forall d :: d in completions && d.sequence <= cutoff ==> !HasStart(starts, d, floor))
      && (pair.started.Some? ==> LatestIn(pair.started.value, starts, floor, cutoff))
      && (pair.started.None? ==> forall s :: s in starts ==> !(floor <= s.sequence <= cutoff))
  }

  /** `selectPairLifecycle`. */
  method SelectPairLifecycle(starts: seq<Envelope>, completions: seq<Envelope>, cutoff: int, floor: int)
    returns (pair: Pair)
    requires Ordered(starts) && Ordered(completions)
    ensures LatestPair(pair, starts, completions, cutoff, floor)
  {
    var next := |completions|;
    while next > 0
      invariant 0 <= next <= |completions|
      invariant forall k :: next <= k < |completions| && completions[k].sequence <= cutoff ==>
        !HasStart(starts, completions[k], floor)
    {
      next := next - 1;
      var completed := completions[next];
      if completed.sequence <= cutoff {
        var started := LastWhere(starts, event => Starts(event, completed, floor));
        if started.Some? {
          return Pair(started, Some(completed));
        }
      }
    }
    var started := LastWhere(starts, (event: Envelope) => floor <= event.sequence <= cutoff);
    pair := Pair(started, None);
  }

  // ----- context -----

  datatype ContextLifecycle = ContextLifecycle(budget: Option<Envelope>, section: Option<Envelope>,
      completed: Option<Envelope>)

  function SelectedIds(candidates: seq<Candidate>): seq<string> {
    if candidates == [] then []
    else (if candidates[0].selected then [candidates[0].id] else []) + SelectedIds(candidates[1..])
  }

  /** `matchesContextSection`. */
  predicate MatchesContextSection(candidates: seq<Candidate>, section: ContextSection) {
    && |candidates| == section.candidateCount
    && |SelectedIds(candidates)| == section.selectedCount
    && SelectedIds(candidates) == section.selectedRecordIds
  }

  predicate Backs(f: Envelope, section: ContextSection) {
    f.event.CandidatesFiltered? && MatchesContextSection(f.event.candidates, section)
  }

  /** `hasCoherentRetrieval`. */
  predicate HasCoherentRetrieval(section: Envelope, filtered: seq<Envelope>, skipped: seq<Envelope>) {
    && section.event.ContextSectionBuilt?
    && (|| (exists k | 0 <= k < |filtered| ::
              filtered[k].sequence <= section.sequence && Backs(filtered[k], section.event.section))
        || (section.event.section.candidateCount == 0 &&
            exists k | 0 <= k < |skipped| :: skipped[k].sequence <= section.sequence))
  }

  /** A budget that a section can follow on its span. */
  predicate Budgets(b: Envelope, section: Envelope) {
    b.spanId == section.spanId && b.sequence <= section.sequence
  }

  /** The candidates for one context lifecycle. */
  datatype Evidence = Evidence(
    budgets: seq<Envelope>, sections: seq<Envelope>, contexts: seq<Envelope>, filtered: seq<Envelope>,
    skipped: seq<Envelope>)

  /** A section backed by what was retrieved, with a budget on its span before it. */
  ghost predicate Supported(section: Envelope, evidence: Evidence) {
    && section in evidence.sections
    && HasCoherentRetrieval(section, evidence.filtered, evidence.skipped)
    && exists b :: b in evidence.budgets && Budgets(b, section)
  }

  ghost predicate Completes(completed: Envelope, section: Envelope, evidence: Evidence) {
    && completed in evidence.contexts && Supported(section, evidence)
    && section.spanId == completed.spanId && section.sequence <= completed.sequence
  }

  ghost predicate LatestBudget(b: Envelope, section: Envelope, evidence: Evidence) {
    && b in evidence.budgets && Budgets(b, section)
    && forall other :: other in evidence.budgets && Budgets(other, section) ==> other.sequence <= b.sequence
  }

  /**
   * The latest completed context that ends a supported chain, with its latest
   * section and that section's latest budget; failing that the latest supported
   * section; failing that the latest budget.
   */
  ghost predicate LatestContext(chosen: ContextLifecycle, evidence: Evidence) {
    if chosen.completed.Some? then
      && chosen.section.Some? && chosen.budget.Some?
      && Completes(chosen.completed.value, chosen.section.value, evidence)
      && LatestBudget(chosen.budget.value, chosen.section.value, evidence)
      && (forall s :: Completes(chosen.completed.value, s, evidence) ==> s.sequence <= chosen.section.value.sequence)
      && (forall c, s :: Completes(c, s, evidence) ==> c.sequence <= chosen.completed.value.sequence)
    else
      && (forall c, s :: !Completes(c, s, evidence))
      && if chosen.section.Some? then
           && chosen.budget.Some?
           && Supported(chosen.section.value, evidence)
           && LatestBudget(chosen.budget.value, chosen.section.value, evidence)
           && (forall s :: Supported(s, evidence) ==> s.sequence <= chosen.section.value.sequence)
         else
           && (forall s :: !Supported(s, evidence))
           && chosen.budget == Last(evidence.budgets)
  }

  /** The latest section of `sections` that is coherent, passes `f` and has a budget. */
  method SelectSection(evidence: Evidence, f: Envelope -> bool)
    returns (section: Option<Envelope>, budget: Option<Envelope>)
    requires Ordered(evidence.sections) && Ordered(evidence.budgets)
    ensures section.Some? <==> budget.Some?
    ensures section.Some? ==> Supported(section.value, evidence) && f(section.value)
    ensures section.Some? ==> LatestBudget(budget.value, section.value, evidence)
    ensures section.Some? ==> forall s :: Supported(s, evidence) && f(s) ==> s.sequence <= section.value.sequence
    ensures section.None? ==> forall s :: Supported(s, evidence) ==> !f(s)
  {
    var next := |evidence.sections|;
    while next > 0
      invariant 0 <= next <= |evidence.sections|
      invariant forall k :: next <= k < |evidence.sections| && f(evidence.sections[k]) ==>
        !Supported(evidence.sections[k], evidence)
    {
      next := next - 1;
      var candidate := evidence.sections[next];
      if f(candidate) && HasCoherentRetrieval(candidate, evidence.filtered, evidence.skipped) {
        budget := LastWhere(evidence.budgets, event => Budgets(event, candidate));
        if budget.Some? {
          section := Some(candidate);
          return;
        }
      }
    }
    section, budget := None, None;
  }

  /** `selectContextLifecycle`. */
  method SelectContextLifecycle(evidence: Evidence) returns (chosen: ContextLifecycle)
    requires Ordered(evidence.budgets) && Ordered(evidence.sections) && Ordered(evidence.contexts)
    ensures LatestContext(chosen, evidence)
  {
    var next := |evidence.contexts|;
    while next > 0
      invariant 0 <= next <= |evidence.contexts|
      invariant forall k, s :: next <= k < |evidence.contexts| ==> !Completes(evidence.contexts[k], s, evidence)
    {
      next := next - 1;
      var completed := evidence.contexts[next];
      var section, budget := SelectSection(evidence,
        (event: Envelope) => event.spanId == completed.spanId && event.sequence <= completed.sequence);
      if section.Some? {
        return ContextLifecycle(budget, section, Some(completed));
      }
    }
    var section, budget := SelectSection(evidence, event => true);
    if section.Some? {
      return ContextLifecycle(budget, section, None);
    }
    chosen := ContextLifecycle(Last(evidence.budgets), None, None);
  }

  // ----- retrieval -----

  datatype Branch = Branch(end: int, retrieved: Option<Envelope>, filtered: Option<Envelope>, skipped: Option<Envelope>)

  const NO_BRANCH := Branch(0, None, None, None)

  /** A decision that may be used: under the cutoff and, when a section is expected, matching it. */
  predicate Usable(decision: Envelope, cutoff: int, expected: Option<ContextSection>) {
    decision.sequence <= cutoff && (expected.Some? ==> Backs(decision, expected.value))
  }

  predicate Sources(source: Envelope, decision: Envelope) {
    source.spanId == decision.spanId && source.sequence <= decision.sequence
  }

  ghost predicate DecisionBranch(b: Branch, retrieved: seq<Envelope>, filtered: seq<Envelope>, cutoff: int,
      expected: Option<ContextSection>)
  {
    && b.filtered.Some? && b.filtered.value in filtered && Usable(b.filtered.value, cutoff, expected)
    && b.retrieved.Some? && b.retrieved.value in retrieved && Sources(b.retrieved.value, b.filtered.value)
    && (forall s :: s in retrieved && Sources(s, b.filtered.value) ==> s.sequence <= b.retrieved.value.sequence)
    && b.skipped.None? && b.end == b.filtered.value.sequence
  }

  ghost predicate HasDecision(decision: Envelope, retrieved: seq<Envelope>, filtered: seq<Envelope>, cutoff: int,
      expected: Option<ContextSection>)
  {
    decision in filtered && Usable(decision, cutoff, expected) && exists s :: s in retrieved && Sources(s, decision)
  }

  ghost predicate SourceBranch(b: Branch, retrieved: seq<Envelope>, cutoff: int) {
    && b.retrieved.Some? && b.retrieved.value in retrieved && b.end == b.retrieved.value.sequence <= cutoff
    && b.filtered.None? && b.skipped.None?
  }

  ghost predicate SkipBranch(b: Branch, skipped: seq<Envelope>, cutoff: int) {
    && b.skipped.Some? && b.skipped.value in skipped && b.end == b.skipped.value.sequence <= cutoff
    && b.retrieved.None? && b.filtered.None?
  }

  /** `sort` by `end`, then `at(-1)`. */
  function LatestBranch(branches: seq<Branch>): (b: Branch)
    requires branches != []
    ensures b in branches && forall other :: other in branches ==> other.end <= b.end
  {
    var last := branches[|branches| - 1];
    if |branches| == 1 then last
    else
      assert branches == branches[..|branches| - 1] + [last];
      var earlier := LatestBranch(branches[..|branches| - 1]);
      if earlier.end <= last.end then last else earlier
  }

  predicate ExpectsNothing(expected: Option<ContextSection>) {
    expected.Some? && expected.value.candidateCount == 0
  }

  /**
   * A skip when nothing is expected and there is one; else the latest usable
   * decision with its latest source; else the latest source or skip.
   */
  ghost predicate LatestRetrieval(b: Branch, retrieved: seq<Envelope>, filtered: seq<Envelope>, skipped: seq<Envelope>,
                                  cutoff: int, expected: Option<ContextSection>)
  {
    if ExpectsNothing(expected) && exists k :: k in skipped && k.sequence <= cutoff then
      SkipBranch(b, skipped, cutoff) && forall k :: k in skipped && k.sequence <= cutoff ==> k.sequence <= b.end
    else if exists d :: HasDecision(d, retrieved, filtered, cutoff, expected) then
      && DecisionBranch(b, retrieved, filtered, cutoff, expected)
      && forall d :: HasDecision(d, retrieved, filtered, cutoff, expected) ==> d.sequence <= b.end
    else if b == NO_BRANCH then
      forall e :: e in retrieved || e in skipped ==> e.sequence > cutoff
    else
      && (SourceBranch(b, retrieved, cutoff) || SkipBranch(b, skipped, cutoff))
      && forall e :: (e in retrieved || e in skipped) && e.sequence <= cutoff ==> e.sequence <= b.end
  }

  /** `selectRetrievalLifecycle`. */
  method SelectRetrievalLifecycle(retrieved: seq<Envelope>, filtered: seq<Envelope>, skipped: seq<Envelope>,
                                  cutoff: int, expected: Option<ContextSection>) returns (b: Branch)
    requires Ordered(retrieved)
    ensures LatestRetrieval(b, retrieved, filtered, skipped, cutoff, expected)
  {
    var decisions := DecisionBranches(retrieved, filtered, cutoff, expected);
    var sources := SourceBranches(retrieved, cutoff);
    var skips := SkipBranches(skipped, cutoff);
    b := ChooseBranch(decisions, sources, skips, expected);
    Decides(b, decisions, sources, skips, retrieved, filtered, skipped, cutoff, expected);
  }

  predicate IsDecision(b: Branch) { b.filtered.Some? }

  predicate IsSkip(b: Branch) { b.skipped.Some? }

  /** The preference among the branches, each preferred list by its latest end. */
  function ChooseBranch(decisions: seq<Branch>, sources: seq<Branch>, skips: seq<Branch>,
      expected: Option<ContextSection>): Branch
  {
    var branches := decisions + sources + skips;
    if ExpectsNothing(expected) && Filter(branches, IsSkip) != [] then LatestBranch(Filter(branches, IsSkip))
    else if Filter(branches, IsDecision) != [] then LatestBranch(Filter(branches, IsDecision))
    else if branches != [] then LatestBranch(branches)
    else NO_BRANCH
  }

  /** The lists are complete, and each branch says what it is. */
  ghost predicate BranchesOf(decisions: seq<Branch>, sources: seq<Branch>, skips: seq<Branch>,
                             retrieved: seq<Envelope>, filtered: seq<Envelope>, skipped: seq<Envelope>,
                             cutoff: int, expected: Option<ContextSection>)
  {
    && (forall b :: b in decisions ==> DecisionBranch(b, retrieved, filtered, cutoff, expected))
    && (forall d :: HasDecision(d, retrieved, filtered, cutoff, expected) ==>
      exists b :: b in decisions && b.filtered == Some(d))
    && (forall b :: b in sources ==> SourceBranch(b, retrieved, cutoff))
    && (forall e :: e in retrieved && e.sequence <= cutoff ==> Branch(e.sequence, Some(e), None, None) in sources)
    && (forall b :: b in skips ==> SkipBranch(b, skipped, cutoff))
    && (forall e :: e in skipped && e.sequence <= cutoff ==> Branch(e.sequence, None, None, Some(e)) in skips)
  }

  lemma FilteredBranches(decisions: seq<Branch>, sources: seq<Branch>, skips: seq<Branch>,
                         retrieved: seq<Envelope>, filtered: seq<Envelope>, skipped: seq<Envelope>,
                         cutoff: int, expected: Option<ContextSection>)
    requires BranchesOf(decisions, sources, skips, retrieved, filtered, skipped, cutoff, expected)
    ensures forall b :: b in Filter(decisions + sources + skips, IsSkip) <==> b in skips
    ensures forall b :: b in Filter(decisions + sources + skips, IsDecision) <==> b in decisions
  {
  }

  lemma Decides(b: Branch, decisions: seq<Branch>, sources: seq<Branch>, skips: seq<Branch>,
                retrieved: seq<Envelope>, filtered: seq<Envelope>, skipped: seq<Envelope>,
                cutoff: int, expected: Option<ContextSection>)
    requires BranchesOf(decisions, sources, skips, retrieved, filtered, skipped, cutoff, expected)
    requires b == ChooseBranch(decisions, sources, skips, expected)
    ensures LatestRetrieval(b, retrieved, filtered, skipped, cutoff, expected)
  {
    var branches := decisions + sources + skips;
    FilteredBranches(decisions, sources, skips, retrieved, filtered, skipped, cutoff, expected);
    if ExpectsNothing(expected) && Filter(branches, IsSkip) != [] {
      assert Filter(branches, IsSkip)[0] in skips;
      assert b in skips;
    } else if Filter(branches, IsDecision) != [] {
      assert Filter(branches, IsDecision)[0] in decisions;
      assert b in decisions && HasDecision(b.filtered.value, retrieved, filtered, cutoff, expected);
    } else {
      assert forall x :: x in branches <==> x in sources || x in skips;
    }
  }

  method DecisionBranches(retrieved: seq<Envelope>, filtered: seq<Envelope>, cutoff: int,
      expected: Option<ContextSection>)
    returns (branches: seq<Branch>)
    requires Ordered(retrieved)
    ensures forall b :: b in branches ==> DecisionBranch(b, retrieved, filtered, cutoff, expected)
    ensures forall d :: HasDecision(d, retrieved, filtered, cutoff, expected) ==>
      exists b :: b in branches && b.filtered == Some(d)
  {
    branches := [];
    for next := 0 to |filtered|
      invariant forall b :: b in branches ==> DecisionBranch(b, retrieved, filtered, cutoff, expected)
      invariant forall k :: 0 <= k < next && HasDecision(filtered[k], retrieved, filtered, cutoff, expected) ==>
        exists b :: b in branches && b.filtered == Some(filtered[k])
    {
      var decision := filtered[next];
      ghost var before := branches;
      if Usable(decision, cutoff, expected) {
        var source := LastWhere(retrieved, event => Sources(event, decision));
        if source.Some? {
          var branch := Branch(decision.sequence, source, Some(decision), None);
          branches := branches + [branch];
          assert branch in branches;
        }
      }
      assert forall b :: b in before ==> b in branches;
    }
  }

  method SourceBranches(retrieved: seq<Envelope>, cutoff: int) returns (branches: seq<Branch>)
    ensures forall b :: b in branches ==> SourceBranch(b, retrieved, cutoff)
    ensures forall e :: e in retrieved && e.sequence <= cutoff ==> Branch(e.sequence, Some(e), None, None) in branches
  {
    branches := [];
    for next := 0 to |retrieved|
      invariant forall b :: b in branches ==> SourceBranch(b, retrieved, cutoff)
      invariant forall k :: 0 <= k < next && retrieved[k].sequence <= cutoff ==>
        Branch(retrieved[k].sequence, Some(retrieved[k]), None, None) in branches
    {
      if retrieved[next].sequence <= cutoff {
        branches := branches + [Branch(retrieved[next].sequence, Some(retrieved[next]), None, None)];
      }
    }
  }

  method SkipBranches(skipped: seq<Envelope>, cutoff: int) returns (branches: seq<Branch>)
    ensures forall b :: b in branches ==> SkipBranch(b, skipped, cutoff)
    ensures forall e :: e in skipped && e.sequence <= cutoff ==> Branch(e.sequence, None, None, Some(e)) in branches
  {
    branches := [];
    for next := 0 to |skipped|
      invariant forall b :: b in branches ==> SkipBranch(b, skipped, cutoff)
      invariant forall k :: 0 <= k < next && skipped[k].sequence <= cutoff ==>
        Branch(skipped[k].sequence, None, None, Some(skipped[k])) in branches
    {
      if skipped[next].sequence <= cutoff {
        branches := branches + [Branch(skipped[next].sequence, None, None, Some(skipped[next]))];
      }
    }
  }

  // ----- the timeline -----

  const MIN_SAFE_INTEGER := -MAX_SAFE_INTEGER

  datatype Model =
    | NoSteps(diagnostics: seq<Envelope>)
    | Steps(
        context: ContextLifecycle, retrieval: Branch, embedding: Pair, llm: Pair,
        retrievalRaw: seq<Envelope>, contextRaw: seq<Envelope>, answerRaw: seq<Envelope>,
        diagnostics: seq<Envelope>)

  function ExpectedSection(context: ContextLifecycle): Option<ContextSection> {
    if context.section.Some? && context.section.value.event.ContextSectionBuilt?
    then Some(context.section.value.event.section) else None
  }

  function FirstSequence(s: seq<Envelope>, default: int): int {
    if s == [] then default else s[0].sequence
  }

  function ContextEvents(context: ContextLifecycle): seq<Envelope> {
    SortBySequence(Present([context.budget, context.section, context.completed]))
  }

  function RetrievalEvents(branch: Branch): seq<Envelope> {
    SortBySequence(Present([branch.retrieved, branch.filtered, branch.skipped]))
  }

  /** The embedding must be over before retrieval starts, or before the context when nothing was retrieved. */
  function EmbeddingCutoff(context: ContextLifecycle, branch: Branch): int {
    FirstSequence(RetrievalEvents(branch), FirstSequence(ContextEvents(context), MAX_SAFE_INTEGER))
  }

  /** Every lifecycle is the latest one its candidates in the window of the query allow. */
  ghost predicate Selected(m: Model, ordered: seq<Envelope>, root: Envelope)
    requires m.Steps?
  {
    var cutoff := TerminalCutoff(ordered, root);
    var list := (kind: Kind) => OfKind(ordered, root, cutoff, kind);
    && LatestContext(m.context, Evidence(list(Budget), list(Section), list(Context), list(Filtered), list(Skip)))
    && LatestRetrieval(m.retrieval, list(Retrieved), list(Filtered), list(Skip),
                       SequenceOr(m.context.completed, MAX_SAFE_INTEGER), ExpectedSection(m.context))
    && (if m.retrieval.skipped.Some? then m.embedding == Pair(None, None)
        else LatestPair(m.embedding, list(EmbeddingStart), list(EmbeddingEnd),
                        EmbeddingCutoff(m.context, m.retrieval), MIN_SAFE_INTEGER))
    && LatestPair(m.llm, list(LlmStart), list(LlmEnd), MAX_SAFE_INTEGER,
                  SequenceOr(m.context.completed, MIN_SAFE_INTEGER))
  }

  function RetrievalPlaces(m: Model): seq<Option<Envelope>>
    requires m.Steps?
  {
    [m.embedding.started, m.embedding.completed, m.retrieval.retrieved, m.retrieval.skipped]
  }

  function ContextPlaces(m: Model): seq<Option<Envelope>>
    requires m.Steps?
  {
    [m.retrieval.filtered, m.context.budget, m.context.section, m.context.completed]
  }

  function AnswerPlaces(m: Model): seq<Option<Envelope>>
    requires m.Steps?
  {
    [m.llm.started, m.llm.completed]
  }

  function AllChosen(m: Model): seq<Option<Envelope>>
    requires m.Steps?
  {
    RetrievalPlaces(m) + ContextPlaces(m) + AnswerPlaces(m)
  }

  /** The steps show exactly the chosen events, in order. */
  ghost predicate Shown(m: Model)
    requires m.Steps?
  {
    && m.retrievalRaw == SortBySequence(Present(RetrievalPlaces(m)))
    && m.contextRaw == SortBySequence(Present(ContextPlaces(m)))
    && m.answerRaw == SortBySequence(Present(AnswerPlaces(m)))
  }

  const CHOSEN_KINDS := [
    EmbeddingStart, EmbeddingEnd, Retrieved, Skip, Filtered, Budget, Section, Context, LlmStart, LlmEnd
  ]

  ghost predicate From(e: Option<Envelope>, s: seq<Envelope>) {
    e.Some? ==> e.value in s
  }

  lemma ContextFrom(chosen: ContextLifecycle, evidence: Evidence)
    requires LatestContext(chosen, evidence)
    ensures From(chosen.budget, evidence.budgets) && From(chosen.section, evidence.sections)
    ensures From(chosen.completed, evidence.contexts)
  {
  }

  lemma RetrievalFrom(b: Branch, retrieved: seq<Envelope>, filtered: seq<Envelope>, skipped: seq<Envelope>,
                      cutoff: int, expected: Option<ContextSection>)
    requires LatestRetrieval(b, retrieved, filtered, skipped, cutoff, expected)
    ensures From(b.retrieved, retrieved) && From(b.filtered, filtered) && From(b.skipped, skipped)
  {
  }

  lemma PairFrom(pair: Pair, starts: seq<Envelope>, completions: seq<Envelope>, cutoff: int, floor: int)
    requires LatestPair(pair, starts, completions, cutoff, floor)
    ensures From(pair.started, starts) && From(pair.completed, completions)
  {
  }

  ghost predicate IsOf(e: Option<Envelope>, ordered: seq<Envelope>, kind: Kind) {
    e.Some? ==> e.value in ordered && Classify(e.value.event) == kind
  }

  /** An event of the run, of the given kind, in the window of the query. */
  ghost predicate Chosen(e: Option<Envelope>, ordered: seq<Envelope>, root: Envelope, kind: Kind) {
    IsOf(e, ordered, kind) && (e.Some? ==> InWindow(e.value, root, TerminalCutoff(ordered, root)))
  }

  lemma FromOfKind(e: Option<Envelope>, ordered: seq<Envelope>, root: Envelope, kind: Kind)
    requires From(e, OfKind(ordered, root, TerminalCutoff(ordered, root), kind))
    ensures Chosen(e, ordered, root, kind)
  {
  }

  lemma ContextChosen(m: Model, ordered: seq<Envelope>, root: Envelope)
    requires m.Steps? && Selected(m, ordered, root)
    ensures Chosen(m.context.budget, ordered, root, Budget) && Chosen(m.context.section, ordered, root, Section)
    ensures Chosen(m.context.completed, ordered, root, Context)
  {
    var list := (kind: Kind) => OfKind(ordered, root, TerminalCutoff(ordered, root), kind);
    ContextFrom(m.context, Evidence(list(Budget), list(Section), list(Context), list(Filtered), list(Skip)));
    FromOfKind(m.context.budget, ordered, root, Budget);
    FromOfKind(m.context.section, ordered, root, Section);
    FromOfKind(m.context.completed, ordered, root, Context);
  }

  lemma RetrievalChosen(m: Model, ordered: seq<Envelope>, root: Envelope)
    requires m.Steps? && Selected(m, ordered, root)
    ensures Chosen(m.retrieval.retrieved, ordered, root, Retrieved) &&
      Chosen(m.retrieval.filtered, ordered, root, Filtered)
    ensures Chosen(m.retrieval.skipped, ordered, root, Skip)
  {
    var list := (kind: Kind) => OfKind(ordered, root, TerminalCutoff(ordered, root), kind);
    RetrievalFrom(m.retrieval, list(Retrieved), list(Filtered), list(Skip),
                  SequenceOr(m.context.completed, MAX_SAFE_INTEGER), ExpectedSection(m.context));
    FromOfKind(m.retrieval.retrieved, ordered, root, Retrieved);
    FromOfKind(m.retrieval.filtered, ordered, root, Filtered);
    FromOfKind(m.retrieval.skipped, ordered, root, Skip);
  }

  lemma PairsChosen(m: Model, ordered: seq<Envelope>, root: Envelope)
    requires m.Steps? && Selected(m, ordered, root)
    ensures Chosen(m.embedding.started, ordered, root, EmbeddingStart) &&
      Chosen(m.embedding.completed, ordered, root, EmbeddingEnd)
    ensures Chosen(m.llm.started, ordered, root, LlmStart) && Chosen(m.llm.completed, ordered, root, LlmEnd)
  {
    var list := (kind: Kind) => OfKind(ordered, root, TerminalCutoff(ordered, root), kind);
    if m.retrieval.skipped.None? {
      PairFrom(m.embedding, list(EmbeddingStart), list(EmbeddingEnd), EmbeddingCutoff(m.context, m.retrieval),
        MIN_SAFE_INTEGER);
    }
    PairFrom(m.llm, list(LlmStart), list(LlmEnd), MAX_SAFE_INTEGER, SequenceOr(m.context.completed, MIN_SAFE_INTEGER));
    FromOfKind(m.embedding.started, ordered, root, EmbeddingStart);
    FromOfKind(m.embedding.completed, ordered, root, EmbeddingEnd);
    FromOfKind(m.llm.started, ordered, root, LlmStart);
    FromOfKind(m.llm.completed, ordered, root, LlmEnd);
  }

  ghost predicate AllOfKind(options: seq<Option<Envelope>>, kinds: seq<Kind>, ordered: seq<Envelope>) {
    |options| == |kinds| && forall k :: 0 <= k < |options| ==> IsOf(options[k], ordered, kinds[k])
  }

  /** Every event in the steps is an event of the run, of the kind its place calls for. */
  lemma SelectedKinds(m: Model, ordered: seq<Envelope>, root: Envelope)
    requires m.Steps? && Selected(m, ordered, root)
    ensures AllOfKind(AllChosen(m), CHOSEN_KINDS, ordered)
  {
    ContextChosen(m, ordered, root);
    RetrievalChosen(m, ordered, root);
    PairsChosen(m, ordered, root);
    KindsOfAll(m, ordered);
  }

  lemma KindsOfAll(m: Model, ordered: seq<Envelope>)
    requires m.Steps?
    requires IsOf(m.embedding.started, ordered, EmbeddingStart) && IsOf(m.embedding.completed, ordered, EmbeddingEnd)
    requires IsOf(m.retrieval.retrieved, ordered, Retrieved) && IsOf(m.retrieval.filtered, ordered, Filtered)
    requires IsOf(m.retrieval.skipped, ordered, Skip) && IsOf(m.context.budget, ordered, Budget)
    requires IsOf(m.context.section, ordered, Section) && IsOf(m.context.completed, ordered, Context)
    requires IsOf(m.llm.started, ordered, LlmStart) && IsOf(m.llm.completed, ordered, LlmEnd)
    ensures AllOfKind(AllChosen(m), CHOSEN_KINDS, ordered)
  {
    var a := [m.embedding.started, m.embedding.completed, m.retrieval.retrieved, m.retrieval.skipped];
    var b := [m.retrieval.filtered, m.context.budget, m.context.section, m.context.completed];
    var c := [m.llm.started, m.llm.completed];
    var ka, kb, kc := [EmbeddingStart, EmbeddingEnd, Retrieved, Skip], [Filtered, Budget, Section, Context],
      [LlmStart, LlmEnd];
    AllOfKindConcat(a, ka, b, kb, ordered);
    AllOfKindConcat(a + b, ka + kb, c, kc, ordered);
    assert CHOSEN_KINDS == ka + kb + kc;
  }

  lemma AllOfKindConcat(a: seq<Option<Envelope>>, ka: seq<Kind>, b: seq<Option<Envelope>>, kb: seq<Kind>,
      ordered: seq<Envelope>)
    requires AllOfKind(a, ka, ordered) && AllOfKind(b, kb, ordered)
    ensures AllOfKind(a + b, ka + kb, ordered)
  {
  }

  lemma {:induction false} PresentConcat(a: seq<Option<Envelope>>, b: seq<Option<Envelope>>)
    ensures Present(a + b) == Present(a) + Present(b)
  {
    if a == [] {
      assert a + b == b;
    } else {
      PresentConcat(a[1..], b);
      var head := if a[0].Some? then [a[0].value] else [];
      assert (a + b)[0] == a[0] && (a + b)[1..] == a[1..] + b;
      assert Present(a + b) == head + Present(a[1..] + b);
      assert head + (Present(a[1..]) + Present(b)) == (head + Present(a[1..])) + Present(b);
    }
  }

  /** Events of different kinds are different events. */
  lemma {:induction false} PresentOnce(options: seq<Option<Envelope>>, kinds: seq<Kind>)
    requires |options| == |kinds| && (forall i, j :: 0 <= i < j < |kinds| ==> kinds[i] != kinds[j])
    requires forall k :: 0 <= k < |options| && options[k].Some? ==> Classify(options[k].value.event) == kinds[k]
    ensures forall e :: multiset(Present(options))[e] <= 1
  {
    if options != [] {
      PresentOnce(options[1..], kinds[1..]);
      PresentElements(options[1..]);
      var more := Present(options[1..]);
      if options[0].Some? {
        assert options[0].value !in more;
      }
    }
  }

  /** The ten candidate lists, one per kind. */
  method ClassifyEvents(ordered: seq<Envelope>, root: Envelope, cutoff: int) returns (lists: map<Kind, seq<Envelope>>)
    ensures forall kind :: kind in CHOSEN_KINDS ==> kind in lists && lists[kind] == OfKind(ordered, root, cutoff, kind)
  {
    lists := map kind | kind in CHOSEN_KINDS :: [];
    for next := 0 to |ordered|
      invariant forall kind :: kind in CHOSEN_KINDS ==>
        kind in lists && lists[kind] == OfKind(ordered[..next], root, cutoff, kind)
    {
      var envelope := ordered[next];
      assert ordered[..next + 1][..next] == ordered[..next];
      var kind := Classify(envelope.event);
      if InWindow(envelope, root, cutoff) && kind in lists {
        lists := lists[kind := lists[kind] + [envelope]];
      }
    }
    assert ordered[..|ordered|] == ordered;
  }

  lemma ListsOrdered(ordered: seq<Envelope>, root: Envelope, cutoff: int)
    requires Ordered(ordered)
    ensures forall kind :: Ordered(OfKind(ordered, root, cutoff, kind))
  {
    forall kind ensures Ordered(OfKind(ordered, root, cutoff, kind)) {
      FilterOrdered(ordered, e => InWindow(e, root, cutoff) && Classify(e.event) == kind);
    }
  }

  /** Without a root there are no steps; with one, they show the lifecycles selected, and the rest is left over. */
  ghost predicate IsTimeline(m: Model, envelopes: seq<Envelope>) {
    var ordered := SortBySequence(envelopes);
    match RootOf(ordered)
    case None => m == NoSteps(ordered)
    case Some(root) =>
      && m.Steps? && Shown(m) && Selected(m, ordered, root)
      && m.diagnostics == Unclaimed(ordered, Sequences(Present(AllChosen(m))))
  }

  /** `buildBasicSemanticTimeline`. */
  method BuildBasicSemanticTimeline(envelopes: seq<Envelope>) returns (m: Model)
    ensures IsTimeline(m, envelopes)
    ensures m.Steps? && DistinctSequences(envelopes) ==> Conserved(m, envelopes)
  {
    var ordered := SortBySequence(envelopes);
    SortOrders(envelopes);
    var rooted := RootOf(ordered);
    if rooted.None? {
      return NoSteps(ordered);
    }
    m := BuildSteps(ordered, rooted.value);
    if DistinctSequences(envelopes) {
      EachEnvelopeOnce(m, envelopes);
    }
  }

  /** Every envelope is in exactly one place: one of the three steps or the diagnostics. */
  ghost predicate Conserved(m: Model, envelopes: seq<Envelope>)
    requires m.Steps?
  {
    multiset(m.retrievalRaw) + multiset(m.contextRaw) + multiset(m.answerRaw) + multiset(m.diagnostics)
      == multiset(envelopes)
  }

  /** The rest of `buildBasicSemanticTimeline`, once the root is known. */
  method BuildSteps(ordered: seq<Envelope>, root: Envelope) returns (m: Model)
    requires Ordered(ordered)
    ensures m.Steps? && Shown(m) && Selected(m, ordered, root)
    ensures m.diagnostics == Unclaimed(ordered, Sequences(Present(AllChosen(m))))
  {
    hide LatestContext;
    hide LatestRetrieval;
    hide LatestPair;
    hide Shown;
    var cutoff := TerminalCutoff(ordered, root);
    var lists := ClassifyEvents(ordered, root, cutoff);
    ListsOrdered(ordered, root, cutoff);

    var context := SelectContextLifecycle(
      Evidence(lists[Budget], lists[Section], lists[Context], lists[Filtered], lists[Skip]));
    var retrieval := SelectRetrievalLifecycle(lists[Retrieved], lists[Filtered], lists[Skip],
      SequenceOr(context.completed, MAX_SAFE_INTEGER), ExpectedSection(context));
    var embedding := SelectEmbedding(lists[EmbeddingStart], lists[EmbeddingEnd], context, retrieval);
    var llm := SelectPairLifecycle(lists[LlmStart], lists[LlmEnd], MAX_SAFE_INTEGER,
      SequenceOr(context.completed, MIN_SAFE_INTEGER));
    m := Assemble(ordered, context, retrieval, embedding, llm);
  }

  /** The embedding before the retrieval; a skipped retrieval has none. */
  method SelectEmbedding(starts: seq<Envelope>, completions: seq<Envelope>, context: ContextLifecycle,
      retrieval: Branch)
    returns (embedding: Pair)
    requires Ordered(starts) && Ordered(completions)
    ensures retrieval.skipped.Some? ==> embedding == Pair(None, None)
    ensures retrieval.skipped.None? ==>
      LatestPair(embedding, starts, completions, EmbeddingCutoff(context, retrieval), MIN_SAFE_INTEGER)
  {
    embedding := Pair(None, None);
    if retrieval.skipped.None? {
      embedding := SelectPairLifecycle(starts, completions, EmbeddingCutoff(context, retrieval), MIN_SAFE_INTEGER);
    }
  }

  /** Claims the chosen events and lays out the steps. */
  method Assemble(ordered: seq<Envelope>, context: ContextLifecycle, retrieval: Branch, embedding: Pair, llm: Pair)
    returns (m: Model)
    ensures m.Steps? && Shown(m)
    ensures m.context == context && m.retrieval == retrieval && m.embedding == embedding && m.llm == llm
    ensures m.diagnostics == Unclaimed(ordered, Sequences(Present(AllChosen(m))))
  {
    var claimed: set<int> := {};
    claimed := claimed + Sequences(ContextEvents(context));
    claimed := claimed + Sequences(RetrievalEvents(retrieval));
    claimed := claimed + Sequences(Present([embedding.started, embedding.completed]));
    claimed := claimed + Sequences(Present([llm.started, llm.completed]));
    var retrievalRaw := SortBySequence(Present(
      [embedding.started, embedding.completed, retrieval.retrieved, retrieval.skipped]));
    var contextRaw := SortBySequence(Present([retrieval.filtered, context.budget, context.section, context.completed]));
    var answerRaw := SortBySequence(Present([llm.started, llm.completed]));
    m := Steps(context, retrieval, embedding, llm, retrievalRaw, contextRaw, answerRaw, Unclaimed(ordered, claimed));
    ClaimedAreChosen(m, claimed);
  }

  lemma ClaimedAreChosen(m: Model, claimed: set<int>)
    requires m.Steps?
    requires claimed == {} + Sequences(ContextEvents(m.context)) + Sequences(RetrievalEvents(m.retrieval))
      + Sequences(Present([m.embedding.started, m.embedding.completed]))
      + Sequences(Present([m.llm.started, m.llm.completed]))
    ensures claimed == Sequences(Present(AllChosen(m)))
  {
    var context := Present([m.context.budget, m.context.section, m.context.completed]);
    var retrieval := Present([m.retrieval.retrieved, m.retrieval.filtered, m.retrieval.skipped]);
    var embedding := Present([m.embedding.started, m.embedding.completed]);
    var llm := Present([m.llm.started, m.llm.completed]);
    SortOrders(context);
    SortOrders(retrieval);
    SequencesOf(ContextEvents(m.context), context);
    SequencesOf(RetrievalEvents(m.retrieval), retrieval);
    SequencesOf(context, retrieval);
    SequencesOf(context + retrieval, embedding);
    SequencesOf(context + retrieval + embedding, llm);
    SamePresent(m);
    SequencesOf(context + retrieval + embedding + llm, Present(AllChosen(m)));
  }

  lemma SamePresent(m: Model)
    requires m.Steps?
    ensures forall e ::
      e in Present([m.context.budget, m.context.section, m.context.completed])
        + Present([m.retrieval.retrieved, m.retrieval.filtered, m.retrieval.skipped])
        + Present([m.embedding.started, m.embedding.completed]) + Present([m.llm.started, m.llm.completed])
      <==> e in Present(AllChosen(m))
  {
    PresentElements([m.context.budget, m.context.section, m.context.completed]);
    PresentElements([m.retrieval.retrieved, m.retrieval.filtered, m.retrieval.skipped]);
    PresentElements([m.embedding.started, m.embedding.completed]);
    PresentElements([m.llm.started, m.llm.completed]);
    PresentElements(AllChosen(m));
  }

  lemma PresentThree(a: seq<Option<Envelope>>, b: seq<Option<Envelope>>, c: seq<Option<Envelope>>)
    ensures multiset(SortBySequence(Present(a))) + multiset(SortBySequence(Present(b)))
      + multiset(SortBySequence(Present(c)))
      == multiset(Present(a + b + c))
  {
    PresentConcat(a, b);
    PresentConcat(a + b, c);
  }

  lemma ShownEvents(m: Model)
    requires m.Steps? && Shown(m)
    ensures multiset(m.retrievalRaw) + multiset(m.contextRaw) + multiset(m.answerRaw) == multiset(Present(AllChosen(m)))
  {
    PresentThree(RetrievalPlaces(m), ContextPlaces(m), AnswerPlaces(m));
  }

  lemma EachEnvelopeOnce(m: Model, envelopes: seq<Envelope>)
    requires DistinctSequences(envelopes) && IsTimeline(m, envelopes) && m.Steps?
    ensures Conserved(m, envelopes)
  {
    var ordered := SortBySequence(envelopes);
    SortsStrictly(envelopes);
    SelectedKinds(m, ordered, RootOf(ordered).value);
    ShownEvents(m);
    ChosenOnce(AllChosen(m), ordered);
    Partition(ordered, Present(AllChosen(m)), Sequences(Present(AllChosen(m))));
  }

  lemma ChosenOnce(options: seq<Option<Envelope>>, ordered: seq<Envelope>)
    requires AllOfKind(options, CHOSEN_KINDS, ordered)
    ensures forall e :: multiset(Present(options))[e] <= 1
    ensures forall e :: e in Present(options) ==> e in ordered
  {
    PresentOnce(options, CHOSEN_KINDS);
    PresentElements(options);
    forall e | e in Present(options) ensures e in ordered {
      var k :| 0 <= k < |options| && options[k] == Some(e);
    }
  }

  /**
   * A completed context holds text that was retrieved: its chain is on one span
   * inside the window of the query, and its section matches a filtered candidate
   * list, or expected nothing after a skipped retrieval.
   */
  lemma CompletedContextIsBacked(m: Model, ordered: seq<Envelope>, root: Envelope)
    requires m.Steps? && Selected(m, ordered, root) && m.context.completed.Some?
    ensures m.context.budget.Some? && m.context.section.Some? && m.context.section.value.event.ContextSectionBuilt?
    ensures var b, s, c := m.context.budget.value, m.context.section.value, m.context.completed.value;
      && b.spanId == s.spanId == c.spanId
      && root.sequence < b.sequence <= s.sequence <= c.sequence < TerminalCutoff(ordered, root)
      && ((exists f :: f in ordered && f.sequence <= s.sequence && Backs(f, s.event.section))
          || (s.event.section.candidateCount == 0 &&
              exists k :: k in ordered && k.event.BasicRetrievalSkipped? && k.sequence <= s.sequence))
  {
    var cutoff := TerminalCutoff(ordered, root);
    var list := (kind: Kind) => OfKind(ordered, root, cutoff, kind);
    ChainOf(m.context, Evidence(list(Budget), list(Section), list(Context), list(Filtered), list(Skip)));
    ContextChosen(m, ordered, root);
    BackedBy(m.context.section.value, ordered, root);
  }

  lemma ChainOf(chosen: ContextLifecycle, evidence: Evidence)
    requires LatestContext(chosen, evidence) && chosen.completed.Some?
    ensures chosen.budget.Some? && chosen.section.Some?
    ensures Budgets(chosen.budget.value, chosen.section.value)
    ensures chosen.section.value.spanId == chosen.completed.value.spanId
    ensures chosen.section.value.sequence <= chosen.completed.value.sequence
    ensures HasCoherentRetrieval(chosen.section.value, evidence.filtered, evidence.skipped)
  {
  }

  lemma BackedBy(s: Envelope, ordered: seq<Envelope>, root: Envelope)
    requires var cutoff := TerminalCutoff(ordered, root);
      HasCoherentRetrieval(s, OfKind(ordered, root, cutoff, Filtered), OfKind(ordered, root, cutoff, Skip))
    ensures s.event.ContextSectionBuilt?
    ensures (exists f :: f in ordered && f.sequence <= s.sequence && Backs(f, s.event.section))
      || (s.event.section.candidateCount == 0 &&
          exists k :: k in ordered && k.event.BasicRetrievalSkipped? && k.sequence <= s.sequence)
  {
    var cutoff := TerminalCutoff(ordered, root);
    var filtered, skipped := OfKind(ordered, root, cutoff, Filtered), OfKind(ordered, root, cutoff, Skip);
    if k :| 0 <= k < |filtered| && filtered[k].sequence <= s.sequence && Backs(filtered[k], s.event.section) {
      FromOfKind(Some(filtered[k]), ordered, root, Filtered);
    } else {
      var k :| 0 <= k < |skipped| && skipped[k].sequence <= s.sequence;
      FromOfKind(Some(skipped[k]), ordered, root, Skip);
    }
  }

  // ----- from deliveries to steps -----

  /** An envelope is in one of the steps or in the diagnostics. */
  ghost predicate IsPlaced(e: Envelope, m: Model)
    requires m.Steps?
  {
    e in m.retrievalRaw || e in m.contextRaw || e in m.answerRaw || e in m.diagnostics
  }

  lemma PlacedAre(m: Model, envelopes: seq<Envelope>)
    requires m.Steps? && Conserved(m, envelopes)
    ensures forall e :: IsPlaced(e, m) <==> e in envelopes
  {
    var places := multiset(m.retrievalRaw) + multiset(m.contextRaw) + multiset(m.answerRaw) + multiset(m.diagnostics);
    forall e ensures IsPlaced(e, m) <==> e in envelopes {
      assert IsPlaced(e, m) <==> e in places;
      assert e in envelopes <==> e in multiset(envelopes);
    }
  }

  lemma SortedAlready(s: seq<Envelope>)
    requires StrictlyOrdered(s)
    ensures SortBySequence(s) == s && DistinctSequences(s)
  {
    SortsStrictly(s);
    SortOrders(s);
    StrictlyOrderedUnique(SortBySequence(s), s);
  }

  /**
   * Whatever was delivered, in whatever order and how often: the timeline of the merged deliveries puts
   * the first delivery of every sequence number in exactly one place, and nothing else anywhere.
   */
  lemma DeliveriesPlacedOnce(m: Model, deliveries: seq<Envelope>)
    requires IsTimeline(m, MergeAll(deliveries)) && m.Steps?
    ensures Conserved(m, MergeAll(deliveries))
    ensures forall e :: IsPlaced(e, m) <==> FirstDelivered(e, deliveries)
  {
    var merged := MergeAll(deliveries);
    MergeHolds(deliveries);
    SortedAlready(merged);
    EachEnvelopeOnce(m, merged);
    PlacedAre(m, merged);
  }
}
