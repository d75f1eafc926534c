/**
 * The bounded research loop of the `deepResearch` tool. Each iteration checks the
 * time budget, counts itself in `currentDepth`, searches, extracts from the extra
 * URL and the first three results, asks for an analysis, records its summary and
 * then stops or carries the first gap forward as the new topic.
 *
 * The outside world is an `Env` of total functions. The clock, the search, the
 * extraction and the language model are indexed by the iteration number k: the
 * value of `currentDepth` when iteration k starts, counting from 0. The URL
 * parser and the JSON parser are not: they depend on their input alone.
 *
 * `Iterate` and `Run` are the specification; the class `ResearchState` and the
 * method `Execute` are the loop as the program runs it, proved equal to `Run`.
 */
module Research {
  import opened Wrappers
  import opened Extraction
  import ResponseCleanup
  import Rendering

  /** The shared failure threshold for failed searches and missing analyses. */
  const MaxFailedAttempts: nat := 3

  /** How many search results are extracted from. */
  const TopUrlCount: nat := 3

  /** The `analysis` object of a parsed reply, after the program's fallbacks:
      a missing or falsy `summary`, `nextSearchTopic` or `urlToSearch` reads as "",
      `shouldContinue` is its truthiness, and `gaps` is None when the field is
      missing (reading its length then throws). */
  datatype Analysis = Analysis(
    summary: string,
    gaps: Option<seq<string>>,
    shouldContinue: bool,
    nextSearchTopic: string,
    urlToSearch: string)

  /** A search call: a reply reporting failure, a call that throws, or the result
      URLs in the order returned. */
  datatype SearchOutcome = SearchFailed | SearchThrew | SearchOk(urls: seq<string>)

  /** The external collaborators.
      - timeUp(k): the elapsed time has reached the limit when iteration k is checked;
      - search(k, query): the search service;
      - extract(k, topic, url): the extraction service, prompted with the topic;
      - urlParses(url): whether `new URL(url)` accepts a non-empty string;
      - reply(k, topic, findings): the analysis model's text, None when the call throws;
      - parse(text): the `analysis` member of `JSON.parse(text)`, None when parsing
        throws or the member is missing or falsy. */
  datatype Env = Env(
    timeUp: nat -> bool,
    search: (nat, string) -> SearchOutcome,
    extract: (nat, string, string) -> ExtractOutcome,
    urlParses: string -> bool,
    reply: (nat, string, string) -> Option<string>,
    parse: string -> Option<Analysis>)

  /** `analyzeAndPlan`: clean the reply, refuse an empty one, parse the rest. */
  function AnalyzeAndPlan(reply: Option<string>, parse: string -> Option<Analysis>): (r: Option<Analysis>)
    ensures reply.None? ==> r.None?
    ensures reply.Some? && ResponseCleanup.Clean(reply.value) == "" ==> r.None?
    ensures reply.Some? && ResponseCleanup.Clean(reply.value) != "" ==> r == parse(ResponseCleanup.Clean(reply.value))
    ensures r.Some? ==> reply.Some? && r == parse(ResponseCleanup.Clean(reply.value))
  {
    match reply
    case None => None
    case Some(text) =>
      var cleaned := ResponseCleanup.Clean(text);
      if cleaned == "" then None else parse(cleaned)
  }

  /** `searchResult.data.slice(0, 3)`: the first three URLs, or all of them if fewer. */
  function TopUrls(urls: seq<string>): (r: seq<string>)
    ensures |r| == if |urls| < TopUrlCount then |urls| else TopUrlCount
    ensures r == urls[..|r|]
  {
    if |urls| <= TopUrlCount then urls else urls[..TopUrlCount]
  }

  /** The extraction service as seen by iteration k with the given topic. */
  function Extractor(env: Env, k: nat, topic: string): string -> ExtractOutcome {
    url => env.extract(k, topic, url)
  }

  /** The value of `researchState` together with the working `topic`. */
  datatype State = State(
    findings: seq<Finding>,
    summaries: seq<string>,
    nextSearchTopic: string,
    urlToSearch: string,
    currentDepth: nat,
    failedAttempts: nat,
    topic: string)

  function Initial(topic: string): State {
    State([], [], "", "", 0, 0, topic)
  }

  /** Why the loop ended. `Threw`: an exception left the loop and the research failed. */
  datatype Exit = TimeUp | DepthReached | TooManyFailures | AnalysisStop | Threw

  /** What one started iteration did: a failed search, a search call that threw, or
      a successful search with the findings it added and the analysis it got. */
  datatype Event =
    | SearchFailedAt(query: string)
    | SearchThrewAt(query: string)
    | Analysed(query: string, added: seq<Finding>, analysis: Option<Analysis>)

  /** The result of one pass through the loop body: the new state, the event (None
      when the time check stopped the loop first) and the exit, if the body breaks. */
  datatype Step = Step(state: State, event: Option<Event>, stop: Option<Exit>)

  /** `researchState.nextSearchTopic || topic` */
  function SearchQuery(s: State): string {
    if s.nextSearchTopic != "" then s.nextSearchTopic else s.topic
  }

  /** The stop-or-continue rule after one failure: break once the counter reaches the threshold. */
  function AfterFailure(failedAttempts: nat): Option<Exit> {
    if failedAttempts >= MaxFailedAttempts then Some(TooManyFailures) else None
  }

  /** A failed search or a missing analysis: count it, and break once the counter
      reaches the threshold. */
  function Failure(s: State, event: Event): (r: Step)
    ensures r.state.currentDepth == s.currentDepth && r.event == Some(event)
  {
    var failed := s.failedAttempts + 1;
    Step(s.(failedAttempts := failed), Some(event), AfterFailure(failed))
  }

  /** The findings that iteration k adds after a successful search: those of the
      extra URL followed by those of the first three results. */
  function NewFindings(s: State, env: Env, k: nat, urls: seq<string>): seq<Finding> {
    ExtractFromUrls([s.urlToSearch] + TopUrls(urls), Extractor(env, k, s.topic), env.urlParses)
  }

  /** The analysis of iteration k over all findings so far. */
  function AnalysisOf(env: Env, k: nat, topic: string, findings: seq<Finding>): Option<Analysis> {
    AnalyzeAndPlan(env.reply(k, topic, Rendering.RenderFindings(findings)), env.parse)
  }

  /** What an analysis, or its absence, overwrites: the next query, the extra URL,
      and one more summary. */
  function Record(s: State, analysis: Option<Analysis>): State {
    s.(nextSearchTopic := if analysis.Some? then analysis.value.nextSearchTopic else "",
       urlToSearch := if analysis.Some? then analysis.value.urlToSearch else "",
       summaries := s.summaries + [if analysis.Some? then analysis.value.summary else ""])
  }

  /** The stop-or-continue decision after an analysis: stop when it says so or names
      no gap, otherwise carry the first gap forward as the topic. */
  function Replan(t: State, event: Event, a: Analysis): (r: Step)
    ensures r.state.currentDepth == t.currentDepth && r.event == Some(event)
  {
    if !a.shouldContinue then Step(t, Some(event), Some(AnalysisStop))
    else
      match a.gaps
      case None => Step(t, Some(event), Some(Threw))
      case Some(gaps) =>
        if gaps == [] then Step(t, Some(event), Some(AnalysisStop))
        else Step(t.(topic := if gaps[0] != "" then gaps[0] else t.topic), Some(event), None)
  }

  /** The analysis phase and the replanning, from the state in which the new
      findings are already appended. */
  function Analyse(s: State, query: string, added: seq<Finding>, analysis: Option<Analysis>): (r: Step)
    ensures r.state.currentDepth == s.currentDepth && r.event == Some(Analysed(query, added, analysis))
  {
    var t := Record(s, analysis);
    var event := Analysed(query, added, analysis);
    match analysis
    case None => Failure(t, event)
    case Some(a) => Replan(t, event, a)
  }

  /** Everything after the search call of iteration k, from the state in which the
      depth is already counted. */
  function Searched(s: State, env: Env, k: nat, query: string, outcome: SearchOutcome): (r: Step)
    ensures r.state.currentDepth == s.currentDepth && r.event.Some?
  {
    match outcome
    case SearchFailed => Failure(s, SearchFailedAt(query))
    case SearchThrew => Step(s, Some(SearchThrewAt(query)), Some(Threw))
    case SearchOk(urls) =>
      var added := NewFindings(s, env, k, urls);
      var extended := s.(findings := s.findings + added);
      Analyse(extended, query, added, AnalysisOf(env, k, s.topic, extended.findings))
  }

  /** One pass through the loop body, starting from state s with the loop guard true. */
  function Iterate(s: State, env: Env): (r: Step)
    ensures r.stop.None? ==> r.event.Some? && r.state.currentDepth == s.currentDepth + 1
  {
    var k := s.currentDepth;
    if env.timeUp(k) then Step(s, None, Some(TimeUp))
    else Searched(s.(currentDepth := k + 1), env, k, SearchQuery(s), env.search(k, SearchQuery(s)))
  }

  /** The whole loop from state s: the state it leaves, why, and what each started
      iteration did, in order. */
  datatype Outcome = Outcome(state: State, exit: Exit, events: seq<Event>)

  function Run(s: State, maxDepth: int, env: Env): Outcome
    decreases maxDepth - s.currentDepth, 2
  {
    if s.currentDepth >= maxDepth then Outcome(s, DepthReached, [])
    else Pass(s, maxDepth, env)
  }

  /** The loop from state s once the loop guard has let it in: one pass through
      the body, then the rest. */
  function Pass(s: State, maxDepth: int, env: Env): Outcome
    requires s.currentDepth < maxDepth
    decreases maxDepth - s.currentDepth, 1
  {
    After(Iterate(s, env), s.currentDepth, maxDepth, env)
  }

  /** The rest of the loop after a pass through its body that started at `depth`:
      the loop breaks with the pass' exit, or goes on from the new state. */
  function After(step: Step, depth: int, maxDepth: int, env: Env): Outcome
    requires depth < maxDepth
    requires step.stop.None? ==> step.event.Some? && step.state.currentDepth == depth + 1
    decreases maxDepth - depth, 0
  {
    if step.stop.Some? then Outcome(step.state, step.stop.value, if step.event.Some? then [step.event.value] else [])
    else
      var rest := Run(step.state, maxDepth, env);
      Outcome(rest.state, rest.exit, [step.event.value] + rest.events)
  }

  /** One iteration of the loop, when the loop guard holds: where the loop ends and why. */
  lemma RunUnfold(s: State, maxDepth: int, env: Env)
    requires s.currentDepth < maxDepth
    ensures var step := Iterate(s, env);
            var run := Run(s, maxDepth, env);
            if step.stop.Some? then run.state == step.state && run.exit == step.stop.value
            else run.state == Run(step.state, maxDepth, env).state && run.exit == Run(step.state, maxDepth, env).exit
  {
    var step := Iterate(s, env);
    assert Run(s, maxDepth, env) == After(step, s.currentDepth, maxDepth, env);
  }

  /** The inputs of the final synthesis prompt: the working topic and the rendered
      findings and summaries. */
  datatype SynthesisRequest = SynthesisRequest(topic: string, findings: string, summaries: string)

  /** What the tool call produces: the synthesis request, or the exception that left the loop. */
  datatype Completion = Synthesize(request: SynthesisRequest) | Failed

  function Finish(o: Outcome): Completion {
    if o.exit == Threw then Failed
    else Synthesize(SynthesisRequest(o.state.topic, Rendering.RenderFindings(o.state.findings),
                                     Rendering.RenderSummaries(o.state.summaries)))
  }

  /** The mutable `researchState` record. */
  class ResearchState {
    var findings: seq<Finding>
    var summaries: seq<string>
    var nextSearchTopic: string
    var urlToSearch: string
    var currentDepth: nat
    var failedAttempts: nat
    const maxFailedAttempts: nat

    constructor ()
      ensures findings == [] && summaries == [] && nextSearchTopic == "" && urlToSearch == ""
      ensures currentDepth == 0 && failedAttempts == 0 && maxFailedAttempts == MaxFailedAttempts
    {
      findings := [];
      summaries := [];
      nextSearchTopic := "";
      urlToSearch := "";
      currentDepth := 0;
      failedAttempts := 0;
      maxFailedAttempts := MaxFailedAttempts;
    }

    /** The record's value, with the working topic that lives beside it. */
    function Value(topic: string): State
      reads this
    {
      State(findings, summaries, nextSearchTopic, urlToSearch, currentDepth, failedAttempts, topic)
    }
  }

  /** The loop body after the analysis call: record the analysis (or its absence)
      in the research state, then count a missing analysis as a failure, or stop,
      or carry the first gap forward as the topic. `stop` is the reason to break. */
  method RecordAndReplan(researchState: ResearchState, topic: string, analysis: Option<Analysis>,
                         ghost query: string, ghost added: seq<Finding>)
    returns (newTopic: string, stop: Option<Exit>)
    requires researchState.maxFailedAttempts == MaxFailedAttempts
    modifies researchState
    ensures var step := Analyse(old(researchState.Value(topic)), query, added, analysis);
            researchState.Value(newTopic) == step.state && stop == step.stop
  {
    ghost var before := researchState.Value(topic);
    newTopic := topic;
    researchState.nextSearchTopic := if analysis.Some? then analysis.value.nextSearchTopic else "";
    researchState.urlToSearch := if analysis.Some? then analysis.value.urlToSearch else "";
    researchState.summaries := researchState.summaries + [if analysis.Some? then analysis.value.summary else ""];
    assert researchState.Value(topic) == Record(before, analysis);

    if analysis.None? {
      researchState.failedAttempts := researchState.failedAttempts + 1;
      if researchState.failedAttempts >= researchState.maxFailedAttempts {
        return newTopic, Some(TooManyFailures);
      }
      return newTopic, None;
    }
    var a := analysis.value;
    if !a.shouldContinue {
      return newTopic, Some(AnalysisStop);
    }
    if a.gaps.None? {
      // reading the length of a missing gaps list throws
      return newTopic, Some(Threw);
    }
    if a.gaps.value == [] {
      return newTopic, Some(AnalysisStop);
    }
    newTopic := if a.gaps.value[0] != "" then a.gaps.value[0] else topic;
    return newTopic, None;
  }

  /** The loop body after a successful search of iteration k: extract from the
      extra URL and the top results, append the findings, ask for the analysis and
      act on it. */
  method ExtractAndAnalyse(researchState: ResearchState, topic: string, env: Env, k: nat,
                           searchTopic: string, urls: seq<string>)
    returns (newTopic: string, stop: Option<Exit>)
    requires researchState.maxFailedAttempts == MaxFailedAttempts
    modifies researchState
    ensures var step := Searched(old(researchState.Value(topic)), env, k, searchTopic, SearchOk(urls));
            researchState.Value(newTopic) == step.state && stop == step.stop
  {
    // Extract phase
    var topUrls := TopUrls(urls);
    var newFindings := ExtractFromUrls([researchState.urlToSearch] + topUrls, Extractor(env, k, topic), env.urlParses);
    researchState.findings := researchState.findings + newFindings;

    // Analysis phase
    var analysis := AnalyzeAndPlan(env.reply(k, topic, Rendering.RenderFindings(researchState.findings)), env.parse);
    newTopic, stop := RecordAndReplan(researchState, topic, analysis, searchTopic, newFindings);
  }

  /** One pass through the loop body, entered with the loop guard true: the time
      check, the depth count, the search, the extraction and the analysis. `stop`
      is the reason to break out of the loop. */
  method Iteration(researchState: ResearchState, topic: string, env: Env) returns (newTopic: string, stop: Option<Exit>)
    requires researchState.maxFailedAttempts == MaxFailedAttempts
    modifies researchState
    ensures var step := Iterate(old(researchState.Value(topic)), env);
            researchState.Value(newTopic) == step.state && stop == step.stop
  {
    ghost var before := researchState.Value(topic);
    newTopic := topic;
    var k := researchState.currentDepth;
    if env.timeUp(k) {
      return newTopic, Some(TimeUp);
    }

    researchState.currentDepth := researchState.currentDepth + 1;

    // Search phase
    var searchTopic := if researchState.nextSearchTopic != "" then researchState.nextSearchTopic else topic;
    var searchResult := env.search(k, searchTopic);
    assert researchState.Value(topic) == before.(currentDepth := k + 1);
    assert Iterate(before, env) == Searched(researchState.Value(topic), env, k, searchTopic, searchResult);
    if searchResult.SearchFailed? {
      researchState.failedAttempts := researchState.failedAttempts + 1;
      if researchState.failedAttempts >= researchState.maxFailedAttempts {
        return newTopic, Some(TooManyFailures);
      }
      return newTopic, None;
    }
    if searchResult.SearchThrew? {
      // the exception leaves the loop and the tool call
      return newTopic, Some(Threw);
    }

    newTopic, stop := ExtractAndAnalyse(researchState, topic, env, k, searchTopic, searchResult.urls);
  }

  /** The `execute` closure of the tool: run the loop over a fresh research state and
      return the final synthesis request, or Failed when an exception left the loop. */
  method Execute(topic0: string, maxDepth: int, env: Env) returns (exit: Exit, result: Completion)
    ensures exit == Run(Initial(topic0), maxDepth, env).exit
    ensures result == Finish(Run(Initial(topic0), maxDepth, env))
  {
    ghost var final := Run(Initial(topic0), maxDepth, env);
    var topic := topic0;
    var researchState := new ResearchState();
    exit := DepthReached;
    while researchState.currentDepth < maxDepth
      invariant researchState.maxFailedAttempts == MaxFailedAttempts
      invariant Run(researchState.Value(topic), maxDepth, env).state == final.state
      invariant Run(researchState.Value(topic), maxDepth, env).exit == final.exit
      invariant exit == DepthReached
      decreases maxDepth - researchState.currentDepth
    {
      RunUnfold(researchState.Value(topic), maxDepth, env);
      var stop;
      topic, stop := Iteration(researchState, topic, env);
      if stop.Some? {
        exit := stop.value;
        break;
      }
    }
    assert researchState.Value(topic) == final.state && exit == final.exit;
    if exit == Threw {
      result := Failed;
    } else {
      result := Synthesize(SynthesisRequest(topic, Rendering.RenderFindings(researchState.findings),
                                            Rendering.RenderSummaries(researchState.summaries)));
    }
  }
}
