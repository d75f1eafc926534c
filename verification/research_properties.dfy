/**
 * What the research loop guarantees: first about one pass through the loop body
 * (`Iterate`), then about the whole loop (`Run`), stated over the list of events
 * the started iterations produce.
 */
module ResearchProperties {
  import opened Wrappers
  import opened Extraction
  import opened Research
  import ResponseCleanup

  /** A started iteration that counts against the failure threshold: a failed
      search or a missing analysis. */
  predicate IsFailure(e: Event) {
    e.SearchFailedAt? || (e.Analysed? && e.analysis.None?)
  }

  /** How many of the events count as failures. */
  function FailureCount(events: seq<Event>): (r: nat)
    ensures r <= |events|
  {
    if events == [] then 0
    else (if IsFailure(events[0]) then 1 else 0) + FailureCount(events[1..])
  }

  /** How many iterations got search results (and so reached the analysis). */
  function AnalysedCount(events: seq<Event>): (r: nat)
    ensures r <= |events|
  {
    if events == [] then 0
    else (if events[0].Analysed? then 1 else 0) + AnalysedCount(events[1..])
  }

  /** The findings the iterations appended, in order. */
  function AddedFindings(events: seq<Event>): seq<Finding> {
    if events == [] then []
    else (if events[0].Analysed? then events[0].added else []) + AddedFindings(events[1..])
  }

  /** The summary an analysed iteration records: the analysis' summary, or "" when
      there is no analysis. */
  function SummaryOf(analysis: Option<Analysis>): string {
    if analysis.Some? then analysis.value.summary else ""
  }

  /** The summaries the iterations recorded, in order. */
  function RecordedSummaries(events: seq<Event>): seq<string> {
    if events == [] then []
    else (if events[0].Analysed? then [SummaryOf(events[0].analysis)] else []) + RecordedSummaries(events[1..])
  }

  /** One summary per analysed iteration. */
  lemma {:induction false} RecordedSummariesCount(events: seq<Event>)
    ensures |RecordedSummaries(events)| == AnalysedCount(events)
  {
    if events != [] {
      RecordedSummariesCount(events[1..]);
    }
  }

  // ---------------------------------------------------------------------------
  // One pass through the loop body

  /** The analysis phase on its own, for any analysis: it keeps the depth and the
      findings, records the summary, the next query and the extra URL, counts a
      missing analysis as a failure, and replans from a present one. */
  lemma AnalyseFacts(s: State, query: string, added: seq<Finding>, analysis: Option<Analysis>)
    ensures var step := Analyse(s, query, added, analysis);
            && step.event == Some(Analysed(query, added, analysis))
            && step.stop != Some(TimeUp) && step.stop != Some(DepthReached)
            && step.state.findings == s.findings
            && step.state.summaries == s.summaries + [SummaryOf(analysis)]
            && step.state.nextSearchTopic == (if analysis.Some? then analysis.value.nextSearchTopic else "")
            && step.state.urlToSearch == (if analysis.Some? then analysis.value.urlToSearch else "")
            && step.state.failedAttempts == s.failedAttempts + (if analysis.None? then 1 else 0)
            && (analysis.None? ==> step.state.topic == s.topic && step.stop == AfterFailure(step.state.failedAttempts))
            && (analysis.Some? ==>
                  var a := analysis.value;
                  && (step.stop.None? <==> a.shouldContinue && a.gaps.Some? && a.gaps.value != [])
                  && (a.shouldContinue && a.gaps.None? ==> step.stop == Some(Threw))
                  && (step.stop.Some? ==> step.stop != Some(TooManyFailures) && step.state.topic == s.topic)
                  && (step.stop.None? ==> step.state.topic == (if a.gaps.value[0] != "" then a.gaps.value[0] else s.topic)))
  {
  }

  /** The time check comes first: when the time is up the pass changes nothing,
      records no event and stops; otherwise it counts exactly one iteration. Only
      the loop guard ends the loop with DepthReached. */
  lemma IterateTimeCheck(s: State, env: Env)
    ensures var step := Iterate(s, env);
            && (env.timeUp(s.currentDepth) <==> step.event.None?)
            && (env.timeUp(s.currentDepth) <==> step.stop == Some(TimeUp))
            && step.stop != Some(DepthReached)
            && (env.timeUp(s.currentDepth) ==> step.state == s)
            && (!env.timeUp(s.currentDepth) ==> step.state.currentDepth == s.currentDepth + 1)
  {
    var k := s.currentDepth;
    var q := SearchQuery(s);
    if !env.timeUp(k) {
      var t := s.(currentDepth := k + 1);
      assert Iterate(s, env) == Searched(t, env, k, q, env.search(k, q));
      match env.search(k, q)
      case SearchFailed =>
      case SearchThrew =>
      case SearchOk(urls) =>
        var added := NewFindings(t, env, k, urls);
        var u := t.(findings := t.findings + added);
        var analysis := AnalysisOf(env, k, s.topic, u.findings);
        assert Iterate(s, env) == Analyse(u, q, added, analysis);
        AnalyseFacts(u, q, added, analysis);
    }
  }

  /** A started iteration searches with `nextSearchTopic`, or the topic when that is
      empty, and what it did follows the search outcome. */
  lemma IterateSearch(s: State, env: Env)
    requires !env.timeUp(s.currentDepth)
    ensures var step := Iterate(s, env);
            var outcome := env.search(s.currentDepth, SearchQuery(s));
            && step.event.Some?
            && step.event.value.query == SearchQuery(s)
            && (step.event.value.SearchFailedAt? <==> outcome.SearchFailed?)
            && (step.event.value.SearchThrewAt? <==> outcome.SearchThrew?)
            && (step.event.value.Analysed? <==> outcome.SearchOk?)
            && (outcome.SearchThrew? ==> step.stop == Some(Threw))
  {
  }

  /** The failure counter goes up by one exactly on a failure, and the pass breaks
      for that reason exactly when a failure brings the counter to the threshold. */
  lemma IterateFailures(s: State, env: Env)
    ensures var step := Iterate(s, env);
            var failed := step.event.Some? && IsFailure(step.event.value);
            && step.state.failedAttempts == s.failedAttempts + (if failed then 1 else 0)
            && (step.stop == Some(TooManyFailures) <==> failed && step.state.failedAttempts >= MaxFailedAttempts)
            && (failed && step.state.failedAttempts < MaxFailedAttempts ==> step.stop.None?)
  {
    var k := s.currentDepth;
    var q := SearchQuery(s);
    if !env.timeUp(k) {
      var t := s.(currentDepth := k + 1);
      assert Iterate(s, env) == Searched(t, env, k, q, env.search(k, q));
      match env.search(k, q)
      case SearchFailed =>
      case SearchThrew =>
      case SearchOk(urls) =>
        var added := NewFindings(t, env, k, urls);
        var u := t.(findings := t.findings + added);
        var analysis := AnalysisOf(env, k, s.topic, u.findings);
        assert Iterate(s, env) == Analyse(u, q, added, analysis);
        AnalyseFacts(u, q, added, analysis);
    }
  }


  /** The findings only grow: an iteration with search results appends exactly the
      findings of the extra URL and of the first three results, in that order, and
      the analysis is asked for over all findings so far. */
  lemma IterateFindings(s: State, env: Env)
    ensures var step := Iterate(s, env);
            && (step.event.Some? && step.event.value.Analysed? ==>
                  var k := s.currentDepth;
                  var urls := env.search(k, SearchQuery(s)).urls;
                  && step.event.value.added
                     == ExtractFromUrls([s.urlToSearch] + TopUrls(urls), Extractor(env, k, s.topic), env.urlParses)
                  && step.state.findings == s.findings + step.event.value.added
                  && step.event.value.analysis == AnalysisOf(env, k, s.topic, step.state.findings))
            && (!(step.event.Some? && step.event.value.Analysed?) ==> step.state.findings == s.findings)
  {
    var k := s.currentDepth;
    var q := SearchQuery(s);
    if !env.timeUp(k) {
      var t := s.(currentDepth := k + 1);
      assert Iterate(s, env) == Searched(t, env, k, q, env.search(k, q));
      match env.search(k, q)
      case SearchFailed =>
      case SearchThrew =>
      case SearchOk(urls) =>
        var added := NewFindings(t, env, k, urls);
        var u := t.(findings := t.findings + added);
        var analysis := AnalysisOf(env, k, s.topic, u.findings);
        assert Iterate(s, env) == Analyse(u, q, added, analysis);
        AnalyseFacts(u, q, added, analysis);
    }
  }

  /** An iteration with search results records one summary and overwrites the next
      query and the extra URL from the analysis, with "" when there is none; every
      other pass leaves all three alone. */
  lemma IterateRecord(s: State, env: Env)
    ensures var step := Iterate(s, env);
            if step.event.Some? && step.event.value.Analysed? then
              var a := step.event.value.analysis;
              && step.state.summaries == s.summaries + [SummaryOf(a)]
              && step.state.nextSearchTopic == (if a.Some? then a.value.nextSearchTopic else "")
              && step.state.urlToSearch == (if a.Some? then a.value.urlToSearch else "")
            else
              && step.state.summaries == s.summaries
              && step.state.nextSearchTopic == s.nextSearchTopic
              && step.state.urlToSearch == s.urlToSearch
  {
    var k := s.currentDepth;
    var q := SearchQuery(s);
    if !env.timeUp(k) {
      var t := s.(currentDepth := k + 1);
      assert Iterate(s, env) == Searched(t, env, k, q, env.search(k, q));
      match env.search(k, q)
      case SearchFailed =>
      case SearchThrew =>
      case SearchOk(urls) =>
        var added := NewFindings(t, env, k, urls);
        var u := t.(findings := t.findings + added);
        var analysis := AnalysisOf(env, k, s.topic, u.findings);
        assert Iterate(s, env) == Analyse(u, q, added, analysis);
        AnalyseFacts(u, q, added, analysis);
    }
  }

  /** After an analysis the loop goes on exactly when the analysis asks to continue
      and names at least one gap; it then continues with the first gap as the topic
      (the old topic when that gap is ""), and the next query is the analysis'
      `nextSearchTopic` or else that topic. Asking to continue without a gaps list
      throws. */
  lemma IterateReplan(s: State, env: Env)
    requires !env.timeUp(s.currentDepth)
    ensures var step := Iterate(s, env);
            step.event.Some? && step.event.value.Analysed? && step.event.value.analysis.Some? ==>
              var a := step.event.value.analysis.value;
              && (step.stop.None? <==> a.shouldContinue && a.gaps.Some? && a.gaps.value != [])
              && (a.shouldContinue && a.gaps.None? ==> step.stop == Some(Threw))
              && (step.stop.None? ==>
                    && step.state.topic == (if a.gaps.value[0] != "" then a.gaps.value[0] else s.topic)
                    && SearchQuery(step.state) == (if a.nextSearchTopic != "" then a.nextSearchTopic else step.state.topic))
  {
    var k := s.currentDepth;
    var q := SearchQuery(s);
    if !env.timeUp(k) {
      var t := s.(currentDepth := k + 1);
      assert Iterate(s, env) == Searched(t, env, k, q, env.search(k, q));
      match env.search(k, q)
      case SearchFailed =>
      case SearchThrew =>
      case SearchOk(urls) =>
        var added := NewFindings(t, env, k, urls);
        var u := t.(findings := t.findings + added);
        var analysis := AnalysisOf(env, k, s.topic, u.findings);
        assert Iterate(s, env) == Analyse(u, q, added, analysis);
        AnalyseFacts(u, q, added, analysis);
    }
  }

  /** The extra URL is extracted from first, but a URL that `new URL` rejects adds
      nothing; in the first iteration it is always "", so only the search results count. */
  lemma RejectedExtraUrl(s: State, env: Env, k: nat, urls: seq<string>)
    requires !UrlAccepted(env.urlParses, s.urlToSearch)
    ensures NewFindings(s, env, k, urls) == ExtractFromUrls(TopUrls(urls), Extractor(env, k, s.topic), env.urlParses)
  {
    RejectedUrlAddsNothing(s.urlToSearch, TopUrls(urls), Extractor(env, k, s.topic), env.urlParses);
  }

  /** The first iteration starts from the fresh record, whose extra URL is "":
      its findings come from the top search results alone. */
  lemma FirstIterationFindings(topic: string, env: Env, urls: seq<string>)
    ensures NewFindings(Initial(topic), env, 0, urls) == ExtractFromUrls(TopUrls(urls), Extractor(env, 0, topic), env.urlParses)
  {
    RejectedExtraUrl(Initial(topic), env, 0, urls);
  }

  /** A reply fenced as a JSON code block is parsed from its trimmed body, and an
      empty body gives no analysis. */
  lemma AnalyzeFencedReply(tag: string, w: string, body: string, parse: string -> Option<Analysis>)
    requires |tag| == 4 && ResponseCleanup.StartsWithJsonTag(tag)
    requires ResponseCleanup.AllWhitespace(w)
    requires ResponseCleanup.Backtick !in tag + w + body
    ensures var trimmed := ResponseCleanup.Trim(body);
            AnalyzeAndPlan(Some(ResponseCleanup.Fence + tag + w + body + ResponseCleanup.Fence), parse)
              == if trimmed == "" then None else parse(trimmed)
  {
    ResponseCleanup.CleanFenced(tag, w, body);
  }

  /** Only an analysis can change the topic. */
  lemma IterateTopic(s: State, env: Env)
    ensures var step := Iterate(s, env);
            step.state.topic != s.topic ==> step.stop.None? && step.event.Some? && step.event.value.Analysed?
  {
    var k := s.currentDepth;
    var q := SearchQuery(s);
    if !env.timeUp(k) {
      var t := s.(currentDepth := k + 1);
      assert Iterate(s, env) == Searched(t, env, k, q, env.search(k, q));
      match env.search(k, q)
      case SearchFailed =>
      case SearchThrew =>
      case SearchOk(urls) =>
        var added := NewFindings(t, env, k, urls);
        var u := t.(findings := t.findings + added);
        var analysis := AnalysisOf(env, k, s.topic, u.findings);
        assert Iterate(s, env) == Analyse(u, q, added, analysis);
        AnalyseFacts(u, q, added, analysis);
    }
  }

  // ---------------------------------------------------------------------------
  // The whole loop
  //
  // Each property P of `Run` is proved together with the same property of `After`:
  // `RunP` gets the one-pass fact from the lemma about `Iterate` and hands it to
  // `AfterP`, which goes on by induction on the remaining depth.

  /** The events of one pass: none when the time check stopped it, one otherwise. */
  function Events(step: Step): seq<Event> {
    if step.event.Some? then [step.event.value] else []
  }

  /** `currentDepth` counts the started iterations, one event each; the loop never
      takes it past `maxDepth`, and ends on the depth guard only at `maxDepth`. */
  lemma {:induction false} RunDepth(s: State, maxDepth: int, env: Env)
    ensures var o := Run(s, maxDepth, env);
            && o.state.currentDepth == s.currentDepth + |o.events|
            && (s.currentDepth >= maxDepth ==> o.events == [] && o.state == s && o.exit == DepthReached)
            && (s.currentDepth < maxDepth ==> o.state.currentDepth <= maxDepth)
            && (o.exit == DepthReached ==> o.state.currentDepth >= maxDepth)
    decreases maxDepth - s.currentDepth, 2
  {
    if s.currentDepth < maxDepth {
      IterateTimeCheck(s, env);
      AfterDepth(s, Iterate(s, env), maxDepth, env);
    }
  }

  lemma {:induction false} AfterDepth(s: State, step: Step, maxDepth: int, env: Env)
    requires s.currentDepth < maxDepth
    requires step.stop.None? ==> step.event.Some? && step.state.currentDepth == s.currentDepth + 1
    requires step.state.currentDepth == s.currentDepth + |Events(step)|
    requires step.stop != Some(DepthReached)
    ensures var o := After(step, s.currentDepth, maxDepth, env);
            && o.state.currentDepth == s.currentDepth + |o.events|
            && o.state.currentDepth <= maxDepth
            && (o.exit == DepthReached ==> o.state.currentDepth >= maxDepth)
    decreases maxDepth - s.currentDepth, 0
  {
    if step.stop.None? {
      RunDepth(step.state, maxDepth, env);
    }
  }

  /** A run records one event per started iteration, so at most as many as the
      depth left: none once `currentDepth` has reached `maxDepth`. */
  lemma RunEventsBound(s: State, maxDepth: int, env: Env)
    ensures |Run(s, maxDepth, env).events| <= if s.currentDepth < maxDepth then maxDepth - s.currentDepth else 0
  {
    RunDepth(s, maxDepth, env);
  }

  /** Every started iteration found time left at its check. */
  lemma {:induction false} RunTimeLeft(s: State, maxDepth: int, env: Env)
    ensures var o := Run(s, maxDepth, env);
            forall k :: s.currentDepth <= k < o.state.currentDepth ==> !env.timeUp(k)
    decreases maxDepth - s.currentDepth, 2
  {
    if s.currentDepth < maxDepth {
      IterateTimeCheck(s, env);
      AfterTimeLeft(s, Iterate(s, env), maxDepth, env);
    }
  }

  lemma {:induction false} AfterTimeLeft(s: State, step: Step, maxDepth: int, env: Env)
    requires s.currentDepth < maxDepth
    requires step.stop.None? ==> step.event.Some? && step.state.currentDepth == s.currentDepth + 1
    requires s.currentDepth <= step.state.currentDepth
    requires forall k :: s.currentDepth <= k < step.state.currentDepth ==> !env.timeUp(k)
    ensures var o := After(step, s.currentDepth, maxDepth, env);
            forall k :: s.currentDepth <= k < o.state.currentDepth ==> !env.timeUp(k)
    decreases maxDepth - s.currentDepth, 0
  {
    if step.stop.None? {
      RunTimeLeft(step.state, maxDepth, env);
    }
  }

  /** The loop ends on the time check only when the time is up at the depth it reached. */
  lemma {:induction false} RunTimeUp(s: State, maxDepth: int, env: Env)
    ensures var o := Run(s, maxDepth, env);
            o.exit == TimeUp ==> env.timeUp(o.state.currentDepth)
    decreases maxDepth - s.currentDepth, 2
  {
    if s.currentDepth < maxDepth {
      IterateTimeCheck(s, env);
      AfterTimeUp(s, Iterate(s, env), maxDepth, env);
    }
  }

  lemma {:induction false} AfterTimeUp(s: State, step: Step, maxDepth: int, env: Env)
    requires s.currentDepth < maxDepth
    requires step.stop.None? ==> step.event.Some? && step.state.currentDepth == s.currentDepth + 1
    requires step.stop == Some(TimeUp) ==> env.timeUp(step.state.currentDepth)
    ensures var o := After(step, s.currentDepth, maxDepth, env);
            o.exit == TimeUp ==> env.timeUp(o.state.currentDepth)
    decreases maxDepth - s.currentDepth, 0
  {
    if step.stop.None? {
      RunTimeUp(step.state, maxDepth, env);
    }
  }

  /** The failure counter goes up by one per failure, never passes the threshold,
      and reaches it exactly when the loop ends because of it. */
  lemma {:induction false} RunFailures(s: State, maxDepth: int, env: Env)
    requires s.failedAttempts < MaxFailedAttempts
    ensures var o := Run(s, maxDepth, env);
            && o.state.failedAttempts == s.failedAttempts + FailureCount(o.events)
            && o.state.failedAttempts <= MaxFailedAttempts
            && (o.exit == TooManyFailures <==> o.state.failedAttempts == MaxFailedAttempts)
    decreases maxDepth - s.currentDepth, 2
  {
    if s.currentDepth < maxDepth {
      var step := Iterate(s, env);
      IterateFailures(s, env);
      if step.event.Some? {
        assert Events(step)[1..] == [];
      }
      AfterFailures(s, step, maxDepth, env);
    }
  }

  lemma {:induction false} AfterFailures(s: State, step: Step, maxDepth: int, env: Env)
    requires s.currentDepth < maxDepth
    requires step.stop.None? ==> step.event.Some? && step.state.currentDepth == s.currentDepth + 1
    requires step.state.failedAttempts == s.failedAttempts + FailureCount(Events(step))
    requires step.state.failedAttempts <= MaxFailedAttempts
    requires step.stop == Some(TooManyFailures) <==> step.state.failedAttempts == MaxFailedAttempts
    requires step.stop.None? ==> step.state.failedAttempts < MaxFailedAttempts
    ensures var o := After(step, s.currentDepth, maxDepth, env);
            && o.state.failedAttempts == s.failedAttempts + FailureCount(o.events)
            && o.state.failedAttempts <= MaxFailedAttempts
            && (o.exit == TooManyFailures <==> o.state.failedAttempts == MaxFailedAttempts)
    decreases maxDepth - s.currentDepth, 0
  {
    if step.stop.None? {
      var e := step.event.value;
      RunFailures(step.state, maxDepth, env);
      var rest := Run(step.state, maxDepth, env);
      assert ([e] + rest.events)[1..] == rest.events;
      assert [e][1..] == [];
    }
  }

  /** The findings are append-only: the loop leaves the findings it started with,
      followed by what each analysed iteration added, in iteration order. */
  lemma {:induction false} RunFindings(s: State, maxDepth: int, env: Env)
    ensures var o := Run(s, maxDepth, env);
            o.state.findings == s.findings + AddedFindings(o.events)
    decreases maxDepth - s.currentDepth, 2
  {
    if s.currentDepth < maxDepth {
      var step := Iterate(s, env);
      IterateFindings(s, env);
      if step.event.Some? {
        assert Events(step)[1..] == [];
      }
      AfterFindings(s, step, maxDepth, env);
    }
  }

  lemma {:induction false} AfterFindings(s: State, step: Step, maxDepth: int, env: Env)
    requires s.currentDepth < maxDepth
    requires step.stop.None? ==> step.event.Some? && step.state.currentDepth == s.currentDepth + 1
    requires step.state.findings == s.findings + AddedFindings(Events(step))
    ensures var o := After(step, s.currentDepth, maxDepth, env);
            o.state.findings == s.findings + AddedFindings(o.events)
    decreases maxDepth - s.currentDepth, 0
  {
    if step.stop.None? {
      var e := step.event.value;
      RunFindings(step.state, maxDepth, env);
      var rest := Run(step.state, maxDepth, env);
      assert ([e] + rest.events)[1..] == rest.events;
      assert [e][1..] == [];
      assert AddedFindings([e] + rest.events) == AddedFindings([e]) + AddedFindings(rest.events);
    }
  }

  /** With no extraction ever succeeding, no iteration adds a finding: the loop ends
      with the findings it started with. */
  lemma {:induction false} RunWithoutExtraction(s: State, maxDepth: int, env: Env)
    requires forall k, t, url :: env.extract(k, t, url) == ExtractFailed
    ensures Run(s, maxDepth, env).state.findings == s.findings
    decreases maxDepth - s.currentDepth, 2
  {
    if s.currentDepth < maxDepth {
      var step := Iterate(s, env);
      IterateFindings(s, env);
      IterateTimeCheck(s, env);
      if step.event.Some? && step.event.value.Analysed? {
        var k := s.currentDepth;
        var urls := env.search(k, SearchQuery(s)).urls;
        NothingExtracted([s.urlToSearch] + TopUrls(urls), Extractor(env, k, s.topic), env.urlParses);
      }
      AfterWithoutExtraction(s, step, maxDepth, env);
    }
  }

  lemma {:induction false} AfterWithoutExtraction(s: State, step: Step, maxDepth: int, env: Env)
    requires forall k, t, url :: env.extract(k, t, url) == ExtractFailed
    requires s.currentDepth < maxDepth
    requires step.stop.None? ==> step.event.Some? && step.state.currentDepth == s.currentDepth + 1
    requires step.state.findings == s.findings
    ensures After(step, s.currentDepth, maxDepth, env).state.findings == s.findings
    decreases maxDepth - s.currentDepth, 0
  {
    if step.stop.None? {
      RunWithoutExtraction(step.state, maxDepth, env);
    }
  }

  /** The as-written extraction under a runtime without a global `prompt` gives what
      a failing extraction service gives, for every URL; a whole run under it ends
      with no findings, so the synthesis prompt has an empty findings block. */
  lemma UnboundPromptRunHasNoFindings(topic: string, maxDepth: int, env: Env)
    requires forall k, t, url :: env.extract(k, t, url) == ExtractFailed
    ensures forall url, outcome :: ExtractFromUrlAsWritten(url, outcome, env.urlParses, false)
                                   == ExtractFromUrl(url, ExtractFailed, env.urlParses)
    ensures Run(Initial(topic), maxDepth, env).state.findings == []
    ensures var c := Finish(Run(Initial(topic), maxDepth, env));
            c.Synthesize? ==> c.request.findings == ""
  {
    RunWithoutExtraction(Initial(topic), maxDepth, env);
  }

  /** The summaries are append-only too, with exactly one new summary per iteration
      whose search succeeded. */
  lemma {:induction false} RunSummaries(s: State, maxDepth: int, env: Env)
    ensures var o := Run(s, maxDepth, env);
            && o.state.summaries == s.summaries + RecordedSummaries(o.events)
            && |o.state.summaries| == |s.summaries| + AnalysedCount(o.events)
    decreases maxDepth - s.currentDepth, 2
  {
    if s.currentDepth < maxDepth {
      var step := Iterate(s, env);
      IterateRecord(s, env);
      if step.event.Some? {
        assert Events(step)[1..] == [];
      }
      AfterSummaries(s, step, maxDepth, env);
    }
    RecordedSummariesCount(Run(s, maxDepth, env).events);
  }

  lemma {:induction false} AfterSummaries(s: State, step: Step, maxDepth: int, env: Env)
    requires s.currentDepth < maxDepth
    requires step.stop.None? ==> step.event.Some? && step.state.currentDepth == s.currentDepth + 1
    requires step.state.summaries == s.summaries + RecordedSummaries(Events(step))
    ensures var o := After(step, s.currentDepth, maxDepth, env);
            o.state.summaries == s.summaries + RecordedSummaries(o.events)
    decreases maxDepth - s.currentDepth, 0
  {
    if step.stop.None? {
      var e := step.event.value;
      RunSummaries(step.state, maxDepth, env);
      var rest := Run(step.state, maxDepth, env);
      assert ([e] + rest.events)[1..] == rest.events;
      assert [e][1..] == [];
      assert RecordedSummaries([e] + rest.events) == RecordedSummaries([e]) + RecordedSummaries(rest.events);
    }
  }

  /** The tool call as it is made: the loop from a fresh state starts at most
      `maxDepth` iterations, and at most one with the default depth of 1. */
  lemma ExecuteBounds(topic: string, maxDepth: int, env: Env)
    ensures var o := Run(Initial(topic), maxDepth, env);
            && o.state.currentDepth == |o.events|
            && o.state.currentDepth <= (if maxDepth < 0 then 0 else maxDepth)
            && o.state.failedAttempts <= MaxFailedAttempts
            && |o.state.summaries| == AnalysedCount(o.events)
            && o.state.findings == AddedFindings(o.events)
  {
    RunDepth(Initial(topic), maxDepth, env);
    RunFailures(Initial(topic), maxDepth, env);
    RunSummaries(Initial(topic), maxDepth, env);
    RunFindings(Initial(topic), maxDepth, env);
  }
}
