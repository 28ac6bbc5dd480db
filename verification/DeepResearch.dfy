// Parallel section research: the semaphore, the gather, and the collected sources.
module DeepResearch {
  import opened Wrappers

  type Url = string

  const MAX_CONCURRENT_SECTIONS := 3

  // ----- first-occurrence dedupe -----

  // list(dict.fromkeys(urls))
  function FirstOccurrences(urls: seq<Url>): seq<Url> {
    if urls == [] then []
    else
      var front, last := urls[..|urls| - 1], urls[|urls| - 1];
      if last in front then FirstOccurrences(front) else FirstOccurrences(front) + [last]
  }

  // Where url first occurs.
  function FirstIndex(urls: seq<Url>, url: Url): nat
    requires url in urls
    ensures FirstIndex(urls, url) < |urls| && urls[FirstIndex(urls, url)] == url
    ensures url !in urls[..FirstIndex(urls, url)]
  {
    if urls[0] == url then 0 else 1 + FirstIndex(urls[1..], url)
  }

  lemma IsFirstIndex(urls: seq<Url>, url: Url, i: nat)
    requires i < |urls| && urls[i] == url && url !in urls[..i]
    ensures url in urls && FirstIndex(urls, url) == i
  {
    if i > 0 {
      assert urls[0] == urls[..i][0] && urls[..i][1..] == urls[1..][..i - 1];
      IsFirstIndex(urls[1..], url, i - 1);
    }
  }

  lemma FirstIndexPrefix(front: seq<Url>, last: Url, url: Url)
    requires url in front
    ensures FirstIndex(front + [last], url) == FirstIndex(front, url)
  {
    var i := FirstIndex(front, url);
    assert (front + [last])[..i] == front[..i];
    IsFirstIndex(front + [last], url, i);
  }

  lemma FirstOccurrencesSnoc(urls: seq<Url>, url: Url)
    ensures FirstOccurrences(urls + [url]) ==
            if url in urls then FirstOccurrences(urls) else FirstOccurrences(urls) + [url]
  {
    assert (urls + [url])[..|urls|] == urls;
  }

  // Same URLs, each once, in the order of their first occurrences.
  lemma {:induction false} FirstOccurrencesMeaning(urls: seq<Url>)
    ensures forall u :: u in FirstOccurrences(urls) <==> u in urls
    ensures forall i, j :: 0 <= i < j < |FirstOccurrences(urls)| ==>
              && FirstOccurrences(urls)[i] in urls && FirstOccurrences(urls)[j] in urls
              && FirstIndex(urls, FirstOccurrences(urls)[i]) < FirstIndex(urls, FirstOccurrences(urls)[j])
  {
    if urls != [] {
      var front, last := urls[..|urls| - 1], urls[|urls| - 1];
      FirstOccurrencesMeaning(front);
      assert urls == front + [last];
      forall u | u in front ensures FirstIndex(urls, u) == FirstIndex(front, u) { FirstIndexPrefix(front, last, u); }
      if last !in front { assert FirstIndex(urls, last) == |front|; }
    }
  }

  lemma {:induction false} DistinctCount(urls: seq<Url>)
    ensures |FirstOccurrences(urls)| == |set u | u in urls|
  {
    if urls == [] {
    } else {
      var front, last := urls[..|urls| - 1], urls[|urls| - 1];
      DistinctCount(front);
      assert urls == front + [last];
      FirstOccurrencesMeaning(front);
      assert (set u | u in urls) == (set u | u in front) + {last};
      if last in front { assert (set u | u in urls) == (set u | u in front); }
    }
  }

  // ----- one section -----

  datatype SearchResult = SearchResult(url: Url, content: string)

  function Urls(results: seq<SearchResult>): seq<Url> {
    if results == [] then []
    else
      var rest, last := Urls(results[..|results| - 1]), results[|results| - 1];
      if last.url != "" then rest + [last.url] else rest
  }

  lemma UrlsSnoc(results: seq<SearchResult>, r: SearchResult)
    ensures Urls(results + [r]) == if r.url != "" then Urls(results) + [r.url] else Urls(results)
  {
    assert (results + [r])[..|results|] == results;
  }

  ghost predicate Deduped(all: seq<SearchResult>, unique: seq<SearchResult>) {
    Urls(unique) == FirstOccurrences(Urls(all)) && |unique| == |Urls(unique)|
  }

  lemma DedupeStep(all: seq<SearchResult>, r: SearchResult, unique: seq<SearchResult>)
    requires Deduped(all, unique)
    ensures Deduped(all + [r], if r.url != "" && r.url !in Urls(all) then unique + [r] else unique)
  {
    UrlsSnoc(all, r);
    UrlsSnoc(unique, r);
    FirstOccurrencesSnoc(Urls(all), r.url);
  }

  // Each of these results is the first in all with its URL.
  ghost predicate FirstsOf(all: seq<SearchResult>, results: seq<SearchResult>) {
    forall r <- results :: IsFirst(all, r)
  }

  ghost predicate IsFirst(all: seq<SearchResult>, r: SearchResult) {
    r.url != "" && exists i :: 0 <= i < |all| && all[i] == r && forall j :: 0 <= j < i ==> all[j].url != r.url
  }

  lemma {:induction false} UrlsMembers(results: seq<SearchResult>, r: SearchResult)
    requires r in results && r.url != ""
    ensures r.url in Urls(results)
  {
    var front, last := results[..|results| - 1], results[|results| - 1];
    if r != last { assert results == front + [last]; UrlsMembers(front, r); }
  }

  lemma FirstsStep(all: seq<SearchResult>, r: SearchResult, unique: seq<SearchResult>)
    requires FirstsOf(all, unique)
    ensures FirstsOf(all + [r], unique)
    ensures r.url != "" && r.url !in Urls(all) ==> IsFirst(all + [r], r)
  {
    forall u | u in unique ensures IsFirst(all + [r], u) {
      assert IsFirst(all, u);
      var i :| 0 <= i < |all| && all[i] == u && forall j :: 0 <= j < i ==> all[j].url != u.url;
      assert (all + [r])[i] == u;
    }
    if r.url != "" && r.url !in Urls(all) {
      forall j | 0 <= j < |all| ensures all[j].url != r.url { if all[j].url != "" { UrlsMembers(all, all[j]); } }
      assert (all + [r])[|all|] == r;
    }
  }

  // The dedupe loop of _research_section: results without a URL are dropped, later repeats of a URL too.
  method UniqueResults(all: seq<SearchResult>) returns (unique: seq<SearchResult>)
    ensures Urls(unique) == FirstOccurrences(Urls(all)) && |unique| == |Urls(unique)|
    ensures FirstsOf(all, unique)
  {
    var seen: set<Url> := {};
    unique := [];
    for i := 0 to |all|
      invariant forall u :: u in seen <==> u in Urls(all[..i])
      invariant Deduped(all[..i], unique)
      invariant FirstsOf(all[..i], unique)
    {
      var r := all[i];
      assert all[..i + 1] == all[..i] + [r];
      UrlsSnoc(all[..i], r);
      DedupeStep(all[..i], r, unique);
      FirstsStep(all[..i], r, unique);
      if r.url != "" && r.url !in seen {
        seen := seen + {r.url};
        unique := unique + [r];
      }
    }
    assert all[..|all|] == all;
  }

  datatype SectionResult = SectionResult(title: string, content: string, sources: seq<Url>)
  datatype Outcome = Researched(result: SectionResult) | Failed(error: string)

  // What one reflection round gets from the outside: the verdict, and for a gap what its search answers; or its
  // progress message or the reflection itself raises.
  datatype Reflection = Complete | Gap(query: string, found: Result<seq<SearchResult>, string>) | Raises(error: string)

  // A summary of results, or what the model call or the progress message before it raises.
  type Summarizer = seq<SearchResult> -> Result<string, string>

  // The answers of the searches that did not raise, in query order.
  function Answered(answers: seq<Result<seq<SearchResult>, string>>): seq<SearchResult> {
    if answers == [] then []
    else Answered(answers[..|answers| - 1]) + match answers[|answers| - 1] case Ok(found) => found case Err(_) => []
  }

  // The rounds before the first COMPLETE verdict.
  function Gaps(rounds: seq<Reflection>): seq<Reflection>
    ensures |Gaps(rounds)| <= |rounds| && Gaps(rounds) == rounds[..|Gaps(rounds)|]
    ensures forall i :: 0 <= i < |Gaps(rounds)| ==> !Gaps(rounds)[i].Complete?
    ensures |Gaps(rounds)| < |rounds| ==> rounds[|Gaps(rounds)|].Complete?
  {
    if rounds == [] || rounds[0].Complete? then [] else [rounds[0]] + Gaps(rounds[1..])
  }

  function GapQueries(gaps: seq<Reflection>): seq<string> {
    if gaps == [] then []
    else GapQueries(gaps[..|gaps| - 1]) + match gaps[|gaps| - 1] case Gap(query, _) => [query] case _ => []
  }

  // The URLs found for the gaps, in round order, repeats kept.
  function GapUrls(gaps: seq<Reflection>): seq<Url> {
    if gaps == [] then []
    else GapUrls(gaps[..|gaps| - 1]) + match gaps[|gaps| - 1] case Gap(_, Ok(found)) => Urls(found) case _ => []
  }

  // What the last of these gaps' searches found.
  function LastFound(gaps: seq<Reflection>): seq<SearchResult> {
    if gaps == [] then [] else match gaps[|gaps| - 1] case Gap(_, Ok(found)) => found case _ => []
  }

  // A round in which nothing raises.
  predicate Smooth(results: seq<SearchResult>, g: Reflection, summarize: Summarizer) {
    g.Gap? && g.found.Ok? && summarize(results + g.found.value).Ok?
  }

  predicate AllSmooth(results: seq<SearchResult>, gaps: seq<Reflection>, summarize: Summarizer) {
    forall i :: 0 <= i < |gaps| ==> Smooth(results, gaps[i], summarize)
  }

  function FirstEight<T>(s: seq<T>): seq<T> { if |s| <= 8 then s else s[..8] }

  lemma UrlsOfPrefix(results: seq<SearchResult>, n: nat)
    requires n <= |results| && |Urls(results)| == |results|
    ensures Urls(results[..n]) == Urls(results)[..n]
    decreases |results|
  {
    if n < |results| {
      var front := results[..|results| - 1];
      UrlsAtMost(front);
      UrlsOfPrefix(front, n);
      assert front[..n] == results[..n];
    } else {
      assert results[..n] == results;
    }
  }

  lemma UrlsAtMost(results: seq<SearchResult>)
    ensures |Urls(results)| <= |results|
  {
  }

  // What the section has gathered after the rounds that found these gaps.
  datatype Draft = Draft(summary: string, sources: seq<Url>, searched: seq<string>)

  predicate Drafted(d: Draft, results: seq<SearchResult>, queries: seq<string>, gaps: seq<Reflection>,
                    summarize: Summarizer)
  {
    && AllSmooth(results, gaps, summarize)
    && Ok(d.summary) == summarize(results + LastFound(gaps))
    && d.sources == Urls(results) + GapUrls(gaps)
    && d.searched == queries + GapQueries(gaps)
  }

  lemma NothingDrafted(results: seq<SearchResult>, queries: seq<string>, summarize: Summarizer)
    requires summarize(results).Ok?
    ensures Drafted(Draft(summarize(results).value, Urls(results), queries), results, queries, [], summarize)
  {
    assert results + [] == results;
  }

  lemma GapsSnoc(gaps: seq<Reflection>, g: Reflection)
    requires g.Gap? && g.found.Ok?
    ensures LastFound(gaps + [g]) == g.found.value
    ensures GapQueries(gaps + [g]) == GapQueries(gaps) + [g.query]
    ensures GapUrls(gaps + [g]) == GapUrls(gaps) + Urls(g.found.value)
  {
    assert (gaps + [g])[..|gaps|] == gaps;
  }

  lemma DraftStep(d: Draft, results: seq<SearchResult>, queries: seq<string>, gaps: seq<Reflection>, g: Reflection,
                  summarize: Summarizer)
    requires Smooth(results, g, summarize) && Drafted(d, results, queries, gaps, summarize)
    ensures var found := g.found.value;
            Drafted(Draft(summarize(results + found).value, d.sources + Urls(found), d.searched + [g.query]),
                    results, queries, gaps + [g], summarize)
  {
    GapsSnoc(gaps, g);
    Associative(Urls(results), GapUrls(gaps), Urls(g.found.value));
    Associative(queries, GapQueries(gaps), [g.query]);
  }

  lemma Associative<T>(a: seq<T>, b: seq<T>, c: seq<T>)
    ensures a + b + c == a + (b + c)
  {
  }

  lemma AnsweredSnoc(answers: seq<Result<seq<SearchResult>, string>>, a: Result<seq<SearchResult>, string>)
    ensures Answered(answers + [a]) == Answered(answers) + if a.Ok? then a.value else []
  {
    assert (answers + [a])[..|answers|] == answers;
  }

  // The searches of _research_section: those that raised are skipped, and at most eight distinct results stay.
  method SearchAll(answers: seq<Result<seq<SearchResult>, string>>) returns (results: seq<SearchResult>)
    ensures Urls(results) == FirstEight(FirstOccurrences(Urls(Answered(answers)))) && |results| == |Urls(results)| <= 8
    ensures FirstsOf(Answered(answers), results)
  {
    var all: seq<SearchResult> := [];
    for i := 0 to |answers|
      invariant all == Answered(answers[..i])
    {
      assert answers[..i + 1][..i] == answers[..i];
      match answers[i] {
        case Ok(found) => all := all + found;
        case Err(_) =>
      }
    }
    assert answers[..|answers|] == answers;
    var unique := UniqueResults(all);
    results := FirstEight(unique);
    UrlsOfPrefix(unique, |results|);
  }

  lemma GapsFrom(rounds: seq<Reflection>, n: nat, done: seq<Reflection>)
    requires n < |rounds| && !rounds[n].Complete? && done + Gaps(rounds[n..]) == Gaps(rounds)
    ensures done + [rounds[n]] + Gaps(rounds[n + 1..]) == Gaps(rounds)
    ensures |done| < |Gaps(rounds)| && Gaps(rounds)[|done|] == rounds[n]
  {
    assert rounds[n..][1..] == rounds[n + 1..];
  }

  // One round: reflect, search for the gap, add its URLs, and summarize the first results with its own.
  method Round(draft: Draft, results: seq<SearchResult>, g: Reflection, summarize: Summarizer)
    returns (next: Result<Draft, string>)
    requires !g.Complete?
    ensures next.Ok? <==> Smooth(results, g, summarize)
    ensures next.Ok? ==>
              var found := g.found.value;
              next.value == Draft(summarize(results + found).value, draft.sources + Urls(found), draft.searched + [g.query])
  {
    match g
    case Raises(error) => return Err(error);
    case Gap(query, Err(error)) => return Err(error);
    case Gap(query, Ok(found)) =>
      var summary := summarize(results + found);
      if summary.Err? { return Err(summary.error); }
      return Ok(Draft(summary.value, draft.sources + Urls(found), draft.searched + [query]));
  }

  // The summary and the reflection loop of _research_section: it stops at the first COMPLETE verdict or after the
  // last round; whatever raises fails the section.
  method ReflectOn(title: string, results: seq<SearchResult>, queries: seq<string>, rounds: seq<Reflection>,
                   summarize: Summarizer)
    returns (outcome: Outcome, searched: seq<string>)
    ensures outcome.Researched? <==> summarize(results).Ok? && AllSmooth(results, Gaps(rounds), summarize)
    ensures outcome.Researched? ==>
              var r := outcome.result;
              && r.title == title
              && Drafted(Draft(r.content, r.sources, searched), results, queries, Gaps(rounds), summarize)
  {
    searched := queries;
    var first := summarize(results);
    if first.Err? { return Failed(first.error), searched; }
    var draft := Draft(first.value, Urls(results), queries);
    NothingDrafted(results, queries, summarize);
    var n := 0;
    ghost var done := [];
    assert rounds[0..] == rounds;
    while n < |rounds| && !rounds[n].Complete?
      invariant n <= |rounds| && done + Gaps(rounds[n..]) == Gaps(rounds)
      invariant Drafted(draft, results, queries, done, summarize)
    {
      GapsFrom(rounds, n, done);
      var next := Round(draft, results, rounds[n], summarize);
      if next.Err? {
        assert !Smooth(results, Gaps(rounds)[|done|], summarize);
        return Failed(next.error), searched;
      }
      DraftStep(draft, results, queries, done, rounds[n], summarize);
      done, draft, n := done + [rounds[n]], next.value, n + 1;
    }
    assert Gaps(rounds[n..]) == [] && done + [] == done == Gaps(rounds);
    outcome, searched := Researched(SectionResult(title, draft.summary, draft.sources)), draft.searched;
  }

  // ----- collecting -----

  // What stands in the report for a section that failed.
  function Unresearched(title: string, error: string): SectionResult {
    SectionResult(title, "*Research failed: " + error + "*", [])
  }

  function AllSources(outcomes: seq<Outcome>): seq<Url> {
    if outcomes == [] then []
    else
      var last := outcomes[|outcomes| - 1];
      AllSources(outcomes[..|outcomes| - 1]) + if last.Researched? then last.result.sources else []
  }

  lemma AllSourcesSnoc(outcomes: seq<Outcome>, o: Outcome)
    ensures AllSources(outcomes + [o]) == AllSources(outcomes) + if o.Researched? then o.result.sources else []
  {
    assert (outcomes + [o])[..|outcomes|] == outcomes;
  }

  // Step 2 to 3 of deep_research_async: one entry per section in structure order, failed ones included,
  // and the deduplicated sources of the successes.
  method Collect(titles: seq<string>, outcomes: seq<Outcome>)
    returns (results: seq<SectionResult>, sources: seq<Url>, totalSources: nat)
    requires |titles| == |outcomes|
    ensures |results| == |titles|
    ensures forall i :: 0 <= i < |titles| ==>
              match outcomes[i]
              case Researched(r) => results[i] == r
              case Failed(error) => results[i] == SectionResult(titles[i], "*Research failed: " + error + "*", [])
    ensures sources == FirstOccurrences(AllSources(outcomes))
    ensures totalSources == |set u | u in AllSources(outcomes)|
  {
    results := [];
    var all: seq<Url> := [];
    var i := 0;
    while i < |outcomes|
      invariant i <= |outcomes| && |results| == i
      invariant forall k :: 0 <= k < i ==>
                  match outcomes[k]
                  case Researched(r) => results[k] == r
                  case Failed(error) => results[k] == Unresearched(titles[k], error)
      invariant all == AllSources(outcomes[..i])
    {
      assert outcomes[..i + 1][..i] == outcomes[..i];
      match outcomes[i] {
        case Failed(error) =>
          results := results + [Unresearched(titles[i], error)];
        case Researched(r) =>
          results := results + [r];
          all := all + r.sources;
      }
      i := i + 1;
    }
    assert outcomes[..i] == outcomes;
    sources := FirstOccurrences(all);
    totalSources := |sources|;
    DistinctCount(all);
  }

  // ----- the semaphore -----

  // Where the worker of one section stands; done keeps what gather will report in its place.
  datatype Worker = Announcing | Queued | Inside | Reporting(result: SectionResult) | Done(outcome: Outcome)

  datatype Pool = Pool(permits: int, workers: seq<Worker>)

  datatype Move =
    | Announced
    | Enter
    | Exit(result: SectionResult)
    | Reported
    | Fails(error: string) // any await of the worker raises

  predicate Enabled(p: Pool, i: nat, m: Move) {
    i < |p.workers| && var w := p.workers[i];
    match m
    case Announced => w.Announcing?
    case Enter => w.Queued? && p.permits > 0
    case Exit(_) => w.Inside?
    case Reported => w.Reporting?
    case Fails(_) => w.Announcing? || w.Inside? || w.Reporting?
  }

  function Apply(p: Pool, i: nat, m: Move): Pool
    requires Enabled(p, i, m)
  {
    var w := p.workers[i];
    match m
    case Announced => p.(workers := p.workers[i := Queued])
    case Enter => Pool(p.permits - 1, p.workers[i := Inside])
    case Exit(result) => Pool(p.permits + 1, p.workers[i := Reporting(result)])
    case Reported => if w.Reporting? then p.(workers := p.workers[i := Done(Researched(w.result))]) else p
    case Fails(error) => Pool(if w.Inside? then p.permits + 1 else p.permits, p.workers[i := Done(Failed(error))])
  }

  function InsideCount(ws: seq<Worker>): nat {
    if ws == [] then 0 else InsideCount(ws[..|ws| - 1]) + if ws[|ws| - 1].Inside? then 1 else 0
  }

  // How many moves the workers can still make.
  function Work(ws: seq<Worker>): nat {
    if ws == [] then 0
    else Work(ws[..|ws| - 1]) + match ws[|ws| - 1]
      case Announcing => 4 case Queued => 3 case Inside => 2 case Reporting(_) => 1 case Done(_) => 0
  }

  lemma {:induction false} CountsUpdate(ws: seq<Worker>, i: nat, w: Worker)
    requires i < |ws|
    ensures InsideCount(ws[i := w]) == InsideCount(ws) - (if ws[i].Inside? then 1 else 0) + (if w.Inside? then 1 else 0)
    ensures Work(ws[i := w]) == Work(ws) - Work([ws[i]]) + Work([w])
  {
    assert forall v: Worker :: [v][..0] == [];
    var n := |ws| - 1;
    if i == n {
      assert ws[i := w][..n] == ws[..n];
    } else {
      CountsUpdate(ws[..n], i, w);
      assert ws[i := w][..n] == ws[..n][i := w];
    }
  }

  ghost predicate Inv(p: Pool) {
    p.permits >= 0 && p.permits + InsideCount(p.workers) == MAX_CONCURRENT_SECTIONS
  }

  datatype Run = Run(states: seq<Pool>, steps: seq<(nat, Move)>)

  function Initial(sections: nat): Pool {
    Pool(MAX_CONCURRENT_SECTIONS, seq(sections, _ => Announcing))
  }

  ghost predicate IsRun(sections: nat, r: Run) {
    && |r.states| == |r.steps| + 1
    && r.states[0] == Initial(sections)
    && forall k :: 0 <= k < |r.steps| ==>
         Enabled(r.states[k], r.steps[k].0, r.steps[k].1) && r.states[k + 1] == Apply(r.states[k], r.steps[k].0, r.steps[k].1)
  }

  lemma {:induction false} InitialCounts(sections: nat)
    ensures InsideCount(Initial(sections).workers) == 0 && Work(Initial(sections).workers) == 4 * sections
  {
    if sections > 0 {
      InitialCounts(sections - 1);
      assert Initial(sections).workers[..sections - 1] == Initial(sections - 1).workers;
    }
  }

  // At every moment at most three sections are being researched, and every run, whatever the completion
  // order and whichever sections fail, has at most four steps per section.
  lemma {:induction false} AtMostThreeInside(sections: nat, r: Run, k: nat)
    requires IsRun(sections, r) && k <= |r.steps|
    ensures Inv(r.states[k]) && InsideCount(r.states[k].workers) <= 3
    ensures |r.states[k].workers| == sections
    ensures k + Work(r.states[k].workers) <= 4 * sections
  {
    InitialCounts(sections);
    if k > 0 {
      AtMostThreeInside(sections, r, k - 1);
      var p := r.states[k - 1];
      var (i, m) := r.steps[k - 1];
      CountsUpdate(p.workers, i, Apply(p, i, m).workers[i]);
      assert Apply(p, i, m).workers == p.workers[i := Apply(p, i, m).workers[i]];
    }
  }

  // A queued section starts exactly if fewer than three are being researched.
  lemma EntersExactlyBelowThree(sections: nat, r: Run, k: nat, i: nat)
    requires IsRun(sections, r) && k <= |r.steps| && i < |r.states[k].workers| && r.states[k].workers[i].Queued?
    ensures Enabled(r.states[k], i, Enter) <==> InsideCount(r.states[k].workers) < 3
  {
    AtMostThreeInside(sections, r, k);
  }

  lemma {:induction false} SomeoneInside(ws: seq<Worker>) returns (i: nat)
    requires InsideCount(ws) > 0
    ensures i < |ws| && ws[i].Inside?
  {
    var n := |ws| - 1;
    if ws[n].Inside? { i := n; } else { i := SomeoneInside(ws[..n]); }
  }

  // As long as a worker is not done, some worker can move: nobody waits for a permit in vain.
  lemma NoDeadlock(sections: nat, r: Run, i: nat)
    requires IsRun(sections, r) && i < |r.states[|r.steps|].workers|
    requires !r.states[|r.steps|].workers[i].Done?
    ensures exists j, m :: Enabled(r.states[|r.steps|], j, m)
  {
    var p := r.states[|r.steps|];
    AtMostThreeInside(sections, r, |r.steps|);
    match p.workers[i]
    case Announcing => assert Enabled(p, i, Announced);
    case Inside => assert Enabled(p, i, Exit(SectionResult("", "", [])));
    case Reporting(_) => assert Enabled(p, i, Reported);
    case Queued =>
      if p.permits > 0 { assert Enabled(p, i, Enter); }
      else { var j := SomeoneInside(p.workers); assert Enabled(p, j, Exit(SectionResult("", "", []))); }
  }

  // gather keeps structure order whatever the completion order: place i holds what section i's own research
  // returned, or the error section i's own worker raised.
  lemma {:induction false} OwnOutcome(sections: nat, r: Run, k: nat, i: nat)
    requires IsRun(sections, r) && k <= |r.steps| && i < |r.states[k].workers|
    ensures match r.states[k].workers[i]
            case Done(Researched(result)) => exists n :: 0 <= n < k && r.steps[n] == (i, Exit(result))
            case Reporting(result) => exists n :: 0 <= n < k && r.steps[n] == (i, Exit(result))
            case Done(Failed(error)) => exists n :: 0 <= n < k && r.steps[n] == (i, Fails(error))
            case _ => true
  {
    if k > 0 {
      OwnOutcome(sections, r, k - 1, i);
      assert r.steps[k - 1].0 == i || r.states[k].workers[i] == r.states[k - 1].workers[i];
    }
  }
}
