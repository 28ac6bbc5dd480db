// The agent graph of Team Mode: routing after review, and every run through the revise loop.
module TeamGraph {
  import opened Wrappers

  datatype ExecutionMode = PlanOnly | Execute

  datatype TeamState = TeamState(
    iteration: int,
    maxIterations: int,
    review: Option<string>,
    mode: ExecutionMode,
    version: string,
    conversationId: Option<string>,
    sandboxUrl: Option<string>,
    sandboxApiKey: Option<string>)

  // ----- router -----

  const CRITICAL_KEYWORDS: seq<string> := [
    "critical issue", "major problem", "needs revision", "must fix", "blocking", "security vulnerability",
    "\U{91cd}\U{5927}\U{95ee}\U{9898}", "\U{9700}\U{8981}\U{4fee}\U{6539}", "\U{5fc5}\U{987b}\U{4fee}\U{590d}"]

  function LowerChar(c: char): char {
    if 'A' <= c <= 'Z' then ((c as int) + 32) as char else c
  }

  function Lower(s: string): string {
    seq(|s|, i requires 0 <= i < |s| => LowerChar(s[i]))
  }

  predicate Contains(s: string, word: string) {
    exists i :: 0 <= i <= |s| && word <= s[i..]
  }

  predicate Critical(review: Option<string>) {
    review.Some? && exists k <- CRITICAL_KEYWORDS :: Contains(Lower(review.value), k)
  }

  datatype ReviewDecision = Revise | Complete

  function ShouldContinueAfterReview(s: TeamState): ReviewDecision {
    if s.iteration >= s.maxIterations then Complete
    else if Critical(s.review) then Revise
    else Complete
  }

  // Python truth of an optional string.
  predicate Truthy(s: Option<string>) {
    s.Some? && s.value != ""
  }

  predicate ShouldHandoff(s: TeamState) {
    && s.mode.Execute?
    && Truthy(s.conversationId) && Truthy(s.sandboxUrl)
    && (s.version == "V0" || Truthy(s.sandboxApiKey))
  }

  // ----- graph -----

  datatype Label =
    | DetectAmbiguity | AwaitClarification | RefineRequirements
    | Pm | Architect | Engineer | ArchitectReview | Handoff | End

  function RouteAfterReview(s: TeamState): Label {
    if ShouldContinueAfterReview(s) == Revise then Engineer
    else if ShouldHandoff(s) then Handoff else End
  }

  // The edges; whether to clarify is the ambiguity node's own decision.
  ghost predicate Edge(from: Label, s: TeamState, to: Label) {
    match from
    case DetectAmbiguity => to == AwaitClarification || to == Pm
    case AwaitClarification => to == RefineRequirements
    case RefineRequirements => to == Pm
    case Pm => to == Architect
    case Architect => to == Engineer
    case Engineer => to == ArchitectReview
    case ArchitectReview => to == RouteAfterReview(s)
    case Handoff => to == End
    case End => false
  }

  // A node may rewrite everything but the counters; the review node counts its own entry.
  ghost predicate NodeEffect(at: Label, s: TeamState, s': TeamState) {
    s'.maxIterations == s.maxIterations && s'.iteration == s.iteration + (if at.ArchitectReview? then 1 else 0)
  }

  // labels[k] is entered with states[k].  A session that was recovered, or streamed again after it finished, starts
  // from the counters it had.
  datatype Trace = Trace(labels: seq<Label>, states: seq<TeamState>)

  ghost predicate IsTrace(t: Trace) {
    && |t.labels| == |t.states| > 0
    && (t.labels[0] == DetectAmbiguity || t.labels[0] == Pm)
    && forall k :: 0 <= k < |t.labels| - 1 ==>
         NodeEffect(t.labels[k], t.states[k], t.states[k + 1]) && Edge(t.labels[k], t.states[k + 1], t.labels[k + 1])
  }

  function Count(labels: seq<Label>, l: Label): nat {
    if labels == [] then 0
    else Count(labels[..|labels| - 1], l) + if labels[|labels| - 1] == l then 1 else 0
  }

  // How many reviews can still be entered; the first is, however far the counter has come.
  function ReviewsLeft(s: TeamState): int {
    if s.maxIterations - s.iteration > 1 then s.maxIterations - s.iteration else 1
  }

  // How many more nodes can be entered after this one.
  function Remaining(l: Label, s: TeamState): int {
    match l
    case DetectAmbiguity => 2 * ReviewsLeft(s) + 6
    case AwaitClarification => 2 * ReviewsLeft(s) + 5
    case RefineRequirements => 2 * ReviewsLeft(s) + 4
    case Pm => 2 * ReviewsLeft(s) + 3
    case Architect => 2 * ReviewsLeft(s) + 2
    case Engineer => 2 * ReviewsLeft(s) + 1
    case ArchitectReview => 2 * ReviewsLeft(s)
    case Handoff => 1
    case End => 0
  }

  // What holds on entering the last node of a trace of n + 1 nodes.
  ghost predicate At(t: Trace, n: nat)
    requires n < |t.labels| == |t.states|
  {
    var l, s := t.labels[n], t.states[n];
    var done, limit := s.iteration - t.states[0].iteration, ReviewsLeft(t.states[0]);
    var engineers, reviews := Count(t.labels[..n + 1], Engineer), Count(t.labels[..n + 1], ArchitectReview);
    && s.maxIterations == t.states[0].maxIterations
    && n + Remaining(l, s) <= Remaining(t.labels[0], t.states[0])
    && Count(t.labels[..n + 1], Handoff) == (if l.Handoff? || (l.End? && n > 0 && t.labels[n - 1].Handoff?) then 1 else 0)
    && match l
       case Engineer => engineers == done + 1 && reviews == done < limit
       case ArchitectReview => engineers == reviews == done + 1 <= limit
       case Handoff => engineers == reviews == done && 1 <= done <= limit
       case End => engineers == reviews == done && 1 <= done <= limit
       case _ => engineers == reviews == done == 0
  }

  lemma {:induction false} AtEveryNode(t: Trace, n: nat)
    requires IsTrace(t) && n < |t.labels|
    ensures n > 0 || !t.labels[n].End?
    ensures At(t, n)
  {
    assert t.labels[..n + 1][..n] == t.labels[..n];
    if n == 0 {
      assert forall l :: Count(t.labels[..0], l) == 0;
    } else {
      AtEveryNode(t, n - 1);
      assert NodeEffect(t.labels[n - 1], t.states[n - 1], t.states[n]) && Edge(t.labels[n - 1], t.states[n], t.labels[n]);
      assert t.labels[..n - 1 + 1] == t.labels[..n];
    }
  }

  // No run is longer than twice the reviews left at its start and 6 more steps after its first node.
  lemma EveryRunIsBounded(t: Trace)
    requires IsTrace(t)
    ensures |t.labels| <= 2 * ReviewsLeft(t.states[0]) + 7
  {
    AtEveryNode(t, |t.labels| - 1);
  }

  // A run that has not reached the end can take a step: the edges never get stuck.
  lemma NoRunIsStuck(t: Trace)
    requires IsTrace(t) && !t.labels[|t.labels| - 1].End?
    ensures exists l, s :: IsTrace(Trace(t.labels + [l], t.states + [s]))
  {
    var last, s := t.labels[|t.labels| - 1], t.states[|t.states| - 1];
    var s' := s.(iteration := s.iteration + if last.ArchitectReview? then 1 else 0);
    var l := match last
      case DetectAmbiguity => Pm
      case AwaitClarification => RefineRequirements
      case RefineRequirements => Pm
      case Pm => Architect
      case Architect => Engineer
      case Engineer => ArchitectReview
      case ArchitectReview => RouteAfterReview(s')
      case _ => End;
    assert IsTrace(Trace(t.labels + [l], t.states + [s']));
  }

  // ----- when the loop turns -----

  // c is the letter w of a lower-case word, in capitals or not.
  predicate IsLetter(c: char, w: char) {
    (c == w && !('A' <= w <= 'Z')) || ('a' <= w <= 'z' && c as int + 32 == w as int)
  }

  // The review has this word at position i.
  predicate SaysAt(review: string, word: string, i: int) {
    0 <= i && i + |word| <= |review| && forall x :: 0 <= x < |word| ==> IsLetter(review[i + x], word[x])
  }

  // Some of the nine words is in the review.
  ghost predicate Objects(review: Option<string>) {
    review.Some? && exists k, i :: 0 <= k < |CRITICAL_KEYWORDS| && SaysAt(review.value, CRITICAL_KEYWORDS[k], i)
  }

  lemma LowerPrefix(s: string, i: nat, word: string)
    requires i <= |s|
    ensures word <= Lower(s)[i..] <==> SaysAt(s, word, i)
  {
    var rest := Lower(s)[i..];
    assert forall x :: 0 <= x < |rest| ==> rest[x] == LowerChar(s[i + x]);
    assert forall c, w :: LowerChar(c) == w <==> IsLetter(c, w);
    if SaysAt(s, word, i) {
      forall x | 0 <= x < |word| ensures rest[x] == word[x] { assert IsLetter(s[i + x], word[x]); }
      assert rest[..|word|] == word;
    }
    if word <= rest {
      forall x | 0 <= x < |word| ensures IsLetter(s[i + x], word[x]) { assert word[x] == rest[x]; }
    }
  }

  lemma ContainsMeaning(s: string, word: string)
    ensures Contains(Lower(s), word) <==> exists i :: SaysAt(s, word, i)
  {
    forall i: nat | i <= |s| ensures word <= Lower(s)[i..] <==> SaysAt(s, word, i) { LowerPrefix(s, i, word); }
    if i :| SaysAt(s, word, i) { assert word <= Lower(s)[i..]; }
    if i :| 0 <= i <= |Lower(s)| && word <= Lower(s)[i..] { assert SaysAt(s, word, i); }
  }

  lemma CriticalMeansObjects(review: Option<string>)
    ensures Critical(review) <==> Objects(review)
  {
    if review.Some? {
      forall k | 0 <= k < |CRITICAL_KEYWORDS|
        ensures Contains(Lower(review.value), CRITICAL_KEYWORDS[k]) <==> exists i :: SaysAt(review.value, CRITICAL_KEYWORDS[k], i)
      {
        ContainsMeaning(review.value, CRITICAL_KEYWORDS[k]);
      }
      if Critical(review) {
        var w :| w in CRITICAL_KEYWORDS && Contains(Lower(review.value), w);
        var k :| 0 <= k < |CRITICAL_KEYWORDS| && CRITICAL_KEYWORDS[k] == w;
      }
      if Objects(review) {
        var k, i :| 0 <= k < |CRITICAL_KEYWORDS| && SaysAt(review.value, CRITICAL_KEYWORDS[k], i);
        assert CRITICAL_KEYWORDS[k] in CRITICAL_KEYWORDS;
      }
    }
  }

  // The state that leaves the review sends the engineer back.
  ghost predicate Revised(s: TeamState) {
    s.iteration < s.maxIterations && Objects(s.review)
  }

  // The fields that a handoff needs: execution mode, a conversation, its sandbox, and a key unless the version is V0.
  predicate HandsOff(s: TeamState) {
    && s.mode == Execute
    && s.conversationId.Some? && |s.conversationId.value| > 0
    && s.sandboxUrl.Some? && |s.sandboxUrl.value| > 0
    && (s.version != "V0" ==> s.sandboxApiKey.Some? && |s.sandboxApiKey.value| > 0)
  }

  // Along every run a review is followed by the engineer exactly if it has one of the nine words and iterations are
  // left; otherwise by the handoff exactly if its fields are there, and by the end if not.
  lemma AfterReview(t: Trace, k: nat)
    requires IsTrace(t) && k + 1 < |t.labels| && t.labels[k].ArchitectReview?
    ensures t.labels[k + 1] == if Revised(t.states[k + 1]) then Engineer else if HandsOff(t.states[k + 1]) then Handoff else End
  {
    CriticalMeansObjects(t.states[k + 1].review);
    assert Edge(t.labels[k], t.states[k + 1], t.labels[k + 1]);
  }

  // How many of the first n nodes are reviews that sent the engineer back.
  ghost function Revisions(t: Trace, n: nat): nat
    requires |t.labels| == |t.states| && n < |t.labels|
  {
    if n == 0 then 0
    else Revisions(t, n - 1) + if t.labels[n - 1].ArchitectReview? && Revised(t.states[n]) then 1 else 0
  }

  lemma {:induction false} EngineerPerRevision(t: Trace, n: nat)
    requires IsTrace(t) && n < |t.labels|
    ensures Count(t.labels[..n + 1], Engineer) ==
            Revisions(t, n) + match t.labels[n]
                              case DetectAmbiguity => 0 case AwaitClarification => 0 case RefineRequirements => 0
                              case Pm => 0 case Architect => 0 case _ => 1
  {
    assert t.labels[..n + 1][..n] == t.labels[..n];
    if n == 0 {
      assert Count(t.labels[..0], Engineer) == 0;
    } else {
      EngineerPerRevision(t, n - 1);
      assert t.labels[..n - 1 + 1] == t.labels[..n];
      assert Edge(t.labels[n - 1], t.states[n], t.labels[n]);
      if t.labels[n - 1].ArchitectReview? { AfterReview(t, n - 1); }
    }
  }

  // ----- the shape of a run -----

  function Rounds(r: nat): seq<Label> {
    if r == 0 then [] else Rounds(r - 1) + [Engineer, ArchitectReview]
  }

  // The nodes before the first engineer: with or without the ambiguity node, and with or without clarification.
  const INTRODUCTIONS: seq<seq<Label>> := [
    [Pm, Architect],
    [DetectAmbiguity, Pm, Architect],
    [DetectAmbiguity, AwaitClarification, RefineRequirements, Pm, Architect]]

  // How the labels up to a node look, by the last of them.
  ghost predicate Shaped(labels: seq<Label>, intro: seq<Label>, r: nat)
    requires labels != []
  {
    intro in INTRODUCTIONS &&
    match labels[|labels| - 1]
    case DetectAmbiguity => labels == [DetectAmbiguity]
    case AwaitClarification => labels == [DetectAmbiguity, AwaitClarification]
    case RefineRequirements => labels == [DetectAmbiguity, AwaitClarification, RefineRequirements]
    case Pm => labels + [Architect] == intro
    case Architect => labels == intro
    case Engineer => labels == intro + Rounds(r) + [Engineer]
    case ArchitectReview => r > 0 && labels == intro + Rounds(r)
    case Handoff => r > 0 && labels == intro + Rounds(r) + [Handoff]
    case End => r > 0 && (labels == intro + Rounds(r) + [End] || labels == intro + Rounds(r) + [Handoff, End])
  }

  lemma ShapeStep(labels: seq<Label>, intro: seq<Label>, r: nat, s: TeamState, next: Label)
    returns (intro': seq<Label>, r': nat)
    requires labels != [] && Shaped(labels, intro, r) && Edge(labels[|labels| - 1], s, next)
    ensures Shaped(labels + [next], intro', r')
  {
    intro', r' := intro, r;
    match labels[|labels| - 1] {
      case DetectAmbiguity => if next == Pm { intro' := INTRODUCTIONS[1]; }
      case AwaitClarification =>
      case RefineRequirements => intro' := INTRODUCTIONS[2];
      case Pm =>
      case Architect =>
        r' := 0;
        assert intro + Rounds(0) + [Engineer] == labels + [next];
      case Engineer =>
        r' := r + 1;
        assert intro + (Rounds(r) + [Engineer, ArchitectReview]) == labels + [next];
      case ArchitectReview =>
      case Handoff => assert intro + Rounds(r) + [Handoff, End] == labels + [next];
      case End =>
    }
  }

  lemma {:induction false} ShapeUpTo(t: Trace, n: nat) returns (intro: seq<Label>, r: nat)
    requires IsTrace(t) && n < |t.labels|
    ensures Shaped(t.labels[..n + 1], intro, r)
  {
    if n == 0 {
      intro, r := INTRODUCTIONS[0], 0;
    } else {
      intro, r := ShapeUpTo(t, n - 1);
      assert t.labels[..n - 1 + 1] == t.labels[..n] && t.labels[..n + 1] == t.labels[..n] + [t.labels[n]];
      intro, r := ShapeStep(t.labels[..n], intro, r, t.states[n], t.labels[n]);
    }
  }

  lemma {:induction false} CountConcat(a: seq<Label>, b: seq<Label>, l: Label)
    ensures Count(a + b, l) == Count(a, l) + Count(b, l)
  {
    if b == [] {
      assert a + b == a;
    } else {
      assert (a + b)[..|a + b| - 1] == a + b[..|b| - 1];
      CountConcat(a, b[..|b| - 1], l);
    }
  }

  lemma {:induction false} RoundsCount(r: nat)
    ensures Count(Rounds(r), Engineer) == r
  {
    if r > 0 {
      RoundsCount(r - 1);
      CountConcat(Rounds(r - 1), [Engineer, ArchitectReview], Engineer);
      assert [Engineer, ArchitectReview][..1] == [Engineer] && [Engineer][..0] == [];
    }
  }

  lemma IntroductionCount(intro: seq<Label>, tail: seq<Label>)
    requires intro in INTRODUCTIONS && (tail == [End] || tail == [Handoff, End])
    ensures Count(intro, Engineer) == 0 && Count(tail, Engineer) == 0
  {
    NoneCounted(intro, Engineer);
    NoneCounted(tail, Engineer);
  }

  lemma {:induction false} NoneCounted(labels: seq<Label>, l: Label)
    requires l !in labels
    ensures Count(labels, l) == 0
  {
    if labels != [] { NoneCounted(labels[..|labels| - 1], l); }
  }

  lemma BodyCount(intro: seq<Label>, r: nat, tail: seq<Label>)
    requires intro in INTRODUCTIONS && (tail == [End] || tail == [Handoff, End])
    ensures Count(intro + Rounds(r) + tail, Engineer) == r
  {
    IntroductionCount(intro, tail);
    RoundsCount(r);
    CountConcat(intro, Rounds(r), Engineer);
    CountConcat(intro + Rounds(r), tail, Engineer);
  }

  lemma FinishedShape(t: Trace) returns (intro: seq<Label>, r: nat, tail: seq<Label>)
    requires IsTrace(t) && t.labels[|t.labels| - 1].End?
    ensures intro in INTRODUCTIONS && r > 0 && (tail == [End] || tail == [Handoff, End])
    ensures t.labels == intro + Rounds(r) + tail
  {
    var n := |t.labels| - 1;
    assert t.labels[..n + 1] == t.labels;
    intro, r := ShapeUpTo(t, n);
    tail := if t.labels == intro + Rounds(r) + [End] then [End] else [Handoff, End];
  }

  lemma FinishedCount(t: Trace)
    requires IsTrace(t) && t.labels[|t.labels| - 1].End?
    ensures Count(t.labels, Engineer) == Revisions(t, |t.labels| - 1) + 1 <= ReviewsLeft(t.states[0])
  {
    var n := |t.labels| - 1;
    assert t.labels[..n + 1] == t.labels;
    AtEveryNode(t, n);
    EngineerPerRevision(t, n);
  }

  lemma RoundsEnd(r: nat)
    requires r > 0
    ensures |Rounds(r)| > 0 && Rounds(r)[|Rounds(r)| - 1] == ArchitectReview
  {
  }

  // A finished run is an introduction, then as many rounds of engineer and review as there were revisions and one
  // more, and then the end, with a handoff before it exactly if the state that left the last review has its fields.
  lemma FinishedRun(t: Trace) returns (intro: seq<Label>, r: nat)
    requires IsTrace(t) && t.labels[|t.labels| - 1].End?
    ensures intro in INTRODUCTIONS
    ensures r == Revisions(t, |t.labels| - 1) + 1 && r <= ReviewsLeft(t.states[0])
    ensures |t.labels| >= |intro| + |Rounds(r)| + 1
    ensures var last := t.states[|intro| + |Rounds(r)|];
            && !Revised(last)
            && t.labels == intro + Rounds(r) + if HandsOff(last) then [Handoff, End] else [End]
  {
    var tail;
    intro, r, tail := FinishedShape(t);
    var k := |intro| + |Rounds(r)|;
    BodyCount(intro, r, tail);
    FinishedCount(t);
    RoundsEnd(r);
    assert t.labels[k - 1] == ArchitectReview && t.labels[k] == tail[0];
    AfterReview(t, k - 1);
  }

  // Both ways through the ambiguity node are open, whatever the state.
  lemma EitherWayThroughAmbiguity(s: TeamState)
    ensures IsTrace(Trace([DetectAmbiguity, Pm], [s, s]))
    ensures IsTrace(Trace([DetectAmbiguity, AwaitClarification, RefineRequirements, Pm], [s, s, s, s]))
    ensures IsTrace(Trace([Pm], [s]))
  {
  }
}
