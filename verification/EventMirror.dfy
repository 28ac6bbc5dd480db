// Copying the events of a nested runtime into the local file store, poll by poll.
module EventMirror {
  import opened Wrappers
  import opened Decimal

  datatype Event = Event(id: nat, timestamp: Option<int>, body: string)

  // ----- file names -----

  // The part after the last occurrence of sep.
  function LastField(s: string, sep: char): string {
    if s == [] || s[|s| - 1] == sep then [] else LastField(s[..|s| - 1], sep) + [s[|s| - 1]]
  }

  // The part before the first occurrence of sep.
  function FirstField(s: string, sep: char): string {
    if s == [] || s[0] == sep then [] else [s[0]] + FirstField(s[1..], sep)
  }

  function IdFromFilename(path: string): int {
    match ParseInt(FirstField(LastField(path, '/'), '.'))
    case Some(id) => id
    case None => -1
  }

  function FileName(dir: string, id: nat): string {
    dir + "/" + Digits(id) + ".json"
  }

  lemma {:induction false} LastFieldAfter(dir: string, name: string, sep: char)
    requires sep !in name
    ensures LastField(dir + [sep] + name, sep) == name
  {
    var s := dir + [sep] + name;
    if name != [] {
      assert s[..|s| - 1] == dir + [sep] + name[..|name| - 1];
      LastFieldAfter(dir, name[..|name| - 1], sep);
    }
  }

  lemma {:induction false} FirstFieldBefore(head: string, tail: string, sep: char)
    requires sep !in head
    ensures FirstField(head + [sep] + tail, sep) == head
  {
    var s := head + [sep] + tail;
    if head != [] {
      assert s[1..] == head[1..] + [sep] + tail;
      FirstFieldBefore(head[1..], tail, sep);
    }
  }

  lemma FileNameIsRead(dir: string, id: nat)
    ensures IdFromFilename(FileName(dir, id)) == id
  {
    var d := Digits(id);
    assert forall c <- d :: IsDigit(c);
    assert FileName(dir, id) == dir + ['/'] + (d + ['.'] + "json");
    LastFieldAfter(dir, d + ['.'] + "json", '/');
    FirstFieldBefore(d, "json", '.');
    ParseInvertsDigits(id);
  }

  // Any other file counts as -1, unless its name up to the first dot reads as a number.
  lemma StemIsRead(dir: string, stem: string, extension: string)
    requires '/' !in stem && '.' !in stem && '/' !in extension
    ensures IdFromFilename(dir + "/" + stem + "." + extension) ==
            match ParseInt(stem) case Some(n) => n case None => -1
  {
    var name := stem + ['.'] + extension;
    assert dir + "/" + stem + "." + extension == dir + ['/'] + name;
    LastFieldAfter(dir, name, '/');
    FirstFieldBefore(stem, extension, '.');
  }

  // ----- the mirror -----

  // The event source lists its events by strictly increasing id and only grows at its end.
  ghost predicate Increasing(source: seq<Event>) {
    forall i, j :: 0 <= i < j < |source| ==> source[i].id < source[j].id
  }

  // search_events(start_id=start)
  function Search(source: seq<Event>, start: int): seq<Event> {
    if source == [] then []
    else
      var rest, last := Search(source[..|source| - 1], start), source[|source| - 1];
      if last.id >= start then rest + [last] else rest
  }

  // Writing the events one by one.
  function Written(dir: string, files: map<string, Event>, events: seq<Event>): map<string, Event> {
    if events == [] then files
    else Written(dir, files, events[..|events| - 1])[FileName(dir, events[|events| - 1].id) := events[|events| - 1]]
  }

  function FilesOf(dir: string, events: seq<Event>): map<string, Event> {
    Written(dir, map[], events)
  }

  lemma {:induction false} WrittenOnTop(dir: string, first: seq<Event>, more: seq<Event>)
    ensures FilesOf(dir, first + more) == Written(dir, FilesOf(dir, first), more)
  {
    if more == [] {
      assert first + more == first;
    } else {
      WrittenOnTop(dir, first, more[..|more| - 1]);
      assert (first + more)[..|first + more| - 1] == first + more[..|more| - 1];
    }
  }

  // The events from the start on are a suffix of the source.
  ghost predicate CutAt(source: seq<Event>, start: int, n: nat) {
    n <= |source| && forall k :: 0 <= k < |source| ==> (source[k].id >= start <==> k >= n)
  }

  lemma {:induction false} SearchIsSuffix(source: seq<Event>, start: int, n: nat)
    requires CutAt(source, start, n)
    ensures Search(source, start) == source[n..]
  {
    if source != [] {
      var front, last := source[..|source| - 1], source[|source| - 1];
      if n < |source| {
        SearchIsSuffix(front, start, n);
        assert source[n..] == front[n..] + [last];
      } else {
        SearchIsSuffix(front, start, n - 1);
      }
    }
  }

  lemma {:induction false} FilesOfContents(dir: string, events: seq<Event>)
    ensures forall name :: name in FilesOf(dir, events) <==> exists e <- events :: name == FileName(dir, e.id)
    ensures forall name <- FilesOf(dir, events) ::
              FilesOf(dir, events)[name] in events && name == FileName(dir, FilesOf(dir, events)[name].id)
  {
    if events != [] {
      var front, last := events[..|events| - 1], events[|events| - 1];
      var files := FilesOf(dir, front);
      FilesOfContents(dir, front);
      assert FilesOf(dir, events) == files[FileName(dir, last.id) := last];
      forall e ensures e in events <==> e in front || e == last { assert events == front + [last]; }
      forall name ensures name in FilesOf(dir, events) <==> exists e <- events :: name == FileName(dir, e.id) {
        if name in files {
          var e :| e in front && name == FileName(dir, e.id);
          assert e in events;
        }
      }
      forall name | name in FilesOf(dir, events)
        ensures FilesOf(dir, events)[name] in events && name == FileName(dir, FilesOf(dir, events)[name].id)
      {
        if name != FileName(dir, last.id) { assert files[name] in front; }
      }
    }
  }

  // The first id that the local files do not cover.
  ghost predicate IsStart(files: set<string>, start: int) {
    && (forall name <- files :: IdFromFilename(name) < start)
    && (start == 0 || exists name <- files :: IdFromFilename(name) == start - 1)
    && start >= 0
  }

  // The files are the first n events of the source: no hole, no stranger.
  ghost predicate Mirrors(dir: string, files: map<string, Event>, source: seq<Event>, n: nat) {
    n <= |source| && files == FilesOf(dir, source[..n])
  }

  lemma StartCutsSource(dir: string, source: seq<Event>, n: nat, start: int)
    requires Increasing(source) && n <= |source| && IsStart(FilesOf(dir, source[..n]).Keys, start)
    ensures CutAt(source, start, n)
  {
    var files := FilesOf(dir, source[..n]);
    FilesOfContents(dir, source[..n]);
    forall k | 0 <= k < n ensures source[k].id < start {
      assert source[k] in source[..n];
      FileNameIsRead(dir, source[k].id);
      assert FileName(dir, source[k].id) in files;
    }
    if start > 0 {
      var name :| name in files && IdFromFilename(name) == start - 1;
      var i :| 0 <= i < n && source[i] == files[name];
      FileNameIsRead(dir, source[i].id);
    }
  }

  // Events were handed to process_event in order, each at most once, and only after they were written.
  ghost predicate HandedOnce(processed: seq<Event>, source: seq<Event>, n: nat) {
    n <= |source| && Increasing(processed) && forall e <- processed :: e in source[..n]
  }

  lemma HandedOnceKept(processed: seq<Event>, source: seq<Event>, n: nat, k: nat, m: nat)
    requires Increasing(source) && n <= k <= m <= |source| && HandedOnce(processed, source, n)
    ensures HandedOnce(processed + source[n..k], source, m)
  {
    var more := processed + source[n..k];
    forall i, j | 0 <= i < j < |more| ensures more[i].id < more[j].id {
      if i < |processed| <= j {
        assert processed[i] in source[..n];
        assert more[j] == source[n + j - |processed|];
      }
    }
    forall e | e in more ensures e in source[..m] {
      if e in processed { assert e in source[..n]; }
    }
  }

  lemma CopiedFiles(dir: string, source: seq<Event>, n: nat, j: nat)
    requires n + j <= |source|
    ensures Written(dir, FilesOf(dir, source[..n]), source[n..][..j]) == FilesOf(dir, source[..n + j])
  {
    assert source[n..][..j] == source[n..n + j];
    assert source[..n + j] == source[..n] + source[n..n + j];
    WrittenOnTop(dir, source[..n], source[n..n + j]);
  }

  lemma CopiedOnce(before: seq<Event>, after: seq<Event>, source: seq<Event>, n: nat, j: nat)
    requires Increasing(source) && n + j <= |source| && HandedOnce(before, source, n)
    requires after == before + source[n..][..j] || (j > 0 && after == before + source[n..][..j - 1])
    ensures HandedOnce(after, source, n + j)
    ensures source[n..][..j] == source[n..n + j] && (j > 0 ==> source[n..][..j - 1] == source[n..n + j - 1])
  {
    assert source[n..][..j] == source[n..n + j];
    if j > 0 { assert source[n..][..j - 1] == source[n..n + j - 1]; }
    HandedOnceKept(before, source, n, n + j, n + j);
    if j > 0 { HandedOnceKept(before, source, n, n + j - 1, n + j); }
  }

  // What was established for a source holds for every source that extends it, so polls compose.
  lemma SourceGrows(dir: string, files: map<string, Event>, processed: seq<Event>, source: seq<Event>, source': seq<Event>, n: nat)
    requires source <= source' && Mirrors(dir, files, source, n) && HandedOnce(processed, source, n)
    ensures Mirrors(dir, files, source', n) && HandedOnce(processed, source', n)
  {
    assert source'[..n] == source[..n];
  }

  lemma FileNamesAreIds(dir: string, events: seq<Event>)
    ensures forall name <- FilesOf(dir, events) ::
              IdFromFilename(name) == FilesOf(dir, events)[name].id && FilesOf(dir, events)[name] in events
  {
    FilesOfContents(dir, events);
    forall name | name in FilesOf(dir, events) ensures IdFromFilename(name) == FilesOf(dir, events)[name].id {
      FileNameIsRead(dir, FilesOf(dir, events)[name].id);
    }
  }

  lemma EachHasItsFile(dir: string, source: seq<Event>, e: Event)
    requires Increasing(source) && e in source
    ensures FileName(dir, e.id) in FilesOf(dir, source) && FilesOf(dir, source)[FileName(dir, e.id)] == e
  {
    FilesOfContents(dir, source);
    FileNamesAreIds(dir, source);
    FileNameIsRead(dir, e.id);
    var i :| 0 <= i < |source| && source[i] == e;
    var j :| 0 <= j < |source| && source[j] == FilesOf(dir, source)[FileName(dir, e.id)];
  }

  // The greatest id among the files is at least this one.
  ghost predicate CoversId(files: set<string>, id: nat) {
    exists name <- files :: id <= IdFromFilename(name)
  }

  // The files are exactly the events of the source up to the greatest id they hold.
  lemma NoHoles(dir: string, files: map<string, Event>, source: seq<Event>, n: nat, e: Event)
    requires Increasing(source) && Mirrors(dir, files, source, n) && e in source
    ensures FileName(dir, e.id) in files <==> CoversId(files.Keys, e.id)
    ensures FileName(dir, e.id) in files ==> files[FileName(dir, e.id)] == e
  {
    FileNamesAreIds(dir, source[..n]);
    FilesOfContents(dir, source[..n]);
    FileNameIsRead(dir, e.id);
    if e in source[..n] {
      EachHasItsFile(dir, source[..n], e);
    } else {
      forall name | name in files ensures IdFromFilename(name) < e.id {
        var i :| 0 <= i < n && source[i] == files[name];
        var k :| 0 <= k < |source| && source[k] == e;
        assert k < n ==> source[..n][k] == e;
      }
    }
  }

  // Where a poll is cut short: before event k is written, before it is handed on, while process_event works on
  // it, or when the metadata is to be stored.
  datatype Abort = Never | BeforeWrite(k: nat) | AfterWrite(k: nat) | InProcess(k: nat) | AtStore

  // max(None, timestamp) raises, so a conversation without last_updated_at stops at the first stamped event.
  predicate Stuck(lastUpdated: Option<int>, e: Event) {
    lastUpdated == None && e.timestamp.Some?
  }

  function Later(lastUpdated: Option<int>, e: Event): Option<int> {
    match (lastUpdated, e.timestamp)
    case (Some(t), Some(u)) => Some(if u > t then u else t)
    case _ => lastUpdated
  }

  ghost predicate SomeStuck(lastUpdated: Option<int>, events: seq<Event>) {
    exists e <- events :: Stuck(lastUpdated, e)
  }

  // The running maximum of the timestamps.
  function LatestOf(lastUpdated: Option<int>, events: seq<Event>): Option<int> {
    if events == [] then lastUpdated else Later(LatestOf(lastUpdated, events[..|events| - 1]), events[|events| - 1])
  }

  // What a poll computes for last_updated_at: not before the value it found, nor before any timestamp it copied.
  lemma {:induction false} LatestIsMaximum(lastUpdated: Option<int>, events: seq<Event>)
    ensures LatestOf(lastUpdated, events).Some? <==> lastUpdated.Some?
    ensures LatestOf(lastUpdated, events) == lastUpdated || exists e <- events :: LatestOf(lastUpdated, events) == e.timestamp
    ensures lastUpdated.Some? ==>
              && lastUpdated.value <= LatestOf(lastUpdated, events).value
              && forall e <- events :: e.timestamp.Some? ==> e.timestamp.value <= LatestOf(lastUpdated, events).value
  {
    if events != [] {
      var front, last := events[..|events| - 1], events[|events| - 1];
      LatestIsMaximum(lastUpdated, front);
      forall e | e in events ensures e in front || e == last { assert events == front + [last]; }
    }
  }

  lemma OneMore(dir: string, files: map<string, Event>, lastUpdated: Option<int>, events: seq<Event>, j: nat)
    requires j < |events|
    ensures Written(dir, files, events[..j + 1]) == Written(dir, files, events[..j])[FileName(dir, events[j].id) := events[j]]
    ensures events[..j + 1] == events[..j] + [events[j]]
    ensures LatestOf(lastUpdated, events[..j + 1]) == Later(LatestOf(lastUpdated, events[..j]), events[j])
    ensures SomeStuck(lastUpdated, events[..j + 1]) <==> SomeStuck(lastUpdated, events[..j]) || Stuck(lastUpdated, events[j])
    ensures Stuck(LatestOf(lastUpdated, events[..j]), events[j]) <==> Stuck(lastUpdated, events[j])
    ensures Stuck(lastUpdated, events[j]) ==> SomeStuck(lastUpdated, events)
  {
    var longer := events[..j + 1];
    assert longer[..|longer| - 1] == events[..j];
    LatestIsMaximum(lastUpdated, events[..j]);
    if SomeStuck(lastUpdated, events[..j]) {
      var e :| e in events[..j] && Stuck(lastUpdated, e);
      assert e in longer;
    }
    assert events[j] in longer && events[j] in events;
  }

  // ----- one poll, and any number of them -----

  // The local files, the calls of process_event so far, and conversation_metadata.last_updated_at.
  datatype Mirror = Mirror(files: map<string, Event>, processed: seq<Event>, lastUpdated: Option<int>)

  // The first n events of the source are mirrored, and were handed on at most once.
  ghost predicate Ready(dir: string, source: seq<Event>, n: nat, m: Mirror) {
    Increasing(source) && Mirrors(dir, m.files, source, n) && HandedOnce(m.processed, source, n)
  }

  // What a poll that reaches its end at the time now makes of a mirror of n events: m events are mirrored, it was
  // cut short from outside or not, and it completed or not.
  ghost predicate PollStep(dir: string, source: seq<Event>, n: nat, before: Mirror, after: Mirror, m: nat, now: int,
                           cut: bool, completed: bool)
  {
    && n <= m <= |source| && Mirrors(dir, after.files, source, m) && HandedOnce(after.processed, source, m)
    // every new event, or every one but the last of an aborted poll, was handed to process_event in order
    && (after.processed == before.processed + source[n..m] ||
        (!completed && n < m && after.processed == before.processed + source[n..m - 1]))
    && (completed ==> m == |source|)
    // the stored time is the poll's own, not the maximum it computed
    && after.lastUpdated == (if completed then Some(now) else before.lastUpdated)
    // a poll that nobody cuts short completes, or stops right before the first event that it cannot stamp
    && (completed <==> !cut && !SomeStuck(before.lastUpdated, source[n..]))
    && (!cut && !completed ==> m < |source| && Stuck(before.lastUpdated, source[m]))
    && (forall k :: n <= k < m ==> !Stuck(before.lastUpdated, source[k]))
  }

  // A history of polls: the k-th finds states[k], with counts[k] events, reads sources[k] and ends at times[k].
  datatype Polls = Polls(
    states: seq<Mirror>,
    counts: seq<nat>,
    sources: seq<seq<Event>>,
    times: seq<int>,
    cut: seq<bool>,
    completed: seq<bool>)

  ghost predicate StepOf(dir: string, p: Polls, k: nat)
    requires k < |p.sources| == |p.times| == |p.cut| == |p.completed| && |p.states| == |p.counts| == |p.sources| + 1
  {
    PollStep(dir, p.sources[k], p.counts[k], p.states[k], p.states[k + 1], p.counts[k + 1], p.times[k], p.cut[k], p.completed[k])
  }

  // The source only grows; each poll does what it promises when it finds a proper mirror.
  ghost predicate IsHistory(dir: string, p: Polls) {
    && |p.states| == |p.counts| == |p.sources| + 1 && |p.sources| == |p.times| == |p.cut| == |p.completed|
    && (forall k :: 0 <= k < |p.sources| ==> Increasing(p.sources[k]))
    && (forall j, k :: 0 <= j <= k < |p.sources| ==> p.sources[j] <= p.sources[k])
    && (p.sources != [] ==> Ready(dir, p.sources[0], p.counts[0], p.states[0]))
    && forall k: nat :: k < |p.sources| && Ready(dir, p.sources[k], p.counts[k], p.states[k]) ==> StepOf(dir, p, k)
  }

  lemma PollLeavesMirror(dir: string, p: Polls, k: nat)
    requires IsHistory(dir, p) && k < |p.sources|
    ensures Ready(dir, p.sources[k], p.counts[k], p.states[k]) ==>
              && StepOf(dir, p, k) && p.counts[k] <= p.counts[k + 1]
              && (k + 1 < |p.sources| ==> Ready(dir, p.sources[k + 1], p.counts[k + 1], p.states[k + 1]))
  {
    if k + 1 < |p.sources| && Ready(dir, p.sources[k], p.counts[k], p.states[k]) {
      SourceGrows(dir, p.states[k + 1].files, p.states[k + 1].processed, p.sources[k], p.sources[k + 1], p.counts[k + 1]);
    }
  }

  // Across any number of polls, each aborted anywhere or not: every poll finds and leaves a mirror without holes
  // whose events were each handed on at most once, and the mirror never shrinks.
  lemma {:induction false} EveryPollFindsAMirror(dir: string, p: Polls, k: nat)
    requires IsHistory(dir, p) && k < |p.sources|
    ensures Ready(dir, p.sources[k], p.counts[k], p.states[k])
    ensures StepOf(dir, p, k)
    ensures p.counts[0] <= p.counts[k] <= p.counts[k + 1]
  {
    if k > 0 {
      EveryPollFindsAMirror(dir, p, k - 1);
      PollLeavesMirror(dir, p, k - 1);
    }
    PollLeavesMirror(dir, p, k);
  }

  // ----- what is stored as last_updated_at -----

  // The last of the first k polls that completed.
  function LastCompleted(completed: seq<bool>, k: nat): (i: Option<nat>)
    requires k <= |completed|
    ensures i.Some? ==> i.value < k && completed[i.value]
  {
    if k == 0 then None else if completed[k - 1] then Some(k - 1) else LastCompleted(completed, k - 1)
  }

  // What a poll of a history does to the stored time.
  lemma StoredStep(dir: string, p: Polls, k: nat)
    requires IsHistory(dir, p) && k < |p.sources|
    ensures p.states[k + 1].lastUpdated == if p.completed[k] then Some(p.times[k]) else p.states[k].lastUpdated
    ensures p.states[k].lastUpdated.Some? ==> (p.completed[k] <==> !p.cut[k])
  {
    EveryPollFindsAMirror(dir, p, k);
  }

  // At any time the row holds when the last completed poll ended, or what it held at first if none completed.
  lemma {:induction false} StoredIsLastCompletion(dir: string, p: Polls, k: nat)
    requires IsHistory(dir, p) && k <= |p.sources|
    ensures p.states[k].lastUpdated ==
            match LastCompleted(p.completed, k) case Some(i) => Some(p.times[i]) case None => p.states[0].lastUpdated
  {
    if k > 0 {
      StoredIsLastCompletion(dir, p, k - 1);
      StoredStep(dir, p, k - 1);
    }
  }

  ghost predicate NotBefore(a: Option<int>, b: Option<int>) {
    a.Some? ==> b.Some? && a.value <= b.value
  }

  ghost predicate NeverBack(p: Polls, n: nat)
    requires n < |p.states|
  {
    forall i, k :: 0 <= i <= k <= n ==> NotBefore(p.states[i].lastUpdated, p.states[k].lastUpdated)
  }

  ghost predicate ClocksAhead(p: Polls, n: nat)
    requires n < |p.states| && n <= |p.times| == |p.completed|
  {
    forall k :: 0 <= k < n && p.completed[k] ==> NotBefore(p.states[k].lastUpdated, Some(p.times[k]))
  }

  lemma NeverBackStep(p: Polls, n: nat)
    requires 0 < n < |p.states| && NeverBack(p, n - 1)
    ensures NeverBack(p, n) <==> NotBefore(p.states[n - 1].lastUpdated, p.states[n].lastUpdated)
  {
    forall i | 0 <= i < n ensures NotBefore(p.states[i].lastUpdated, p.states[n - 1].lastUpdated) {}
  }

  // Throughout a history the stored time never goes back exactly if no poll completes at a time before the stored
  // one: the clock of a completed poll replaces a later value.
  lemma {:induction false} NeverBackExactlyByClock(dir: string, p: Polls, n: nat)
    requires IsHistory(dir, p) && n <= |p.sources|
    ensures NeverBack(p, n) <==> ClocksAhead(p, n)
  {
    if n > 0 {
      NeverBackExactlyByClock(dir, p, n - 1);
      StoredStep(dir, p, n - 1);
      if NeverBack(p, n - 1) { NeverBackStep(p, n); }
    }
  }

  // The time is not before any timestamp in the files.
  ghost predicate Reaches(files: map<string, Event>, time: Option<int>) {
    forall name <- files :: NotBefore(files[name].timestamp, time)
  }

  lemma ReachesStamps(dir: string, source: seq<Event>, time: Option<int>)
    requires Increasing(source)
    ensures Reaches(FilesOf(dir, source), time) <==> forall e <- source :: NotBefore(e.timestamp, time)
  {
    var files := FilesOf(dir, source);
    FilesOfContents(dir, source);
    if Reaches(files, time) {
      forall e | e in source ensures NotBefore(e.timestamp, time) {
        EachHasItsFile(dir, source, e);
        assert FileName(dir, e.id) in files;
      }
    }
  }

  // After a completed poll the stored time reaches the timestamps of all events in the files exactly if none of
  // them was ahead of that poll's clock.
  lemma StoredReachesStampsExactly(dir: string, p: Polls, k: nat)
    requires IsHistory(dir, p) && k < |p.sources| && p.completed[k]
    ensures p.states[k + 1].files == FilesOf(dir, p.sources[k])
    ensures Reaches(p.states[k + 1].files, p.states[k + 1].lastUpdated) <==>
            (forall e <- p.sources[k] :: NotBefore(e.timestamp, Some(p.times[k])))
  {
    EveryPollFindsAMirror(dir, p, k);
    assert p.sources[k][..|p.sources[k]|] == p.sources[k];
    ReachesStamps(dir, p.sources[k], Some(p.times[k]));
  }

  // ----- an unset last_updated_at -----

  // Once a value is stored, every poll that nobody cuts short completes.
  lemma {:induction false} SetPollsComplete(dir: string, p: Polls, i: nat, k: nat)
    requires IsHistory(dir, p) && i <= k < |p.sources| && p.states[i].lastUpdated.Some?
    ensures p.states[k].lastUpdated.Some?
    ensures p.completed[k] <==> !p.cut[k]
  {
    if i < k {
      SetPollsComplete(dir, p, i, k - 1);
      StoredStep(dir, p, k - 1);
    }
    StoredStep(dir, p, k);
  }

  // The first stamped event that is to be copied is number x, and poll j is the first to find it in the source.
  ghost predicate FirstStamped(p: Polls, j: nat, x: nat)
    requires |p.counts| == |p.sources| + 1
  {
    && j < |p.sources| && p.counts[0] <= x < |p.sources[j]| && p.sources[j][x].timestamp.Some?
    && (forall y :: p.counts[0] <= y < x ==> p.sources[j][y].timestamp == None)
    && (forall k :: 0 <= k < j ==> |p.sources[k]| <= x)
  }

  lemma Unset(dir: string, p: Polls, k: nat)
    requires IsHistory(dir, p) && k <= |p.sources| && p.states[0].lastUpdated == None
    requires forall i :: 0 <= i < k ==> !p.completed[i]
    ensures p.states[k].lastUpdated == None
  {
    if k > 0 {
      Unset(dir, p, k - 1);
      StoredStep(dir, p, k - 1);
    }
  }

  // A poll that finds the value unset and no stamped event yet completes unless it is cut short.
  lemma CompletesBeforeStamps(dir: string, p: Polls, j: nat, x: nat, k: nat)
    requires IsHistory(dir, p) && FirstStamped(p, j, x) && k < j
    requires p.states[k].lastUpdated == None
    ensures p.completed[k] <==> !p.cut[k]
  {
    EveryPollFindsAMirror(dir, p, k);
    assert p.sources[k] <= p.sources[j];
    var rest := p.sources[k][p.counts[k]..];
    forall e | e in rest ensures e.timestamp == None {
      var y :| 0 <= y < |rest| && rest[y] == e;
      assert e == p.sources[k][p.counts[k] + y] == p.sources[j][p.counts[k] + y];
    }
  }

  // A poll that finds the value unset stops at a stamped event at the latest.
  lemma StampBlocks(dir: string, p: Polls, k: nat, x: nat)
    requires IsHistory(dir, p) && k < |p.sources| && p.states[k].lastUpdated == None
    requires p.counts[k] <= x < |p.sources[k]| && p.sources[k][x].timestamp.Some?
    ensures !p.completed[k] && p.counts[k + 1] <= x && p.states[k + 1].lastUpdated == None
  {
    EveryPollFindsAMirror(dir, p, k);
    assert Stuck(None, p.sources[k][x]);
    assert p.sources[k][x] == p.sources[k][p.counts[k]..][x - p.counts[k]];
  }

  lemma {:induction false} StopsAtStamp(dir: string, p: Polls, j: nat, x: nat, k: nat)
    requires IsHistory(dir, p) && FirstStamped(p, j, x) && p.states[0].lastUpdated == None
    requires k < |p.sources| && forall i :: 0 <= i < j ==> !p.completed[i]
    ensures !p.completed[k] && p.counts[k + 1] <= x && p.states[k + 1].lastUpdated == None
  {
    if k < j {
      Unset(dir, p, k + 1);
      EveryPollFindsAMirror(dir, p, k);
    } else {
      if k > 0 { StopsAtStamp(dir, p, j, x, k - 1); }
      assert p.sources[j] <= p.sources[k] && p.sources[k][x] == p.sources[j][x];
      StampBlocks(dir, p, k, x);
    }
  }

  // If a stamped event that is to be copied ever appears, there is a first one.
  lemma {:induction false} FirstStampedExists(dir: string, p: Polls, k: nat, y: nat) returns (j: nat, x: nat)
    requires IsHistory(dir, p) && k < |p.sources|
    requires p.counts[0] <= y < |p.sources[k]| && p.sources[k][y].timestamp.Some?
    ensures FirstStamped(p, j, x) && j <= k
    decreases k, y
  {
    if i, z :| 0 <= i < k && p.counts[0] <= z < |p.sources[i]| && p.sources[i][z].timestamp.Some? {
      j, x := FirstStampedExists(dir, p, i, z);
    } else if z :| p.counts[0] <= z < y && p.sources[k][z].timestamp.Some? {
      j, x := FirstStampedExists(dir, p, k, z);
    } else {
      j, x := k, y;
      forall i | 0 <= i < k ensures |p.sources[i]| <= y {
        assert p.sources[i] <= p.sources[k];
      }
    }
  }

  // No poll completes or copies event x.
  ghost predicate NeverPast(p: Polls, x: nat)
    requires |p.sources| == |p.completed| && |p.counts| == |p.sources| + 1
  {
    forall k :: 0 <= k < |p.sources| ==> !p.completed[k] && p.counts[k + 1] <= x
  }

  ghost predicate CutBefore(p: Polls, j: nat)
    requires j <= |p.cut|
  {
    forall k :: 0 <= k < j ==> p.cut[k]
  }

  lemma NeverPastMeansCut(dir: string, p: Polls, j: nat, x: nat)
    requires IsHistory(dir, p) && FirstStamped(p, j, x) && p.states[0].lastUpdated == None
    requires NeverPast(p, x)
    ensures CutBefore(p, j)
  {
    forall k | 0 <= k < j ensures p.cut[k] {
      Unset(dir, p, k);
      CompletesBeforeStamps(dir, p, j, x, k);
    }
  }

  lemma CutMeansNeverPast(dir: string, p: Polls, j: nat, x: nat)
    requires IsHistory(dir, p) && FirstStamped(p, j, x) && p.states[0].lastUpdated == None
    requires CutBefore(p, j)
    ensures NeverPast(p, x)
  {
    forall i | 0 <= i < j ensures !p.completed[i] { EveryPollFindsAMirror(dir, p, i); }
    forall k | 0 <= k < |p.sources| ensures !p.completed[k] && p.counts[k + 1] <= x {
      StopsAtStamp(dir, p, j, x, k);
    }
  }

  // Beginning with the value unset, no poll of a history ever completes or copies the first stamped event exactly
  // if every poll before that event appeared was cut short.
  lemma StuckExactlyWithoutEarlyCompletion(dir: string, p: Polls, j: nat, x: nat)
    requires IsHistory(dir, p) && FirstStamped(p, j, x) && p.states[0].lastUpdated == None
    ensures NeverPast(p, x) <==> CutBefore(p, j)
  {
    if NeverPast(p, x) { NeverPastMeansCut(dir, p, j, x); }
    if CutBefore(p, j) { CutMeansNeverPast(dir, p, j, x); }
  }

  class Poller {
    const dir: string
    var files: map<string, Event>
    var processed: seq<Event>         // calls of process_event
    var lastUpdated: Option<int>      // conversation_metadata.last_updated_at

    constructor (dir: string, lastUpdated: Option<int>)
      ensures this.dir == dir && files == map[] && processed == [] && this.lastUpdated == lastUpdated
    {
      this.dir, files, processed, this.lastUpdated := dir, map[], [], lastUpdated;
    }

    function View(): Mirror
      reads this
    {
      Mirror(files, processed, lastUpdated)
    }

    // max(ids, default=-1) + 1
    method StartId() returns (start: int)
      requires forall name <- files :: IdFromFilename(name) >= 0
      ensures IsStart(files.Keys, start)
    {
      start := 0;
      var todo := files.Keys;
      while todo != {}
        invariant todo <= files.Keys
        invariant IsStart(files.Keys - todo, start)
      {
        var name :| name in todo;
        var before := files.Keys - todo;
        if IdFromFilename(name) >= start { start := IdFromFilename(name) + 1; }
        todo := todo - {name};
        assert files.Keys - todo == before + {name};
      }
      assert files.Keys - todo == files.Keys;
    }

    // The events of the source that the local files do not cover.
    method NewEvents(source: seq<Event>, ghost n: nat) returns (events: seq<Event>)
      requires Increasing(source) && Mirrors(dir, files, source, n)
      ensures events == source[n..]
    {
      FileNamesAreIds(dir, source[..n]);
      var start := StartId();
      StartCutsSource(dir, source, n, start);
      SearchIsSuffix(source, start, n);
      events := Search(source, start);
    }

    // The copy loop; j counts the events written, and last is the running maximum.
    method CopyEvents(events: seq<Event>, abort: Abort)
      returns (j: nat, last: Option<int>, cut: bool, completed: bool)
      modifies this`files, this`processed
      ensures j <= |events| && files == Written(dir, old(files), events[..j])
      ensures processed == old(processed) + events[..j] ||
              (!completed && j > 0 && processed == old(processed) + events[..j - 1])
      ensures completed ==> j == |events| && last == LatestOf(lastUpdated, events)
      ensures completed <==> !cut && !SomeStuck(lastUpdated, events)
      ensures cut ==> abort != Never
      ensures !SomeStuck(lastUpdated, events[..j])
      ensures !cut && !completed ==> j < |events| && Stuck(lastUpdated, events[j])
    {
      last, cut, completed, j := lastUpdated, false, false, 0;
      while j < |events|
        invariant j <= |events| && files == Written(dir, old(files), events[..j])
        invariant processed == old(processed) + events[..j]
        invariant last == LatestOf(lastUpdated, events[..j]) && !SomeStuck(lastUpdated, events[..j])
      {
        var event := events[j];
        OneMore(dir, old(files), lastUpdated, events, j);
        if Stuck(last, event) { return; }
        if abort == BeforeWrite(j) { cut := true; return; }
        last := Later(last, event);
        files := files[FileName(dir, event.id) := event];
        j := j + 1;
        if abort == AfterWrite(j - 1) { cut := true; return; }
        ProcessEvent(event);
        if abort == InProcess(j - 1) { cut := true; return; }
      }
      assert events[..j] == events;
      completed := true;
    }

    // process_event, which writes the event to the same file once more before it calls anybody.
    method ProcessEvent(event: Event)
      modifies this`files, this`processed
      ensures files == old(files)[FileName(dir, event.id) := event]
      ensures processed == old(processed) + [event]
    {
      files := files[FileName(dir, event.id) := event];
      processed := processed + [event];
    }

    // update_conversation_metadata stores the current time, whatever last_updated_at it is given.
    method UpdateConversationMetadata(content: Option<int>, now: int)
      modifies this`lastUpdated
      ensures lastUpdated == Some(now)
    {
      lastUpdated := Some(now);
    }

    // One poll over the source as it reads it; n is how many events were mirrored before, now when it ends.
    method Poll(source: seq<Event>, abort: Abort, now: int, ghost n: nat)
      returns (ghost m: nat, cut: bool, completed: bool)
      requires Increasing(source) && Mirrors(dir, files, source, n) && HandedOnce(processed, source, n)
      modifies this
      ensures PollStep(dir, source, n, old(View()), View(), m, now, cut, completed)
      ensures cut ==> abort != Never
    {
      var events := NewEvents(source, n);
      var j, last;
      j, last, cut, completed := CopyEvents(events, abort);
      m := n + j;
      CopiedFiles(dir, source, n, j);
      CopiedOnce(old(processed), processed, source, n, j);
      forall k | n <= k < m ensures !Stuck(old(lastUpdated), source[k]) {
        assert source[k] == events[..j][k - n];
        assert source[k] in events[..j];
      }
      if completed && abort == AtStore { cut, completed := true, false; }
      if completed { UpdateConversationMetadata(last, now); }
    }
  }
}
