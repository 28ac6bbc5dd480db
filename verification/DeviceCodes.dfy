// OAuth device codes: issue, authorize or deny, and poll (RFC 8628).
module DeviceCodes {
  import opened Wrappers

  type UserId = string

  datatype Status = Pending | Authorized | Expired | Denied

  const FIRST_INTERVAL := 5
  const INTERVAL_STEP := 5
  const INTERVAL_CAP := 60
  const MAX_ATTEMPTS := 10

  // Times are seconds.
  datatype Entry = Entry(
    userCode: string,
    status: Status,
    userId: Option<UserId>,
    expiresAt: int,
    authorizedAt: Option<int>,
    lastPoll: Option<int>,
    interval: int)

  function Slower(interval: int): int {
    if interval + INTERVAL_STEP < INTERVAL_CAP then interval + INTERVAL_STEP else INTERVAL_CAP
  }

  predicate IsPending(e: Entry, now: int) {
    e.status.Pending? && !(now > e.expiresAt)
  }

  // Whether the client must slow down, and the interval it is told.
  function CheckRateLimit(e: Entry, now: int): (bool, int) {
    match e.lastPoll
    case None => (false, e.interval)
    case Some(last) => if now - last < e.interval then (true, Slower(e.interval)) else (false, e.interval)
  }

  ghost predicate CodesUnique(entries: map<string, Entry>) {
    forall d, d' :: d in entries && d' in entries && entries[d].userCode == entries[d'].userCode ==> d == d'
  }

  predicate UserCodeTaken(entries: map<string, Entry>, userCode: string) {
    exists d <- entries :: entries[d].userCode == userCode
  }

  function NewEntry(userCode: string, expiresAt: int): Entry {
    Entry(userCode, Pending, None, expiresAt, None, None, FIRST_INTERVAL)
  }

  // ----- the operations on the table, keyed by device code -----

  datatype Op =
    | Create(device: string, userCode: string, now: int, expiresIn: int)
    | Authorize(userCode: string, userId: UserId, now: int)
    | Deny(userCode: string, now: int)
    | Poll(device: string, now: int, increase: bool)

  predicate CanCreate(entries: map<string, Entry>, device: string, userCode: string) {
    device !in entries && !UserCodeTaken(entries, userCode)
  }

  // Attempt i is the first that violates no uniqueness constraint.
  ghost predicate FirstFree(entries: map<string, Entry>, drawn: seq<(string, string)>, i: int) {
    && 0 <= i < |drawn| && CanCreate(entries, drawn[i].0, drawn[i].1)
    && forall j :: 0 <= j < i ==> !CanCreate(entries, drawn[j].0, drawn[j].1)
  }

  function Settled(e: Entry, op: Op): Entry {
    match op
    case Authorize(userCode, userId, now) =>
      if e.userCode == userCode && IsPending(e, now)
      then e.(status := Authorized, userId := Some(userId), authorizedAt := Some(now)) else e
    case Deny(userCode, now) => if e.userCode == userCode && IsPending(e, now) then e.(status := Denied) else e
    case _ => e
  }

  function Polled(e: Entry, now: int, increase: bool): Entry {
    e.(lastPoll := Some(now), interval := if increase then Slower(e.interval) else e.interval)
  }

  function Apply(entries: map<string, Entry>, op: Op): map<string, Entry> {
    match op
    case Create(device, userCode, now, expiresIn) =>
      if CanCreate(entries, device, userCode) then entries[device := NewEntry(userCode, now + expiresIn)] else entries
    case Poll(device, now, increase) =>
      if device in entries then entries[device := Polled(entries[device], now, increase)] else entries
    case _ => map d | d in entries :: Settled(entries[d], op)
  }

  lemma UniqueStep(entries: map<string, Entry>, op: Op)
    requires CodesUnique(entries)
    ensures CodesUnique(Apply(entries, op))
  {
  }

  class Store {
    var entries: map<string, Entry>

    constructor ()
      ensures entries == map[]
    {
      entries := map[];
    }

    ghost predicate Valid()
      reads this
    {
      CodesUnique(entries)
    }

    // drawn lists the codes the generator produces, one pair per attempt.
    method CreateDeviceCode(drawn: seq<(string, string)>, now: int, expiresIn: int) returns (r: Result<string, ()>)
      requires |drawn| == MAX_ATTEMPTS && Valid()
      modifies this
      ensures Valid()
      ensures r.Err? <==> forall p <- drawn :: !CanCreate(old(entries), p.0, p.1)
      ensures r.Err? ==> entries == old(entries)
      ensures r.Ok? ==> exists i ::
                && 0 <= i < |drawn| && r.value == drawn[i].0
                && drawn[i].0 !in old(entries) && (forall d <- old(entries) :: old(entries)[d].userCode != drawn[i].1)
                && entries == old(entries)[drawn[i].0 := Entry(drawn[i].1, Pending, None, now + expiresIn, None, None, 5)]
      ensures r.Ok? ==> exists i ::
                && FirstFree(old(entries), drawn, i) && r.value == drawn[i].0
                && entries == Apply(old(entries), Create(drawn[i].0, drawn[i].1, now, expiresIn))
    {
      var i := 0;
      while i < |drawn|
        invariant i <= |drawn| && entries == old(entries)
        invariant forall j :: 0 <= j < i ==> !CanCreate(entries, drawn[j].0, drawn[j].1)
      {
        var (device, userCode) := drawn[i];
        if device !in entries && !UserCodeTaken(entries, userCode) {
          assert FirstFree(entries, drawn, i);
          UniqueStep(entries, Create(device, userCode, now, expiresIn));
          entries := entries[device := NewEntry(userCode, now + expiresIn)];
          assert drawn[i] in drawn;
          return Ok(device);
        }
        i := i + 1;
      }
      r := Err(());
    }

    method FindByUserCode(userCode: string) returns (device: Option<string>)
      requires Valid()
      ensures device.Some? <==> UserCodeTaken(entries, userCode)
      ensures device.Some? ==> device.value in entries && entries[device.value].userCode == userCode
    {
      if UserCodeTaken(entries, userCode) {
        var d :| d in entries && entries[d].userCode == userCode;
        device := Some(d);
      } else {
        device := None;
      }
    }

    method AuthorizeDeviceCode(userCode: string, userId: UserId, now: int) returns (ok: bool)
      requires Valid()
      modifies this
      ensures ok ==> exists d <- old(entries) ::
                && old(entries)[d].userCode == userCode && old(entries)[d].status == Pending && now <= old(entries)[d].expiresAt
                && entries == old(entries)[d := old(entries)[d].(status := Authorized, userId := Some(userId), authorizedAt := Some(now))]
      ensures !ok ==> entries == old(entries) && forall d <- entries :: entries[d].userCode == userCode ==>
                entries[d].status != Pending || now > entries[d].expiresAt
      ensures Valid() && entries == Apply(old(entries), Authorize(userCode, userId, now))
      ensures ok <==> exists d <- old(entries) :: old(entries)[d].userCode == userCode && IsPending(old(entries)[d], now)
    {
      UniqueStep(entries, Authorize(userCode, userId, now));
      var found := FindByUserCode(userCode);
      ok := false;
      if found.Some? && IsPending(entries[found.value], now) {
        entries := entries[found.value := entries[found.value].(status := Authorized, userId := Some(userId), authorizedAt := Some(now))];
        ok := true;
      }
    }

    method DenyDeviceCode(userCode: string, now: int) returns (ok: bool)
      requires Valid()
      modifies this
      ensures ok ==> exists d <- old(entries) ::
                && old(entries)[d].userCode == userCode && old(entries)[d].status == Pending && now <= old(entries)[d].expiresAt
                && entries == old(entries)[d := old(entries)[d].(status := Denied)]
      ensures !ok ==> entries == old(entries) && forall d <- entries :: entries[d].userCode == userCode ==>
                entries[d].status != Pending || now > entries[d].expiresAt
      ensures Valid() && entries == Apply(old(entries), Deny(userCode, now))
      ensures ok <==> exists d <- old(entries) :: old(entries)[d].userCode == userCode && IsPending(old(entries)[d], now)
    {
      UniqueStep(entries, Deny(userCode, now));
      var found := FindByUserCode(userCode);
      ok := false;
      if found.Some? && IsPending(entries[found.value], now) {
        entries := entries[found.value := entries[found.value].(status := Denied)];
        ok := true;
      }
    }

    method UpdatePollTime(device: string, now: int, increase: bool) returns (ok: bool)
      requires Valid()
      modifies this
      ensures Valid() && entries == Apply(old(entries), Poll(device, now, increase))
      ensures ok <==> device in old(entries)
      ensures entries == if !ok then old(entries) else
                var e := old(entries)[device];
                old(entries)[device := e.(lastPoll := Some(now),
                                          interval := if !increase then e.interval else if e.interval + 5 < 60 then e.interval + 5 else 60)]
    {
      ok := device in entries;
      if ok { entries := entries[device := Polled(entries[device], now, increase)]; }
    }
  }

  // ----- runs -----

  function Run(ops: seq<Op>): map<string, Entry> {
    if ops == [] then map[] else Apply(Run(ops[..|ops| - 1]), ops[|ops| - 1])
  }

  // The slow-downs recorded for a device since its code was issued.
  function SlowDowns(ops: seq<Op>, device: string): nat {
    if ops == [] then 0
    else
      var front, last := ops[..|ops| - 1], ops[|ops| - 1];
      SlowDowns(front, device) + if device in Run(front) && last.Poll? && last.device == device && last.increase then 1 else 0
  }

  function IntervalAfter(k: nat): int {
    if 5 + 5 * k < 60 then 5 + 5 * k else 60
  }

  ghost predicate EntryOk(e: Entry) {
    && (e.userId.Some? <==> e.status.Authorized?)
    && (e.authorizedAt.Some? <==> e.status.Authorized?)
    && (e.status.Authorized? ==> e.authorizedAt.value <= e.expiresAt)
    && !e.status.Expired?
  }

  lemma EntryStep(entries: map<string, Entry>, op: Op, d: string, k: nat)
    requires d in Apply(entries, op)
    requires d in entries ==> EntryOk(entries[d]) && entries[d].interval == IntervalAfter(k)
    requires d !in entries ==> k == 0
    ensures var e := Apply(entries, op)[d];
            EntryOk(e) &&
            e.interval == IntervalAfter(k + if d in entries && op.Poll? && op.device == d && op.increase then 1 else 0)
  {
  }

  // After any run: codes are unique, a user is recorded exactly on authorized codes, authorization came no
  // later than expiry, and k slow-downs have set the interval to min(5 + 5k, 60).
  lemma {:induction false} RunOk(ops: seq<Op>)
    ensures CodesUnique(Run(ops))
    ensures forall d <- Run(ops) :: EntryOk(Run(ops)[d]) && Run(ops)[d].interval == IntervalAfter(SlowDowns(ops, d))
    ensures forall d :: d !in Run(ops) ==> SlowDowns(ops, d) == 0
  {
    if ops != [] {
      var front, op := ops[..|ops| - 1], ops[|ops| - 1];
      RunOk(front);
      UniqueStep(Run(front), op);
      forall d | d in Run(ops) ensures EntryOk(Run(ops)[d]) && Run(ops)[d].interval == IntervalAfter(SlowDowns(ops, d)) {
        EntryStep(Run(front), op, d, SlowDowns(front, d));
      }
      forall d | d !in Run(ops) ensures SlowDowns(ops, d) == 0 { assert d !in Run(front); }
    }
  }

  ghost predicate Final(e: Entry) {
    e.status.Authorized? || e.status.Denied?
  }

  // Authorized and denied are absorbing, and the user of an authorized code never changes.
  lemma {:induction false} FinalIsAbsorbing(ops: seq<Op>, more: seq<Op>, d: string)
    requires d in Run(ops) && Final(Run(ops)[d])
    ensures d in Run(ops + more)
    ensures Run(ops + more)[d].status == Run(ops)[d].status && Run(ops + more)[d].userId == Run(ops)[d].userId
    ensures Run(ops + more)[d].userCode == Run(ops)[d].userCode
  {
    if more == [] {
      assert ops + more == ops;
    } else {
      var front := more[..|more| - 1];
      FinalIsAbsorbing(ops, front, d);
      assert (ops + more)[..|ops + more| - 1] == ops + front;
    }
  }

  // When the device polled last since its code was issued.
  function LastPoll(ops: seq<Op>, device: string): Option<int> {
    if ops == [] then None
    else
      var front, last := ops[..|ops| - 1], ops[|ops| - 1];
      if device in Run(front) && last.Poll? && last.device == device then Some(last.now) else LastPoll(front, device)
  }

  lemma {:induction false} LastPollRecorded(ops: seq<Op>, d: string)
    ensures if d in Run(ops) then Run(ops)[d].lastPoll == LastPoll(ops, d) else LastPoll(ops, d) == None
  {
    if ops != [] { LastPollRecorded(ops[..|ops| - 1], d); }
  }

  // After any run a poll is told to slow down exactly if it comes sooner after the device's last one than the
  // interval in force, min(5 + 5k, 60) after k slow-downs; the first poll never is.
  lemma SlowDownExactlyWithinInterval(ops: seq<Op>, d: string, now: int)
    requires d in Run(ops)
    ensures var k := SlowDowns(ops, d);
            CheckRateLimit(Run(ops)[d], now).0 <==>
            LastPoll(ops, d).Some? && now < LastPoll(ops, d).value + (if 5 + 5 * k < 60 then 5 + 5 * k else 60)
  {
    RunOk(ops);
    LastPollRecorded(ops, d);
  }

  // The interval announced by check_rate_limit is the one that recording the slow-down stores.
  lemma AnnouncedIsStored(ops: seq<Op>, d: string, now: int)
    requires d in Run(ops)
    ensures var (tooFast, announced) := CheckRateLimit(Run(ops)[d], now);
            var after := Run(ops + [Poll(d, now, tooFast)]);
            && d in after && after[d].interval == announced
            && announced == IntervalAfter(SlowDowns(ops, d) + if tooFast then 1 else 0)
  {
    RunOk(ops);
    assert (ops + [Poll(d, now, CheckRateLimit(Run(ops)[d], now).0)])[..|ops|] == ops;
  }
}
