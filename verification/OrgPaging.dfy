// Offset pagination over a user's organizations, with in-place version upgrades.
module OrgPaging {
  import opened Wrappers
  import opened Decimal
  import OrgTables

  type OrgId = nat
  type UserId = nat

  // Names are their ranks in the database collation; they are unique.
  datatype OrgRow = OrgRow(name: int, version: int, model: string)

  // ----- one page -----

  function Min(a: int, b: int): int { if a < b then a else b }

  // The rows from the offset on, at most limit + 1 of them.
  function Window<T>(ids: seq<T>, offset: nat, limit: nat): seq<T> {
    if offset <= |ids| then ids[offset..Min(offset + limit + 1, |ids|)] else []
  }

  function OffsetOf(pageId: Option<string>): int {
    match pageId
    case None => 0
    case Some(s) => match ParseInt(s) case None => 0 case Some(n) => n
  }

  // The page starting at an offset, and where the next one starts.
  function Page(ids: seq<OrgId>, offset: nat, limit: nat): (seq<OrgId>, Option<string>) {
    if offset + limit < |ids| then (ids[offset..offset + limit], Some(Digits(offset + limit)))
    else (if offset <= |ids| then ids[offset..] else [], None)
  }

  // The query's answer: the user's organizations, ordered by name.
  ghost predicate IsListing(orgs: map<OrgId, OrgRow>, members: set<(UserId, OrgId)>, user: UserId, ids: seq<OrgId>) {
    && (forall o :: o in ids <==> o in orgs && (user, o) in members)
    && (forall i, j :: 0 <= i < j < |ids| ==> orgs[ids[i]].name < orgs[ids[j]].name)
  }

  predicate Outdated(row: OrgRow) { row.version < OrgTables.ORG_SETTINGS_VERSION }

  // update_org with the keywords of a version upgrade.
  function Renewed(row: OrgRow, defaultModel: string): OrgRow {
    OrgRow(row.name, OrgTables.ORG_SETTINGS_VERSION, defaultModel)
  }

  // What validation leaves of a page: an outdated organization that is gone by then is dropped.
  function Survivors(page: seq<OrgId>, fetched: map<OrgId, OrgRow>, present: set<OrgId>): seq<OrgId>
    requires forall o <- page :: o in fetched
  {
    if page == [] then []
    else
      var rest, last := Survivors(page[..|page| - 1], fetched, present), page[|page| - 1];
      if Outdated(fetched[last]) && last !in present then rest else rest + [last]
  }

  lemma {:induction false} NothingGone(page: seq<OrgId>, fetched: map<OrgId, OrgRow>, present: set<OrgId>)
    requires forall o <- page :: o in fetched && o in present
    ensures Survivors(page, fetched, present) == page
  {
    if page != [] { NothingGone(page[..|page| - 1], fetched, present); }
  }

  lemma WindowIsPage<T>(ids: seq<T>, offset: nat, limit: nat)
    ensures var rows := Window(ids, offset, limit);
            && (|rows| > limit <==> offset + limit < |ids|)
            && (|rows| > limit ==> rows[..limit] == ids[offset..offset + limit])
            && (|rows| <= limit ==> rows == if offset <= |ids| then ids[offset..] else [])
  {
  }

  // Exactly the outdated rows of the page that are still there are brought up to date.
  ghost predicate Validated(before: map<OrgId, OrgRow>, after: map<OrgId, OrgRow>, page: seq<OrgId>, gone: set<OrgId>, defaultModel: string)
  {
    && after.Keys == before.Keys - gone
    && forall o <- after ::
         o in before && after[o] == if o in page && Outdated(before[o]) then Renewed(before[o], defaultModel) else before[o]
  }

  lemma PageIsListed(ids: seq<OrgId>, offset: nat, limit: nat)
    ensures forall o <- Page(ids, offset, limit).0 :: o in ids
  {
  }

  // If nothing was deleted meanwhile, the whole page comes back, all of it up to date, and the listing stays what
  // it was, so the next page continues it.
  lemma UndisturbedPage(before: map<OrgId, OrgRow>, after: map<OrgId, OrgRow>, members: set<(UserId, OrgId)>, user: UserId,
                        ids: seq<OrgId>, page: seq<OrgId>, defaultModel: string)
    requires IsListing(before, members, user, ids) && (forall o <- page :: o in ids)
    requires Validated(before, after, page, {}, defaultModel)
    ensures Survivors(page, before, before.Keys - {}) == page
    ensures IsListing(after, members, user, ids) && forall o <- page :: !Outdated(after[o])
  {
    assert before.Keys - {} == before.Keys;
    NothingGone(page, before, before.Keys);
    forall i, j | 0 <= i < j < |ids| ensures after[ids[i]].name < after[ids[j]].name {
      assert ids[i] in after && ids[j] in after;
    }
  }

  lemma PageContinues(ids: seq<OrgId>, offset: nat, limit: nat)
    requires offset <= |ids|
    ensures var (page, next) := Page(ids, offset, limit);
            && offset + |page| <= |ids| && ids[..offset] + page == ids[..offset + |page|]
            && (next.Some? ==> |page| == limit && OffsetOf(next) == offset + limit)
            && (next == None ==> offset + |page| == |ids|)
  {
    ParseInvertsDigits(offset + limit);
  }

  // The pages before number |all| have been collected and validated.
  ghost predicate Collected(t: OrgTable, user: UserId, listing: seq<OrgId>, before: map<OrgId, OrgRow>, all: seq<OrgId>, defaultModel: string)
    reads t
  {
    && |all| <= |listing| && all == listing[..|all|]
    && IsListing(t.orgs, t.members, user, listing)
    && Validated(before, t.orgs, all, {}, defaultModel)
  }

  lemma ValidatedTwice(a: map<OrgId, OrgRow>, b: map<OrgId, OrgRow>, c: map<OrgId, OrgRow>, first: seq<OrgId>,
                       second: seq<OrgId>, defaultModel: string)
    requires Validated(a, b, first, {}, defaultModel) && Validated(b, c, second, {}, defaultModel)
    ensures Validated(a, c, first + second, {}, defaultModel)
  {
  }

  class OrgTable {
    var orgs: map<OrgId, OrgRow>
    var members: set<(UserId, OrgId)>

    constructor (orgs: map<OrgId, OrgRow>, members: set<(UserId, OrgId)>)
      ensures this.orgs == orgs && this.members == members
    {
      this.orgs, this.members := orgs, members;
    }

    // fetched is the row as the query returned it; None when it was outdated and has gone since.
    method ValidateOrgVersion(o: OrgId, fetched: OrgRow, defaultModel: string) returns (row: Option<OrgRow>)
      modifies this`orgs
      ensures row == None <==> Outdated(fetched) && o !in old(orgs)
      ensures row.Some? ==> row.value.version >= 5
      ensures fetched.version >= 5 ==> row == Some(fetched) && orgs == old(orgs)
      ensures fetched.version < 5 && o in old(orgs) ==>
                row == Some(OrgRow(old(orgs)[o].name, 5, defaultModel)) && orgs == old(orgs)[o := row.value]
      ensures row.Some? && Outdated(fetched) ==> row == Some(Renewed(old(orgs)[o], defaultModel))
      ensures row.Some? && !Outdated(fetched) ==> row == Some(fetched)
      ensures orgs == if row.Some? && Outdated(fetched) then old(orgs)[o := row.value] else old(orgs)
    {
      if !Outdated(fetched) { return Some(fetched); }
      if o !in orgs { return None; }
      orgs := orgs[o := orgs[o].(version := OrgTables.ORG_SETTINGS_VERSION, model := defaultModel)];
      row := Some(orgs[o]);
    }

    // The rows of a page are validated one after the other.
    method ValidateOrgs(page: seq<OrgId>, fetched: map<OrgId, OrgRow>, defaultModel: string) returns (kept: seq<OrgId>)
      requires forall o <- page :: o in fetched
      modifies this`orgs
      ensures kept == Survivors(page, fetched, old(orgs).Keys)
      ensures orgs.Keys == old(orgs).Keys
      ensures forall o <- orgs ::
                orgs[o] == if o in page && Outdated(fetched[o]) then Renewed(old(orgs)[o], defaultModel) else old(orgs)[o]
    {
      kept := [];
      for i := 0 to |page|
        invariant kept == Survivors(page[..i], fetched, old(orgs).Keys)
        invariant orgs.Keys == old(orgs).Keys
        invariant forall o <- orgs ::
                    orgs[o] == if o in page[..i] && Outdated(fetched[o]) then Renewed(old(orgs)[o], defaultModel) else old(orgs)[o]
      {
        assert page[..i + 1][..i] == page[..i] && page[..i + 1] == page[..i] + [page[i]];
        var row := ValidateOrgVersion(page[i], fetched[page[i]], defaultModel);
        if row.Some? { kept := kept + [page[i]]; }
      }
      assert page[..|page|] == page;
    }

    // The query: one page of the listing, and the next page's identifier.  A negative offset is refused by the
    // database.
    method FetchPage(listing: seq<OrgId>, pageId: Option<string>, limit: nat)
      returns (r: Result<(seq<OrgId>, Option<string>), ()>)
      ensures pageId == None || ParseInt(pageId.value) == None ==> r == Ok(Page(listing, 0, limit))
      ensures pageId.Some? && ParseInt(pageId.value).Some? ==>
                r == if ParseInt(pageId.value).value < 0 then Err(()) else Ok(Page(listing, ParseInt(pageId.value).value, limit))
      ensures r.Err? <==> OffsetOf(pageId) < 0
      ensures r.Ok? ==> r.value == Page(listing, OffsetOf(pageId), limit)
    {
      var offset := 0;
      if pageId.Some? {
        var parsed := ParseInt(pageId.value);
        if parsed.Some? { offset := parsed.value; }
      }
      if offset < 0 { return Err(()); }
      var rows := Window(listing, offset, limit);
      var hasMore := |rows| > limit;
      if hasMore { rows := rows[..limit]; }
      var next := if hasMore then Some(Digits(offset + limit)) else None;
      WindowIsPage(listing, offset, limit);
      r := Ok((rows, next));
    }

    // gone are the organizations that others delete between the query and the validation.
    method GetUserOrgsPaginated(user: UserId, listing: seq<OrgId>, pageId: Option<string>, limit: nat, defaultModel: string,
                                gone: set<OrgId>)
      returns (r: Result<(seq<OrgId>, Option<string>), ()>)
      requires IsListing(orgs, members, user, listing)
      modifies this`orgs
      ensures r.Err? <==> OffsetOf(pageId) < 0
      ensures r.Err? ==> orgs == old(orgs)
      ensures r.Ok? ==>
                var (page, next) := Page(listing, OffsetOf(pageId), limit);
                && r.value.1 == next
                && (forall o <- page :: o in old(orgs))
                && r.value.0 == Survivors(page, old(orgs), old(orgs).Keys - gone)
                && Validated(old(orgs), orgs, page, gone, defaultModel)
    {
      r := FetchPage(listing, pageId, limit);
      if r.Err? { return; }
      var (page, next) := r.value;
      PageIsListed(listing, OffsetOf(pageId), limit);
      var fetched := orgs;
      orgs := orgs - gone;
      assert orgs.Keys == fetched.Keys - gone;
      var kept := ValidateOrgs(page, fetched, defaultModel);
      r := Ok((kept, next));
    }

    // One request of a client that has collected the pages so far.
    method NextPage(user: UserId, listing: seq<OrgId>, all: seq<OrgId>, pageId: Option<string>, limit: nat,
                    defaultModel: string, ghost before: map<OrgId, OrgRow>)
      returns (page: seq<OrgId>, next: Option<string>)
      requires Collected(this, user, listing, before, all, defaultModel) && OffsetOf(pageId) == |all|
      modifies this`orgs
      ensures (page, next) == Page(listing, |all|, limit)
      ensures Collected(this, user, listing, before, all + page, defaultModel)
    {
      ghost var was := orgs;
      var r := GetUserOrgsPaginated(user, listing, pageId, limit, defaultModel, {});
      PageIsListed(listing, |all|, limit);
      PageContinues(listing, |all|, limit);
      UndisturbedPage(was, orgs, members, user, listing, Page(listing, |all|, limit).0, defaultModel);
      page, next := r.value.0, r.value.1;
      ValidatedTwice(before, was, orgs, all, page, defaultModel);
    }

    // A client that follows next_page_id to its end while nothing is deleted: it collects exactly the listing, and
    // every row in it has been brought up to date on the way.
    method FollowPages(user: UserId, listing: seq<OrgId>, limit: nat, defaultModel: string) returns (all: seq<OrgId>)
      requires IsListing(orgs, members, user, listing) && limit >= 1
      modifies this`orgs
      ensures all == listing && IsListing(orgs, members, user, listing)
      ensures Validated(old(orgs), orgs, listing, {}, defaultModel)
      ensures forall o <- all :: o in orgs && !Outdated(orgs[o])
    {
      all := [];
      ghost var before := orgs;
      var pageId: Option<string>, more := None, true;
      while more
        invariant Collected(this, user, listing, before, all, defaultModel)
        invariant if more then OffsetOf(pageId) == |all| else all == listing
        decreases more, |listing| - |all|
      {
        PageContinues(listing, |all|, limit);
        var page, next := NextPage(user, listing, all, pageId, limit, defaultModel, before);
        all, pageId, more := all + page, next, next.Some?;
      }
    }
  }

  // ----- following the pages -----

  // What a client collects that asks for pageId and follows next_page_id to its end.
  function Follow(ids: seq<OrgId>, offset: nat, limit: nat): seq<OrgId>
    requires limit >= 1
    decreases |ids| - offset
  {
    var (page, next) := Page(ids, offset, limit);
    match next
    case None => page
    case Some(s) =>
      ParseInvertsDigits(offset + limit);
      page + Follow(ids, OffsetOf(Some(s)), limit)
  }

  lemma {:induction false} FollowFrom(ids: seq<OrgId>, offset: nat, limit: nat)
    requires limit >= 1 && offset <= |ids|
    ensures Follow(ids, offset, limit) == ids[offset..]
    decreases |ids| - offset
  {
    if offset + limit < |ids| {
      ParseInvertsDigits(offset + limit);
      FollowFrom(ids, offset + limit, limit);
      assert ids[offset..] == ids[offset..offset + limit] + ids[offset + limit..];
    }
  }

  // Starting without a page identifier, the pages concatenate to the whole listing, each organization once.
  lemma PagesCoverListing(orgs: map<OrgId, OrgRow>, members: set<(UserId, OrgId)>, user: UserId, ids: seq<OrgId>, limit: nat)
    requires limit >= 1 && IsListing(orgs, members, user, ids)
    ensures Follow(ids, OffsetOf(None), limit) == ids
    ensures forall i, j :: 0 <= i < j < |ids| ==> ids[i] != ids[j]
    ensures forall o :: o in Follow(ids, OffsetOf(None), limit) <==> o in orgs && (user, o) in members
  {
    FollowFrom(ids, 0, limit);
  }

  // With limit 0 a page that is not the last names itself as its successor.
  lemma ZeroLimitNeverAdvances(ids: seq<OrgId>, offset: nat)
    requires offset < |ids|
    ensures Page(ids, offset, 0).0 == [] && Page(ids, offset, 0).1.Some?
    ensures OffsetOf(Page(ids, offset, 0).1) == offset
  {
    ParseInvertsDigits(offset);
  }
}
