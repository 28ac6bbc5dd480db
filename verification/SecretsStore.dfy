// Custom secrets: encrypted rows, replaced as a whole on every store.
module SecretsStore {
  import opened Wrappers

  type UserId = string
  type OrgId = string

  // Encryption draws a fresh nonce each time; decryption of a foreign text raises.
  datatype Cipher = Cipher(enc: (nat, string) -> string, dec: string -> Option<string>)

  ghost predicate Inverse(c: Cipher) {
    forall n: nat, t: string :: c.dec(c.enc(n, t)) == Some(t)
  }

  // The dictionaries the store rewrites, as nested lists of entries.
  datatype Value = Null | Text(text: string) | Dict(entries: Kwargs)
  datatype Entry = Entry(key: string, value: Value)
  type Kwargs = seq<Entry>

  // How many texts a dictionary holds: each takes a nonce.
  function Texts(d: Kwargs): nat
    decreases d
  {
    if d == [] then 0
    else
      (match d[0].value case Null => 0 case Text(_) => 1 case Dict(entries) => Texts(entries)) + Texts(d[1..])
  }

  function EncryptKwargs(c: Cipher, d: Kwargs, n: nat): (r: Kwargs)
    ensures |r| == |d|
    decreases d
  {
    if d == [] then []
    else
      var value := match d[0].value
        case Null => Null
        case Text(t) => Text(c.enc(n, t))
        case Dict(entries) => Dict(EncryptKwargs(c, entries, n));
      [Entry(d[0].key, value)] + EncryptKwargs(c, d[1..], n + Texts(d[..1]))
  }

  function DecryptKwargs(c: Cipher, d: Kwargs): Option<Kwargs>
    decreases d
  {
    if d == [] then Some([])
    else
      var value := match d[0].value
        case Null => Some(Null)
        case Text(t) => (match c.dec(t) case Some(p) => Some(Text(p)) case None => None)
        case Dict(entries) => (match DecryptKwargs(c, entries) case Some(e) => Some(Dict(e)) case None => None);
      match value
      case None => None
      case Some(v) =>
        match DecryptKwargs(c, d[1..])
        case None => None
        case Some(rest) => Some([Entry(d[0].key, v)] + rest)
  }

  // At every depth, decrypting undoes encrypting, whatever the nonces were.
  lemma {:induction false} DecryptUndoesEncrypt(c: Cipher, d: Kwargs, n: nat)
    requires Inverse(c)
    ensures DecryptKwargs(c, EncryptKwargs(c, d, n)) == Some(d)
    decreases d
  {
    if d != [] {
      match d[0].value {
        case Null =>
        case Text(t) =>
        case Dict(entries) => DecryptUndoesEncrypt(c, entries, n);
      }
      var n' := n + Texts(d[..1]);
      DecryptUndoesEncrypt(c, d[1..], n');
      assert EncryptKwargs(c, d, n)[1..] == EncryptKwargs(c, d[1..], n');
      assert d == [Entry(d[0].key, d[0].value)] + d[1..];
    }
  }

  // ----- rows and secrets -----

  datatype Row = Row(userId: UserId, orgId: Option<OrgId>, name: string, value: string, description: Option<string>)
  datatype Secret = Secret(secret: string, description: string)
  datatype Item = Item(name: string, secret: Secret)

  predicate DistinctNames(items: seq<Item>) {
    forall i, j :: 0 <= i < j < |items| ==> items[i].name != items[j].name
  }

  function OrNull(t: Option<string>): Value {
    match t case Some(s) => Text(s) case None => Null
  }

  function Info(secret: string, description: Option<string>): Value {
    Dict([Entry("secret", Text(secret)), Entry("description", OrNull(description))])
  }

  function EntryOfItem(item: Item): Entry {
    Entry(item.name, Info(item.secret.secret, Some(item.secret.description)))
  }

  function Dumped(items: seq<Item>): Kwargs {
    seq(|items|, i requires 0 <= i < |items| => EntryOfItem(items[i]))
  }

  function EntryOf(row: Row): Entry {
    Entry(row.name, Info(row.value, row.description))
  }

  function Others(rows: seq<Row>, user: UserId): seq<Row> {
    if rows == [] then []
    else
      var rest, last := Others(rows[..|rows| - 1], user), rows[|rows| - 1];
      if last.userId == user then rest else rest + [last]
  }

  predicate Matches(row: Row, user: UserId, org: Option<OrgId>) {
    row.userId == user && (org == None || row.orgId == org)
  }

  function Fetched(rows: seq<Row>, user: UserId, org: Option<OrgId>): seq<Row> {
    if rows == [] then []
    else
      var rest, last := Fetched(rows[..|rows| - 1], user, org), rows[|rows| - 1];
      if Matches(last, user, org) then rest + [last] else rest
  }

  // kwargs[key] = value
  function Put(d: Kwargs, key: string, value: Value): Kwargs {
    if d == [] then [Entry(key, value)]
    else if d[0].key == key then [Entry(key, value)] + d[1..]
    else [d[0]] + Put(d[1..], key, value)
  }

  // The dictionary load builds from the rows it fetched.
  function Collected(rows: seq<Row>): Kwargs {
    if rows == [] then []
    else
      var last := EntryOf(rows[|rows| - 1]);
      Put(Collected(rows[..|rows| - 1]), last.key, last.value)
  }

  // The secret an entry validates to; a description is a string, so an entry with a null one is dropped.
  function SecretOf(v: Value): Option<Secret> {
    if v.Dict? && |v.entries| == 2 && v.entries[0].value.Text? && v.entries[1].value.Text?
    then Some(Secret(v.entries[0].value.text, v.entries[1].value.text)) else None
  }

  // Secrets(custom_secrets=kwargs)
  function Validated(d: Kwargs): map<string, Secret> {
    if d == [] then map[]
    else
      var rest, last := Validated(d[..|d| - 1]), d[|d| - 1];
      match SecretOf(last.value) case Some(s) => rest[last.key := s] case None => rest
  }

  function Loaded(rows: seq<Row>, user: UserId, org: Option<OrgId>, c: Cipher): Result<map<string, Secret>, string> {
    match DecryptKwargs(c, Collected(Fetched(rows, user, org)))
    case Some(d) => Ok(Validated(d))
    case None => Err("InvalidToken")
  }

  // Rows holding these entries for the user in the org, in their order.
  predicate RowsFor(rows: seq<Row>, user: UserId, org: Option<OrgId>, d: Kwargs) {
    && |rows| == |d|
    && forall i :: 0 <= i < |d| ==> rows[i].userId == user && rows[i].orgId == org && EntryOf(rows[i]) == d[i]
  }

  // What a store leaves: everybody else's rows, then the user's sealed ones.
  predicate Stored(before: seq<Row>, after: seq<Row>, user: UserId, org: Option<OrgId>, sealed: Kwargs) {
    var kept := Others(before, user);
    && |after| == |kept| + |sealed| && after[..|kept|] == kept
    && RowsFor(after[|kept|..], user, org, sealed)
  }

  // What load fetches: the user's rows of the current organization, or all of his rows when there is none.
  lemma {:induction false} FetchedMeaning(rows: seq<Row>, user: UserId, org: Option<OrgId>)
    ensures forall r :: r in Fetched(rows, user, org) <==>
              r in rows && r.userId == user && (forall o :: org == Some(o) ==> r.orgId == Some(o))
  {
    if rows != [] {
      var front, last := rows[..|rows| - 1], rows[|rows| - 1];
      FetchedMeaning(front, user, org);
      assert rows == front + [last];
      assert Matches(last, user, org) <==> last.userId == user && forall o :: org == Some(o) ==> last.orgId == Some(o);
    }
  }

  // ----- the round trip -----

  lemma PutNew(d: Kwargs, key: string, value: Value)
    requires forall i :: 0 <= i < |d| ==> d[i].key != key
    ensures Put(d, key, value) == d + [Entry(key, value)]
  {
  }

  lemma {:induction false} CollectedDistinct(rows: seq<Row>)
    requires forall i, j :: 0 <= i < j < |rows| ==> rows[i].name != rows[j].name
    ensures |Collected(rows)| == |rows|
    ensures forall i :: 0 <= i < |rows| ==> Collected(rows)[i] == EntryOf(rows[i])
  {
    if rows != [] {
      var n := |rows| - 1;
      CollectedDistinct(rows[..n]);
      PutNew(Collected(rows[..n]), rows[n].name, EntryOf(rows[n]).value);
    }
  }

  lemma {:induction false} FetchedAppend(a: seq<Row>, b: seq<Row>, user: UserId, org: Option<OrgId>)
    ensures Fetched(a + b, user, org) == Fetched(a, user, org) + Fetched(b, user, org)
  {
    if b == [] {
      assert a + b == a;
    } else {
      var n := |b| - 1;
      assert (a + b)[..|a + b| - 1] == a + b[..n];
      FetchedAppend(a, b[..n], user, org);
    }
  }

  lemma {:induction false} OwnRowsFetched(rows: seq<Row>, user: UserId, org: Option<OrgId>)
    requires forall r <- rows :: r.userId == user && r.orgId == org
    ensures Fetched(rows, user, org) == rows
  {
    if rows != [] { OwnRowsFetched(rows[..|rows| - 1], user, org); }
  }

  lemma {:induction false} NoRowFetched(rows: seq<Row>, user: UserId, org: Option<OrgId>)
    requires forall r <- rows :: !Matches(r, user, org)
    ensures Fetched(rows, user, org) == []
  {
    if rows != [] { NoRowFetched(rows[..|rows| - 1], user, org); }
  }

  lemma {:induction false} OthersFetched(rows: seq<Row>, user: UserId, other: UserId, org: Option<OrgId>)
    ensures forall r <- Others(rows, user) :: r.userId != user
    ensures other != user ==> Fetched(Others(rows, user), other, org) == Fetched(rows, other, org)
  {
    if rows != [] {
      var front, last := rows[..|rows| - 1], rows[|rows| - 1];
      OthersFetched(front, user, other, org);
      if last.userId != user {
        assert Others(rows, user) == Others(front, user) + [last];
        assert Others(rows, user)[..|Others(front, user)|] == Others(front, user);
      }
    }
  }

  lemma {:induction false} SealedKeepsNames(c: Cipher, d: Kwargs, n: nat)
    ensures forall i :: 0 <= i < |d| ==> EncryptKwargs(c, d, n)[i].key == d[i].key
  {
    if d != [] { SealedKeepsNames(c, d[1..], n + Texts(d[..1])); }
  }

  function AsMap(items: seq<Item>): map<string, Secret> {
    if items == [] then map[]
    else AsMap(items[..|items| - 1])[items[|items| - 1].name := items[|items| - 1].secret]
  }

  lemma {:induction false} ValidatedDump(items: seq<Item>)
    ensures Validated(Dumped(items)) == AsMap(items)
  {
    if items != [] {
      var n := |items| - 1;
      assert Dumped(items)[..n] == Dumped(items[..n]);
      ValidatedDump(items[..n]);
    }
  }

  lemma {:induction false} AsMapMeaning(items: seq<Item>)
    requires DistinctNames(items)
    ensures forall name :: name in AsMap(items) <==> exists i :: 0 <= i < |items| && items[i].name == name
    ensures forall i :: 0 <= i < |items| ==> items[i].name in AsMap(items) && AsMap(items)[items[i].name] == items[i].secret
  {
    if items != [] {
      var n := |items| - 1;
      AsMapMeaning(items[..n]);
      assert forall i :: 0 <= i < n ==> items[..n][i] == items[i];
    }
  }

  lemma OnlyOwnFetched(before: seq<Row>, own: seq<Row>, user: UserId, org: Option<OrgId>)
    requires forall r <- own :: r.userId == user && r.orgId == org
    ensures Fetched(Others(before, user) + own, user, org) == own
  {
    FetchedAppend(Others(before, user), own, user, org);
    OthersFetched(before, user, user, org);
    NoRowFetched(Others(before, user), user, org);
    OwnRowsFetched(own, user, org);
  }

  lemma SealedCollected(c: Cipher, own: seq<Row>, user: UserId, org: Option<OrgId>, items: seq<Item>, n: nat)
    requires DistinctNames(items) && RowsFor(own, user, org, EncryptKwargs(c, Dumped(items), n))
    ensures Collected(own) == EncryptKwargs(c, Dumped(items), n)
  {
    var sealed := EncryptKwargs(c, Dumped(items), n);
    SealedKeepsNames(c, Dumped(items), n);
    forall i | 0 <= i < |own| ensures own[i].name == items[i].name { assert EntryOf(own[i]) == sealed[i]; }
    CollectedDistinct(own);
  }

  // Whatever was stored before, a load in the same current org returns exactly what was stored.
  lemma LoadReturnsStored(c: Cipher, before: seq<Row>, after: seq<Row>, user: UserId, org: Option<OrgId>,
                          items: seq<Item>, n: nat)
    requires Inverse(c) && DistinctNames(items)
    requires Stored(before, after, user, org, EncryptKwargs(c, Dumped(items), n))
    ensures Loaded(after, user, org, c).Ok?
    ensures var back := Loaded(after, user, org, c).value;
            && (forall name :: name in back <==> exists i :: 0 <= i < |items| && items[i].name == name)
            && (forall i :: 0 <= i < |items| ==> items[i].name in back && back[items[i].name] == items[i].secret)
  {
    var kept := Others(before, user);
    var own := after[|kept|..];
    assert after == kept + own;
    OnlyOwnFetched(before, own, user, org);
    SealedCollected(c, own, user, org, items, n);
    DecryptUndoesEncrypt(c, Dumped(items), n);
    ValidatedDump(items);
    AsMapMeaning(items);
  }

  lemma OthersAreUntouched(before: seq<Row>, after: seq<Row>, user: UserId, org: Option<OrgId>, sealed: Kwargs,
                           other: UserId, otherOrg: Option<OrgId>)
    requires Stored(before, after, user, org, sealed) && other != user
    ensures Fetched(after, other, otherOrg) == Fetched(before, other, otherOrg)
  {
    var kept := Others(before, user);
    var own := after[|kept|..];
    assert after == kept + own;
    FetchedAppend(kept, own, other, otherOrg);
    OthersFetched(before, user, other, otherOrg);
    NoRowFetched(own, other, otherOrg);
  }

  lemma SealedInfo(c: Cipher, secret: string, description: string, n: nat)
    ensures exists row: Row :: EncryptKwargs(c, Info(secret, Some(description)).entries, n) == EntryOf(row).value.entries
  {
    var d := Info(secret, Some(description)).entries;
    var last := EncryptKwargs(c, d[1..], n + Texts(d[..1]));
    assert d[1..][1..] == [];
    var description' := match last[0].value case Text(t) => Some(t) case _ => None;
    var row := Row("", None, "", c.enc(n, secret), description');
    assert EncryptKwargs(c, d, n) == EntryOf(row).value.entries;
  }

  lemma {:induction false} SealedShape(c: Cipher, items: seq<Item>, n: nat)
    ensures forall i :: 0 <= i < |items| ==>
              exists row: Row :: EncryptKwargs(c, Dumped(items), n)[i].value == EntryOf(row).value
  {
    if items != [] {
      var d := Dumped(items);
      assert d[1..] == Dumped(items[1..]);
      SealedInfo(c, items[0].secret.secret, items[0].secret.description, n);
      SealedShape(c, items[1..], n + Texts(d[..1]));
    }
  }

  // A store also takes the user's secrets in every other organization.
  lemma OtherOrgsAreErased(before: seq<Row>, after: seq<Row>, user: UserId, org: Option<OrgId>, sealed: Kwargs, other: OrgId)
    requires Stored(before, after, user, org, sealed) && org != Some(other)
    ensures Fetched(after, user, Some(other)) == []
  {
    var kept := Others(before, user);
    var own := after[|kept|..];
    assert after == kept + own;
    FetchedAppend(kept, own, user, Some(other));
    OthersFetched(before, user, user, Some(other));
    NoRowFetched(kept, user, Some(other));
    NoRowFetched(own, user, Some(other));
  }

  // ----- loading rows that were written elsewhere -----

  // The row that speaks for a name: the last one fetched.
  function LastNamed(rows: seq<Row>, name: string): Option<Row> {
    if rows == [] then None
    else if rows[|rows| - 1].name == name then Some(rows[|rows| - 1])
    else LastNamed(rows[..|rows| - 1], name)
  }

  ghost predicate DistinctKeys(d: Kwargs) {
    forall i, j :: 0 <= i < j < |d| ==> d[i].key != d[j].key
  }

  function Get(d: Kwargs, key: string): Option<Value> {
    if d == [] then None else if d[0].key == key then Some(d[0].value) else Get(d[1..], key)
  }

  lemma {:induction false} GetPut(d: Kwargs, key: string, value: Value, other: string)
    ensures Get(Put(d, key, value), other) == if other == key then Some(value) else Get(d, other)
  {
    if d != [] && d[0].key != key { GetPut(d[1..], key, value, other); }
  }

  lemma {:induction false} PutKeys(d: Kwargs, key: string, value: Value)
    requires DistinctKeys(d)
    ensures DistinctKeys(Put(d, key, value))
    ensures forall e <- Put(d, key, value) :: e.key == key || exists e' <- d :: e'.key == e.key
  {
    if d != [] && d[0].key != key {
      PutKeys(d[1..], key, value);
      forall e | e in Put(d[1..], key, value) ensures e.key != d[0].key {
        if e.key != key {
          var e' :| e' in d[1..] && e'.key == e.key;
        }
      }
    }
  }

  lemma {:induction false} CollectedMeaning(rows: seq<Row>, name: string)
    ensures DistinctKeys(Collected(rows))
    ensures Get(Collected(rows), name) ==
            match LastNamed(rows, name) case Some(row) => Some(EntryOf(row).value) case None => None
  {
    if rows != [] {
      var front, last := rows[..|rows| - 1], rows[|rows| - 1];
      CollectedMeaning(front, name);
      PutKeys(Collected(front), last.name, EntryOf(last).value);
      GetPut(Collected(front), last.name, EntryOf(last).value, name);
    }
  }

  lemma {:induction false} DecryptGet(c: Cipher, d: Kwargs, key: string)
    requires DecryptKwargs(c, d).Some?
    ensures var p := DecryptKwargs(c, d).value;
            && |p| == |d| && (forall i :: 0 <= i < |d| ==> p[i].key == d[i].key)
            && match Get(d, key)
               case Some(Dict(entries)) =>
                 DecryptKwargs(c, entries).Some? && Get(p, key) == Some(Dict(DecryptKwargs(c, entries).value))
               case Some(_) => Get(p, key).Some?
               case None => Get(p, key) == None
  {
    if d != [] {
      var p := DecryptKwargs(c, d).value;
      DecryptGet(c, d[1..], key);
      assert p[1..] == DecryptKwargs(c, d[1..]).value;
    }
  }

  lemma {:induction false} GetSnoc(d: Kwargs, e: Entry, key: string)
    ensures Get(d + [e], key) ==
            if Get(d, key).Some? then Get(d, key) else if e.key == key then Some(e.value) else None
    ensures Get(d, key).Some? ==> exists e' <- d :: e'.key == key
  {
    if d != [] {
      assert (d + [e])[1..] == d[1..] + [e];
      GetSnoc(d[1..], e, key);
    }
  }

  lemma {:induction false} ValidatedGet(d: Kwargs, key: string)
    requires DistinctKeys(d)
    ensures key in Validated(d) <==> Get(d, key).Some? && SecretOf(Get(d, key).value).Some?
    ensures key in Validated(d) ==> Validated(d)[key] == SecretOf(Get(d, key).value).value
  {
    if d != [] {
      var n := |d| - 1;
      assert d == d[..n] + [d[n]];
      ValidatedGet(d[..n], key);
      GetSnoc(d[..n], d[n], key);
    }
  }

  lemma DecryptCons(c: Cipher, e: Entry, rest: Kwargs)
    requires DecryptKwargs(c, [e] + rest).Some? && !e.value.Dict?
    ensures DecryptKwargs(c, rest).Some?
    ensures var value := match e.value case Text(t) => Text(c.dec(t).value) case _ => Null;
            && (e.value.Text? ==> c.dec(e.value.text).Some?)
            && DecryptKwargs(c, [e] + rest) == Some([Entry(e.key, value)] + DecryptKwargs(c, rest).value)
  {
    assert ([e] + rest)[1..] == rest;
  }

  lemma DecryptInfo(c: Cipher, row: Row)
    requires DecryptKwargs(c, EntryOf(row).value.entries).Some?
    ensures var p := Dict(DecryptKwargs(c, EntryOf(row).value.entries).value);
            && (SecretOf(p).Some? <==> row.description.Some?)
            && (row.description.Some? ==>
                  (c.dec(row.value), c.dec(row.description.value)) ==
                  (Some(SecretOf(p).value.secret), Some(SecretOf(p).value.description)))
  {
    var first, second := Entry("secret", Text(row.value)), Entry("description", OrNull(row.description));
    assert EntryOf(row).value.entries == [first] + [second];
    DecryptCons(c, first, [second]);
    assert [second] == [second] + [];
    DecryptCons(c, second, []);
  }

  // Whoever wrote the rows: a name comes back exactly if the row that speaks for it has a description, with what
  // that row decrypts to.  A row with a null description is lost.
  lemma RowComesBackExactlyWithDescription(rows: seq<Row>, user: UserId, org: Option<OrgId>, c: Cipher, name: string)
    requires Loaded(rows, user, org, c).Ok?
    ensures var back, row := Loaded(rows, user, org, c).value, LastNamed(Fetched(rows, user, org), name);
            && (name in back <==> row.Some? && row.value.description.Some?)
            && (name in back ==>
                  (c.dec(row.value.value), c.dec(row.value.description.value)) ==
                  (Some(back[name].secret), Some(back[name].description)))
  {
    var fetched := Fetched(rows, user, org);
    var d := Collected(fetched);
    CollectedMeaning(fetched, name);
    DecryptGet(c, d, name);
    var p := DecryptKwargs(c, d).value;
    assert DistinctKeys(p);
    ValidatedGet(p, name);
    var row := LastNamed(fetched, name);
    if row.Some? { DecryptInfo(c, row.value); }
  }

  // ----- the store -----

  class Store {
    const userId: UserId
    const cipher: Cipher
    var rows: seq<Row>
    var nonce: nat

    constructor (userId: UserId, cipher: Cipher, rows: seq<Row>)
      ensures this.userId == userId && this.cipher == cipher && this.rows == rows
    {
      this.userId, this.cipher, this.rows, nonce := userId, cipher, rows, 0;
    }

    // currentOrg is None when the user does not exist: reading his current org then raises.
    method StoreSecrets(currentOrg: Option<Option<OrgId>>, items: seq<Item>) returns (raised: bool)
      modifies this
      ensures raised <==> currentOrg.None?
      ensures raised ==> rows == old(rows)
      ensures !raised ==>
                Stored(old(rows), rows, userId, currentOrg.value, EncryptKwargs(cipher, Dumped(items), old(nonce)))
    {
      if currentOrg.None? { return true; }
      var kept := Others(rows, userId);
      var sealed := EncryptKwargs(cipher, Dumped(items), nonce);
      SealedShape(cipher, items, nonce);
      var added: seq<Row> := [];
      for i := 0 to |sealed|
        invariant RowsFor(added, userId, currentOrg.value, sealed[..i])
      {
        var info := sealed[i].value.entries;
        added := added + [Row(userId, currentOrg.value, sealed[i].key, info[0].value.text,
                              if info[1].value.Text? then Some(info[1].value.text) else None)];
      }
      assert sealed[..|sealed|] == sealed;
      assert (kept + added)[|kept|..] == added;
      rows, nonce := kept + added, nonce + Texts(Dumped(items));
      raised := false;
    }

    method LoadSecrets(currentOrg: Option<Option<OrgId>>) returns (r: Result<Option<map<string, Secret>>, string>)
      ensures userId == "" ==> r == Ok(None)
      ensures userId != "" ==>
                match Loaded(rows, userId, if currentOrg.Some? then currentOrg.value else None, cipher)
                case Ok(secrets) => r == Ok(Some(secrets))
                case Err(e) => r == Err(e)
    {
      if userId == "" { return Ok(None); }
      var org := if currentOrg.Some? then currentOrg.value else None;
      var fetched := Fetched(rows, userId, org);
      if fetched == [] { return Ok(Some(map[])); }
      var kwargs: Kwargs := [];
      for i := 0 to |fetched|
        invariant kwargs == Collected(fetched[..i])
      {
        assert fetched[..i + 1][..i] == fetched[..i];
        kwargs := Put(kwargs, fetched[i].name, Info(fetched[i].value, fetched[i].description));
      }
      assert fetched[..|fetched|] == fetched;
      match DecryptKwargs(cipher, kwargs) {
        case None => r := Err("InvalidToken");
        case Some(d) => r := Ok(Some(Validated(d)));
      }
    }
  }
}
