/**
 * The table of identity permissions: all-or-nothing writes of at most 100 rows, paged and filtered reads by
 * subject and by identity, and the bulk deletes built from them.
 */
module PermissionStore {
  import opened Prelude
  import opened PermissionKeys

  /** One database row. `identity` is the partition key of the by-identity index. */
  datatype Row = Row(pk: string, sk: string, action: Action, effect: Effect, identity: string, payload: Payload)

  datatype StoreError =
    | ThroughputExceeded
    | CreationFailed      // the transaction was cancelled: some row already existed
    | InvalidTransaction  // the database refuses empty transactions and two operations on one row
    | InvalidQuery        // the database refuses an empty IN list

  datatype Page = Page(items: seq<Permission>, next: Option<nat>)

  const MAX_BATCH := 100
  const DEFAULT_API_PAGE_SIZE := 50
  const MAX_API_PAGE_SIZE := 1000

  type Perms = map<PermKey, Payload>

  // ----- Rows -----

  function RowOf(p: Permission): Row {
    Row(EncodePk(p.key), EncodeSk(p.key), p.key.action, p.key.effect, IdentityKey(p.key.identity), p.payload)
  }

  function DecodeRow(r: Row): Option<Permission> {
    match DecodeKey(r.pk, r.sk)
    case Some(k) => Some(Permission(k, r.payload))
    case None => None
  }

  /** Reads rows back, in order. In a table whose rows can all be read back none is skipped. */
  function DecodeAll(rows: seq<Row>): seq<Permission> {
    Collect(DecodeRow, rows)
  }

  ghost predicate DistinctRowKeys(rows: seq<Row>) {
    forall i, j :: 0 <= i < j < |rows| ==> rows[i].pk != rows[j].pk || rows[i].sk != rows[j].sk
  }

  predicate HasRow(rows: seq<Row>, pk: string, sk: string) {
    exists i :: 0 <= i < |rows| && rows[i].pk == pk && rows[i].sk == sk
  }

  ghost predicate Holds(perms: Perms, p: Permission) {
    p.key in perms && perms[p.key] == p.payload
  }

  /** The rows say exactly what `perms` says, one row each, and every id can be read back. */
  ghost predicate Represents(rows: seq<Row>, perms: Perms) {
    && DistinctRowKeys(rows)
    && (forall k :: k in perms ==> Clean(k) && RowOf(Permission(k, perms[k])) in rows)
    && (forall r :: r in rows ==>
          DecodeRow(r).Some? && Holds(perms, DecodeRow(r).value) && r == RowOf(DecodeRow(r).value))
  }

  /** No key, readable or not, can address the row of another, readable permission. */
  lemma RowAddressed(k: PermKey, other: PermKey)
    requires Clean(k)
    ensures EncodePk(k) == EncodePk(other) && EncodeSk(k) == EncodeSk(other) <==> k == other
  {
    PartitionKeyNamesSubject(k, other.subjectType, other.subjectId);
    if EncodeSk(k) == EncodeSk(other) {
      SortKeyInjective(k.action, k.effect, k.identity, other.action, other.effect, other.identity);
    }
  }

  lemma DecodeRowOf(p: Permission)
    requires Clean(p.key)
    ensures DecodeRow(RowOf(p)) == Some(p)
  {
    KeyRoundTripIff(p.key);
  }

  lemma RowPresent(rows: seq<Row>, perms: Perms, k: PermKey)
    requires Represents(rows, perms)
    ensures HasRow(rows, EncodePk(k), EncodeSk(k)) <==> k in perms
  {
    if k in perms {
      var r := RowOf(Permission(k, perms[k]));
      var i :| 0 <= i < |rows| && rows[i] == r;
    } else if HasRow(rows, EncodePk(k), EncodeSk(k)) {
      var i :| 0 <= i < |rows| && rows[i].pk == EncodePk(k) && rows[i].sk == EncodeSk(k);
      assert rows[i] in rows;
      RowAddressed(DecodeRow(rows[i]).value.key, k);
    }
  }

  // ----- Batches -----

  ghost predicate DistinctKeys(batch: seq<Permission>) {
    forall i, j :: 0 <= i < j < |batch| ==> batch[i].key != batch[j].key
  }

  ghost predicate AllClean(batch: seq<Permission>) {
    forall p :: p in batch ==> Clean(p.key)
  }

  ghost function KeysOf(batch: seq<Permission>): set<PermKey> {
    set p | p in batch :: p.key
  }

  ghost function BatchMap(batch: seq<Permission>): Perms {
    if batch == [] then map[]
    else BatchMap(batch[..|batch| - 1])[batch[|batch| - 1].key := batch[|batch| - 1].payload]
  }

  lemma {:induction false} BatchMapHolds(batch: seq<Permission>)
    requires DistinctKeys(batch)
    ensures BatchMap(batch).Keys == KeysOf(batch)
    ensures forall p :: p in batch ==> Holds(BatchMap(batch), p)
  {
    if batch == [] {
    } else {
      var front, last := batch[..|batch| - 1], batch[|batch| - 1];
      BatchMapHolds(front);
      assert batch == front + [last];
      assert forall i :: 0 <= i < |front| ==> front[i] == batch[i] && batch[i].key != last.key;
      assert KeysOf(batch) == KeysOf(front) + {last.key};
    }
  }

  /** What a create answers, judged on the permissions alone. */
  ghost function CreateError(perms: Perms, batch: seq<Permission>): Option<StoreError> {
    if |batch| > MAX_BATCH then Some(ThroughputExceeded)
    else if batch == [] || !DistinctKeys(batch) then Some(InvalidTransaction)
    else if KeysOf(batch) !! perms.Keys then None
    else Some(CreationFailed)
  }

  ghost function DeleteError(batch: seq<Permission>): Option<StoreError> {
    if |batch| > MAX_BATCH then Some(ThroughputExceeded)
    else if batch == [] || !DistinctKeys(batch) then Some(InvalidTransaction)
    else None
  }

  /** What deleting a batch answers, judged on the keys it addresses. */
  ghost function RowsDeleteError(batch: seq<Permission>): Option<StoreError> {
    if |batch| > MAX_BATCH then Some(ThroughputExceeded)
    else if batch == [] || !DistinctRowKeys(RowsOf(batch)) then Some(InvalidTransaction)
    else None
  }

  ghost function After<T, E>(error: Option<E>, before: T, after: T): T {
    if error.Some? then before else after
  }

  ghost function Answer<T, E>(error: Option<E>, value: T): Result<T, E> {
    if error.Some? then Failure(error.value) else Success(value)
  }

  /** The permissions of every other subject. */
  ghost function Without(perms: Perms, subjectType: string, subjectId: string): Perms {
    map k | k in perms && !OnSubject(k, subjectType, subjectId, None) :: perms[k]
  }

  lemma MinusTwice(perms: Perms, a: set<PermKey>, b: set<PermKey>)
    ensures perms - a - b == perms - (a + b)
  {}

  lemma ChunkOf(batch: seq<Permission>, i: nat, end: nat)
    requires AllClean(batch) && DistinctKeys(batch)
    requires i < end <= |batch| && end <= i + MAX_BATCH
    ensures DeleteError(batch[i..end]) == None && AllClean(batch[i..end])
    ensures KeysOf(batch[..end]) == KeysOf(batch[..i]) + KeysOf(batch[i..end])
  {
    var chunk := batch[i..end];
    assert batch[..end] == batch[..i] + chunk;
    assert forall j :: 0 <= j < |chunk| ==> chunk[j] == batch[i + j];
  }

  lemma WithoutSubject(perms: Perms, found: seq<Permission>, subjectType: string, subjectId: string)
    requires forall p :: p in found <==> Holds(perms, p) && OnSubject(p.key, subjectType, subjectId, None)
    ensures perms - KeysOf(found) == Without(perms, subjectType, subjectId)
  {
    forall k | k in perms
      ensures k in KeysOf(found) <==> OnSubject(k, subjectType, subjectId, None)
    {
      var p := Permission(k, perms[k]);
      assert p in found <==> OnSubject(k, subjectType, subjectId, None);
      if k in KeysOf(found) {
        var q :| q in found && q.key == k;
      }
    }
  }

  lemma DistinctHeld(perms: Perms, found: seq<Permission>)
    requires Distinct(found) && forall p :: p in found ==> Holds(perms, p)
    ensures DistinctKeys(found)
  {
    forall i, j | 0 <= i < j < |found|
      ensures found[i].key != found[j].key
    {
      assert found[i] in found && found[j] in found;
    }
  }

  // ----- Selections -----

  /** Without a filter nothing is left out. */
  lemma AllGathered(listing: seq<Row>)
    ensures Gathered(All(), listing) == DecodeAll(listing)
    ensures Gathered(All(), listing[..0]) == [] && listing[..|listing|] == listing
  {
    KeepAll(listing);
  }

  lemma {:induction false} KeepAll(s: seq<Row>)
    ensures Filter(All(), s) == s
  {
    if s == [] {
    } else {
      KeepAll(s[1..]);
    }
  }

  function InSubject(pk: string, prefix: string): Row -> bool {
    (r: Row) => r.pk == pk && prefix <= r.sk
  }

  function InIndex(identity: string): Row -> bool {
    (r: Row) => r.identity == identity
  }

  function IdentityIn(values: seq<string>): Row -> bool {
    (r: Row) => r.identity in values
  }

  function NotAddressed(rows: seq<Row>): Row -> bool {
    (r: Row) => !HasRow(rows, r.pk, r.sk)
  }

  function All(): Row -> bool {
    (r: Row) => true
  }

  function Prefix(action: Option<Action>): string {
    if action.None? then "" else ActionName(action.value)
  }

  function IdentityKeys(identities: seq<Identity>): (r: seq<string>)
    ensures |r| == |identities|
    ensures forall i :: 0 <= i < |r| ==> r[i] == IdentityKey(identities[i])
  {
    seq(|identities|, i requires 0 <= i < |identities| => IdentityKey(identities[i]))
  }

  function Limit(limit: Option<nat>): (r: nat)
    ensures limit.None? ==> r == 50
    ensures limit.Some? ==> r <= limit.value && r <= 1000 && (r == limit.value || r == 1000)
  {
    Min(if limit.None? then DEFAULT_API_PAGE_SIZE else limit.value, MAX_API_PAGE_SIZE)
  }

  ghost predicate OnSubject(k: PermKey, subjectType: string, subjectId: string, action: Option<Action>) {
    k.subjectType == subjectType && k.subjectId == subjectId && (action.Some? ==> k.action == action.value)
  }

  lemma SelectedBySubject(k: PermKey, payload: Payload, subjectType: string, subjectId: string, action: Option<Action>)
    requires Clean(k)
    ensures InSubject(PartitionKey(subjectType, subjectId), Prefix(action))(RowOf(Permission(k, payload)))
       <==> OnSubject(k, subjectType, subjectId, action)
  {
    PartitionKeyNamesSubject(k, subjectType, subjectId);
    if action.Some? {
      PrefixSelectsAction(k, action.value);
    } else {
      assert Prefix(action) == "" <= EncodeSk(k);
    }
  }

  lemma SelectedByIdentity(k: PermKey, payload: Payload, identities: seq<Identity>)
    ensures IdentityIn(IdentityKeys(identities))(RowOf(Permission(k, payload))) <==> k.identity in identities
  {
    var values := IdentityKeys(identities);
    forall i | 0 <= i < |values|
      ensures values[i] == IdentityKey(k.identity) <==> identities[i] == k.identity
    {
      IdentityKeyInjective(identities[i], k.identity);
    }
  }

  /** Reading back any selection of rows gives each selected permission once and nothing else. */
  lemma DecodedSelection(rows: seq<Row>, perms: Perms, keep: Row -> bool)
    requires Represents(rows, perms)
    ensures Distinct(DecodeAll(Filter(keep, rows)))
    ensures forall p :: p in DecodeAll(Filter(keep, rows)) <==> Holds(perms, p) && keep(RowOf(p))
  {
    var kept, decoded := Filter(keep, rows), DecodeAll(Filter(keep, rows));
    FilterMembers(keep, rows);
    FilterDistinct(keep, rows);
    assert forall i :: 0 <= i < |kept| ==> kept[i] in rows;
    CollectEach(DecodeRow, kept);
    DecodedOnce(rows, perms, kept);
    forall p
      ensures p in decoded <==> Holds(perms, p) && keep(RowOf(p))
    {
      if p in decoded {
        var i :| 0 <= i < |decoded| && decoded[i] == p;
        assert kept[i] in kept && kept[i] in rows;
      }
      if Holds(perms, p) && keep(RowOf(p)) {
        DecodeRowOf(p);
        assert p == Permission(p.key, perms[p.key]);
        var i :| 0 <= i < |kept| && kept[i] == RowOf(p);
        assert decoded[i] == p;
      }
    }
  }

  lemma DecodedOnce(rows: seq<Row>, perms: Perms, kept: seq<Row>)
    requires Represents(rows, perms) && Distinct(kept) && forall i :: 0 <= i < |kept| ==> kept[i] in rows
    requires |DecodeAll(kept)| == |kept|
    requires forall i :: 0 <= i < |kept| ==> DecodeRow(kept[i]) == Some(DecodeAll(kept)[i])
    ensures Distinct(DecodeAll(kept))
  {
    hide DecodeAll;
  }

  /** What a stretch of rows contributes once filtered. */
  function Gathered(filter: Row -> bool, rows: seq<Row>): seq<Permission> {
    DecodeAll(Filter(filter, rows))
  }

  lemma GatherMore(filter: Row -> bool, a: seq<Row>, b: seq<Row>)
    ensures Gathered(filter, a + b) == Gathered(filter, a) + Gathered(filter, b)
  {
    FilterConcat(filter, a, b);
    CollectConcat(DecodeRow, Filter(filter, a), Filter(filter, b));
  }

  /** A page of decoded permissions: the scanned run of the listing, filtered after the limit was applied. */
  ghost predicate PageServed(listing: seq<Row>, filter: Row -> bool, start: nat, limit: nat, least: nat,
                             scanned: seq<Row>, page: Page)
  {
    && PageOf(listing, start, limit, least, scanned, page.next)
    && page.items == Gathered(filter, scanned)
  }

  /** One page extends what has been gathered, and the walk moves on or is over. */
  lemma PageExtends(listing: seq<Row>, filter: Row -> bool, start: nat, limit: nat, least: nat, scanned: seq<Row>,
                    page: Page)
    requires start <= |listing| && PageServed(listing, filter, start, limit, least, scanned, page)
    ensures start + |scanned| <= |listing|
    ensures Gathered(filter, listing[..start + |scanned|]) == Gathered(filter, listing[..start]) + page.items
    ensures page.next.None? ==> listing[..start + |scanned|] == listing
    ensures page.next.Some? ==> page.next.value == start + |scanned| && start < page.next.value
  {
    assert listing[..start + |scanned|] == listing[..start] + scanned;
    GatherMore(filter, listing[..start], scanned);
  }

  /** The listing a subject query pages through holds each permission on the subject once and no other. */
  lemma SubjectListing(rows: seq<Row>, perms: Perms, subjectType: string, subjectId: string, action: Option<Action>)
    requires Represents(rows, perms)
    ensures
      var listing := Filter(InSubject(PartitionKey(subjectType, subjectId), Prefix(action)), rows);
      && Distinct(DecodeAll(listing))
      && forall p :: p in DecodeAll(listing) <==> Holds(perms, p) && OnSubject(p.key, subjectType, subjectId, action)
  {
    DecodedSelection(rows, perms, InSubject(PartitionKey(subjectType, subjectId), Prefix(action)));
    forall p | Holds(perms, p)
      ensures InSubject(PartitionKey(subjectType, subjectId), Prefix(action))(RowOf(p))
         <==> OnSubject(p.key, subjectType, subjectId, action)
    {
      SelectedBySubject(p.key, p.payload, subjectType, subjectId, action);
      assert p == Permission(p.key, p.payload);
    }
  }

  function RowsOf(batch: seq<Permission>): (puts: seq<Row>)
    ensures |puts| == |batch|
    ensures forall i :: 0 <= i < |batch| ==> puts[i] == RowOf(batch[i])
  {
    seq(|batch|, i requires 0 <= i < |batch| => RowOf(batch[i]))
  }

  lemma DistinctRowsOf(batch: seq<Permission>)
    requires AllClean(batch)
    ensures DistinctRowKeys(RowsOf(batch)) <==> DistinctKeys(batch)
  {
    forall i, j | 0 <= i < j < |batch|
      ensures EncodePk(batch[i].key) == EncodePk(batch[j].key) && EncodeSk(batch[i].key) == EncodeSk(batch[j].key)
         <==> batch[i].key == batch[j].key
    {
      assert batch[i] in batch;
      RowAddressed(batch[i].key, batch[j].key);
    }
  }

  lemma RowsOfMembers(batch: seq<Permission>)
    ensures forall x :: x in RowsOf(batch) <==> exists p :: p in batch && x == RowOf(p)
  {
    forall i | 0 <= i < |batch|
      ensures RowsOf(batch)[i] in RowsOf(batch) && batch[i] in batch
    {}
  }

  /** The database cancels a create exactly when one of its permissions is already held. */
  lemma CancelledIffHeld(rows: seq<Row>, perms: Perms, batch: seq<Permission>)
    requires Represents(rows, perms)
    ensures (forall r :: r in RowsOf(batch) ==> !HasRow(rows, r.pk, r.sk)) <==> KeysOf(batch) !! perms.Keys
  {
    RowsOfMembers(batch);
    forall p | p in batch
      ensures HasRow(rows, EncodePk(p.key), EncodeSk(p.key)) <==> p.key in perms
    {
      RowPresent(rows, perms, p.key);
    }
    if KeysOf(batch) !! perms.Keys {
      forall r | r in RowsOf(batch)
        ensures !HasRow(rows, r.pk, r.sk)
      {
        var p :| p in batch && r == RowOf(p);
        assert p.key in KeysOf(batch);
      }
    } else {
      var k :| k in KeysOf(batch) && k in perms;
      var p :| p in batch && p.key == k;
      assert RowOf(p) in RowsOf(batch);
    }
  }

  lemma CreatedRepresents(before: seq<Row>, after: seq<Row>, perms: Perms, batch: seq<Permission>)
    requires Represents(before, perms)
    requires AllClean(batch) && DistinctKeys(batch) && KeysOf(batch) !! perms.Keys
    requires forall x :: x in after <==> x in before || x in RowsOf(batch)
    requires DistinctRowKeys(after)
    ensures Represents(after, perms + BatchMap(batch))
  {
    BatchMapHolds(batch);
    RowsOfMembers(batch);
    forall p | p in batch
      ensures DecodeRow(RowOf(p)) == Some(p)
    {
      DecodeRowOf(p);
    }
    hide DecodeRow, RowOf, Clean, BatchMap, RowsOf, DistinctKeys;
    var perms' := perms + BatchMap(batch);
    forall k | k in perms'
      ensures Clean(k) && RowOf(Permission(k, perms'[k])) in after
    {
      if k in BatchMap(batch) {
        var p :| p in batch && p.key == k;
        assert p == Permission(k, perms'[k]);
      }
    }
    forall r | r in after
      ensures DecodeRow(r).Some? && Holds(perms', DecodeRow(r).value) && r == RowOf(DecodeRow(r).value)
    {
      if r in RowsOf(batch) {
        var p :| p in batch && r == RowOf(p);
        assert p.key in KeysOf(batch);
      }
    }
  }

  lemma AddressedByBatch(k: PermKey, payload: Payload, batch: seq<Permission>)
    requires Clean(k)
    ensures NotAddressed(RowsOf(batch))(RowOf(Permission(k, payload))) <==> k !in KeysOf(batch)
  {
    forall i | 0 <= i < |batch|
      ensures EncodePk(k) == EncodePk(batch[i].key) && EncodeSk(k) == EncodeSk(batch[i].key) <==> k == batch[i].key
    {
      RowAddressed(k, batch[i].key);
    }
    if k in KeysOf(batch) {
      var p :| p in batch && p.key == k;
      var i :| 0 <= i < |batch| && batch[i] == p;
      assert RowsOf(batch)[i].pk == EncodePk(k);
    }
  }

  lemma {:induction false} FilterDistinctRowKeys(keep: Row -> bool, rows: seq<Row>)
    requires DistinctRowKeys(rows)
    ensures DistinctRowKeys(Filter(keep, rows))
  {
    if rows == [] {
    } else {
      FilterDistinctRowKeys(keep, rows[1..]);
      FilterMembers(keep, rows[1..]);
      var kept := Filter(keep, rows[1..]);
      assert forall i :: 0 <= i < |kept| ==> kept[i] in rows[1..];
    }
  }

  lemma DeletedRepresents(rows: seq<Row>, perms: Perms, batch: seq<Permission>)
    requires Represents(rows, perms)
    ensures Represents(Filter(NotAddressed(RowsOf(batch)), rows), perms - KeysOf(batch))
  {
    var keep := NotAddressed(RowsOf(batch));
    FilterMembers(keep, rows);
    FilterDistinctRowKeys(keep, rows);
    forall k | k in perms && k !in KeysOf(batch)
      ensures RowOf(Permission(k, perms[k])) in Filter(keep, rows)
    {
      AddressedByBatch(k, perms[k], batch);
    }
    forall r | r in Filter(keep, rows)
      ensures DecodeRow(r).Some? && Holds(perms - KeysOf(batch), DecodeRow(r).value)
    {
      var p := DecodeRow(r).value;
      AddressedByBatch(p.key, p.payload, batch);
      assert p == Permission(p.key, p.payload);
    }
  }

  /** What the database answers to a conditional put, judged on rows. */
  ghost function PutError(rows: seq<Row>, puts: seq<Row>): Option<StoreError> {
    if puts == [] || !DistinctRowKeys(puts) then Some(InvalidTransaction)
    else if forall r :: r in puts ==> !HasRow(rows, r.pk, r.sk) then None
    else Some(CreationFailed)
  }

  /** What creating a batch answers, judged on rows. */
  ghost function BatchError(rows: seq<Row>, batch: seq<Permission>): Option<StoreError> {
    if |batch| > MAX_BATCH then Some(ThroughputExceeded) else PutError(rows, RowsOf(batch))
  }

  /** No row stands under the key of any of these permissions. */
  ghost predicate AllFree(rows: seq<Row>, batch: seq<Permission>) {
    forall p, x :: p in batch && x in rows ==> x.pk != EncodePk(p.key) || x.sk != EncodeSk(p.key)
  }

  lemma BatchErrorIs(rows: seq<Row>, batch: seq<Permission>)
    ensures BatchError(rows, batch) ==
      if |batch| > 100 then Some(ThroughputExceeded)
      else if batch == [] || !DistinctRowKeys(RowsOf(batch)) then Some(InvalidTransaction)
      else if AllFree(rows, batch) then None
      else Some(CreationFailed)
    ensures |batch| <= 100 ==> BatchError(rows, batch) == PutError(rows, RowsOf(batch))
  {
    var puts := RowsOf(batch);
    if AllFree(rows, batch) {
      forall r | r in puts
        ensures !HasRow(rows, r.pk, r.sk)
      {
        var i :| 0 <= i < |puts| && puts[i] == r;
        assert batch[i] in batch;
      }
    } else {
      var p, x :| p in batch && x in rows && x.pk == EncodePk(p.key) && x.sk == EncodeSk(p.key);
      var i :| 0 <= i < |batch| && batch[i] == p;
      assert puts[i] in puts && HasRow(rows, puts[i].pk, puts[i].sk);
    }
  }

  lemma PutErrorIsCreateError(rows: seq<Row>, perms: Perms, batch: seq<Permission>)
    requires Represents(rows, perms) && AllClean(batch) && |batch| <= MAX_BATCH
    ensures PutError(rows, RowsOf(batch)) == CreateError(perms, batch)
  {
    DistinctRowsOf(batch);
    CancelledIffHeld(rows, perms, batch);
  }

  lemma Inserted(rows: seq<Row>, at: nat, row: Row)
    requires at <= |rows| && DistinctRowKeys(rows)
    requires forall r :: r in rows ==> r.pk != row.pk || r.sk != row.sk
    ensures DistinctRowKeys(rows[..at] + [row] + rows[at..])
    ensures forall r :: r in rows[..at] + [row] + rows[at..] <==> r in rows || r == row
  {
    assert rows == rows[..at] + rows[at..];
    assert forall k :: 0 <= k < |rows| ==> rows[k] in rows;
  }

  class PermissionTable {
    /** Rows in the order in which the database lists them; writes never reorder the rows that stay. */
    var rows: seq<Row>

    /** How many rows the database always fits into a page that the limit and the remaining rows allow. */
    const least: nat

    ghost var perms: Perms

    /** What the database itself keeps: no two rows under one key. */
    ghost predicate Usable()
      reads this
    {
      least > 0 && DistinctRowKeys(rows)
    }

    /** Moreover every row can be read back and the rows stand for the permission map. */
    ghost predicate Valid()
      reads this
    {
      Usable() && Represents(rows, perms)
    }

    constructor (least: nat)
      requires least > 0
      ensures Valid() && this.least == least
      ensures rows == [] && perms == map[]
    {
      this.least := least;
      rows := [];
      perms := map[];
    }

    // ----- The database's contract -----

    /** Puts rows conditional on their absence: all of them or none. */
    method TransactPut(puts: seq<Row>) returns (error: Option<StoreError>)
      requires |puts| <= MAX_BATCH
      requires DistinctRowKeys(rows)
      modifies this`rows
      ensures error == PutError(old(rows), puts)
      ensures error.Some? ==> rows == old(rows)
      ensures error.None? ==> forall r :: r in rows <==> r in old(rows) || r in puts
      ensures DistinctRowKeys(rows)
    {
      error := None;
      if puts == [] || exists i, j :: 0 <= i < j < |puts| && puts[i].pk == puts[j].pk && puts[i].sk == puts[j].sk {
        return Some(InvalidTransaction);
      }
      for i := 0 to |puts|
        invariant forall j :: 0 <= j < i ==> !HasRow(rows, puts[j].pk, puts[j].sk)
      {
        if HasRow(rows, puts[i].pk, puts[i].sk) {
          assert puts[i] in puts;
          return Some(CreationFailed);
        }
      }
      ghost var before := rows;
      for i := 0 to |puts|
        invariant forall r :: r in rows <==> r in before || r in puts[..i]
        invariant DistinctRowKeys(rows)
      {
        var at: nat :| at <= |rows|;
        assert puts[..i + 1] == puts[..i] + [puts[i]];
        assert forall r :: r in rows ==> r.pk != puts[i].pk || r.sk != puts[i].sk;
        Inserted(rows, at, puts[i]);
        rows := rows[..at] + [puts[i]] + rows[at..];
      }
    }

    /** Deletes by key, present or not: all of them in one step. */
    method TransactDelete(targets: seq<Row>) returns (error: Option<StoreError>)
      requires |targets| <= MAX_BATCH
      modifies this`rows
      ensures error == if targets == [] || !DistinctRowKeys(targets) then Some(InvalidTransaction) else None
      ensures rows == After(error, old(rows), Filter(NotAddressed(targets), old(rows)))
    {
      error := None;
      if targets == [] || exists i, j ::
          0 <= i < j < |targets| && targets[i].pk == targets[j].pk && targets[i].sk == targets[j].sk {
        return Some(InvalidTransaction);
      }
      rows := Filter(NotAddressed(targets), rows);
    }

    /** One page of the rows selected by key; the filter is applied after the limit, so a page can come back empty. */
    method Query(select: Row -> bool, filter: Row -> bool, limit: nat, start: nat)
      returns (items: seq<Row>, next: Option<nat>, ghost scanned: seq<Row>)
      requires limit > 0 && least > 0
      ensures PageOf(Filter(select, rows), start, limit, least, scanned, next)
      ensures items == Filter(filter, scanned)
      ensures |items| <= limit && forall r :: r in items ==> r in rows && select(r) && filter(r)
    {
      var page;
      page, next := TakePage(Filter(select, rows), start, limit, least);
      scanned := page;
      items := Filter(filter, page);
      FilterMembers(filter, page);
      FilterMembers(select, rows);
      hide Filter;
      assert forall r :: r in page ==> r in Filter(select, rows);
    }

    // ----- The permissions plugin -----

    /** Creates all of the batch or nothing; the answer is read off the rows whatever the ids look like. */
    method Create(batch: seq<Permission>) returns (r: Result<seq<Permission>, StoreError>)
      requires Usable()
      modifies this
      ensures Usable()
      ensures r == Answer(BatchError(old(rows), batch), batch)
      ensures r.Success? <==> 0 < |batch| <= 100 && DistinctRowKeys(RowsOf(batch)) && AllFree(old(rows), batch)
      ensures r == Failure(ThroughputExceeded) <==> |batch| > 100
      ensures r == Failure(InvalidTransaction) <==>
        batch == [] || (|batch| <= 100 && !DistinctRowKeys(RowsOf(batch)))
      ensures r.Success? ==> r.value == batch
      ensures r.Failure? ==> rows == old(rows) && perms == old(perms)
      ensures r.Success? ==> forall x :: x in rows <==> x in old(rows) || x in RowsOf(batch)
      ensures old(Valid()) && AllClean(batch) ==>
          && Valid()
          && r == Answer(CreateError(old(perms), batch), batch)
          && perms == After(CreateError(old(perms), batch), old(perms), old(perms) + BatchMap(batch))
    {
      BatchErrorIs(rows, batch);
      hide AllFree, BatchError, DistinctRowKeys;
      if |batch| > MAX_BATCH {
        return Failure(ThroughputExceeded);
      }
      ghost var represented := Represents(rows, perms) && AllClean(batch);
      if represented {
        PutErrorIsCreateError(rows, perms, batch);
      }
      var error := TransactPut(RowsOf(batch));
      if error.Some? {
        return Failure(error.value);
      }
      if represented {
        CreatedRepresents(old(rows), rows, perms, batch);
        perms := perms + BatchMap(batch);
      }
      return Success(batch);
    }

    /** Deletes the batch by its keys, whatever the ids look like; permissions that were not there are no error. */
    method Delete(batch: seq<Permission>) returns (r: Result<seq<Permission>, StoreError>)
      requires Usable()
      modifies this
      ensures Usable()
      ensures r == Answer(RowsDeleteError(batch), batch)
      ensures r == Failure(ThroughputExceeded) <==> |batch| > 100
      ensures r.Success? <==> 0 < |batch| <= 100 && DistinctRowKeys(RowsOf(batch))
      ensures r.Success? ==> r.value == batch
      ensures rows == After(RowsDeleteError(batch), old(rows), Filter(NotAddressed(RowsOf(batch)), old(rows)))
      ensures perms == After(RowsDeleteError(batch), old(perms), old(perms) - KeysOf(batch))
      ensures old(Valid()) ==> Valid()
      ensures AllClean(batch) ==> RowsDeleteError(batch) == DeleteError(batch)
    {
      if AllClean(batch) {
        DistinctRowsOf(batch);
      }
      if |batch| > MAX_BATCH {
        return Failure(ThroughputExceeded);
      }
      if Represents(rows, perms) {
        DeletedRepresents(rows, perms, batch);
      }
      FilterDistinctRowKeys(NotAddressed(RowsOf(batch)), rows);
      var error := TransactDelete(RowsOf(batch));
      if error.Some? {
        return Failure(error.value);
      }
      perms := perms - KeysOf(batch);
      return Success(batch);
    }

    /** Builds the values of the IN filter. */
    method FilterValues(identities: seq<Identity>) returns (values: seq<string>)
      ensures values == IdentityKeys(identities)
    {
      values := [];
      for i := 0 to |identities|
        invariant values == IdentityKeys(identities[..i])
      {
        values := values + [IdentityKey(identities[i])];
      }
      assert identities[..|identities|] == identities;
    }

    /** One page of a subject's permissions, narrowed to an action by key prefix and to identities by filter. */
    method PageBySubject(subjectType: string, subjectId: string, action: Option<Action>,
                         identities: Option<seq<Identity>>, limit: Option<nat>, start: nat)
      returns (r: Result<Page, StoreError>, ghost scanned: seq<Row>)
      requires Usable()
      requires limit.Some? ==> limit.value > 0
      ensures r.Failure? <==> identities.Some? && (|identities.value| > MAX_BATCH || identities.value == [])
      ensures r.Failure? ==> r.error == if identities.value == [] then InvalidQuery else ThroughputExceeded
      ensures r.Success? ==>
        PageServed(Filter(InSubject(PartitionKey(subjectType, subjectId), Prefix(action)), rows),
                   if identities.None? then All() else IdentityIn(IdentityKeys(identities.value)),
                   start, Limit(limit), least, scanned, r.value)
    {
      scanned := [];
      var filter := All();
      if identities.Some? {
        if |identities.value| > MAX_BATCH {
          return Failure(ThroughputExceeded), [];
        }
        var values := FilterValues(identities.value);
        if values == [] {
          return Failure(InvalidQuery), [];
        }
        filter := IdentityIn(values);
      }
      var select := InSubject(PartitionKey(subjectType, subjectId), Prefix(action));
      var items, next;
      items, next, scanned := Query(select, filter, Limit(limit), start);
      r := Success(Page(DecodeAll(items), next));
    }

    /** One page of an identity's permissions, read from the index. */
    method PageByIdentity(identity: Identity, limit: Option<nat>, start: nat) returns (r: Page, ghost scanned: seq<Row>)
      requires Usable()
      requires limit.Some? ==> limit.value > 0
      ensures PageServed(Filter(InIndex(IdentityKey(identity)), rows), All(), start, Limit(limit), least, scanned, r)
    {
      var select := InIndex(IdentityKey(identity));
      var items, next;
      items, next, scanned := Query(select, All(), Limit(limit), start);
      r := Page(DecodeAll(items), next);
    }

    /** Deletes a batch of any size in chunks the database accepts. */
    method DeleteInChunks(batch: seq<Permission>)
      requires Valid()
      requires AllClean(batch) && DistinctKeys(batch)
      modifies this
      ensures Valid()
      ensures perms == old(perms) - KeysOf(batch)
    {
      var i: nat := 0;
      while i < |batch|
        invariant i <= |batch| && Valid()
        invariant perms == old(perms) - KeysOf(batch[..i])
      {
        var end := Min(i + MAX_BATCH, |batch|);
        var chunk := batch[i..end];
        ChunkOf(batch, i, end);
        MinusTwice(old(perms), KeysOf(batch[..i]), KeysOf(chunk));
        var deleted := Delete(chunk);
        assert deleted.Success?;
        i := end;
      }
      assert batch[..i] == batch;
    }

    /** Reads everything held on a subject, page after page. */
    method ReadSubject(subjectType: string, subjectId: string) returns (found: seq<Permission>)
      requires Usable()
      ensures found == DecodeAll(Filter(InSubject(PartitionKey(subjectType, subjectId), Prefix(None)), rows))
    {
      ghost var listing := Filter(InSubject(PartitionKey(subjectType, subjectId), Prefix(None)), rows);
      hide *;
      AllGathered(listing);
      found := [];
      var start: nat := 0;
      while true
        invariant start <= |listing|
        invariant found == Gathered(All(), listing[..start])
        decreases |listing| - start
      {
        var page, scanned := PageBySubject(subjectType, subjectId, None, None, None, start);
        PageExtends(listing, All(), start, Limit(None), least, scanned, page.value);
        found := found + page.value.items;
        if page.value.next.None? {
          break;
        }
        start := page.value.next.value;
      }
    }

    /** Deletes everything held on a subject, chunk by chunk, and answers with what there was. */
    method DeleteSubject(subjectType: string, subjectId: string) returns (found: seq<Permission>)
      requires Valid()
      modifies this
      ensures Valid()
      ensures Distinct(found)
      ensures forall p :: p in found <==> Holds(old(perms), p) && OnSubject(p.key, subjectType, subjectId, None)
      ensures perms == Without(old(perms), subjectType, subjectId)
    {
      found := ReadSubject(subjectType, subjectId);
      SubjectListing(rows, perms, subjectType, subjectId, None);
      DistinctHeld(perms, found);
      WithoutSubject(perms, found, subjectType, subjectId);
      DeleteInChunks(found);
    }
  }
}
