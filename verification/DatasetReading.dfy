/**
 * Reading a dataset together with its access levels. The loop asks for the first page of entries and then, turn
 * after turn, for the page behind that first one.
 */
module DatasetReading {
  import opened Prelude
  import opened PermissionKeys
  import opened PermissionStore
  import opened AccessLevels

  /** More entries than two pages hold are never read to the end. */
  const TWO_PAGES := 2 * DEFAULT_API_PAGE_SIZE

  // ----- Which pagings end -----

  /** One page as served. */
  datatype Read = Read(rows: seq<Row>, next: Option<nat>)

  /** What the database may serve as read number `n`: the first page, and from then on the page behind `first`. */
  ghost predicate Permitted(all: seq<Row>, least: nat, first: Read, n: nat, read: Read) {
    if n == 0 then read == first && PageOf(all, 0, DEFAULT_API_PAGE_SIZE, least, read.rows, read.next)
    else first.next.Some? && PageOf(all, first.next.value, DEFAULT_API_PAGE_SIZE, least, read.rows, read.next)
  }

  /** Everything the database would serve to a call, turn by turn, for as long as the call asks. */
  type Paging = nat -> Read

  ghost predicate PermittedPaging(all: seq<Row>, least: nat, paging: Paging) {
    forall n: nat :: n == 0 || paging(0).next.Some? ==> Permitted(all, least, paging(0), n, paging(n))
  }

  /** The call ends with the first page that has no successor. */
  ghost predicate Ends(paging: Paging) {
    exists n: nat :: paging(n).next.None?
  }

  lemma SmallListingEnds(all: seq<Row>, least: nat, paging: Paging)
    requires PermittedPaging(all, least, paging) && |all| <= Min(least, DEFAULT_API_PAGE_SIZE)
    ensures Ends(paging)
  {
    assert Permitted(all, least, paging(0), 0, paging(0));
    if paging(0).next.Some? {
      assert Permitted(all, least, paging(0), 1, paging(1));
      assert paging(1).next.None?;
    }
  }

  /** Whatever the database serves the call ends, if and only if every first page shows the whole listing. */
  lemma EveryPagingEndsIff(all: seq<Row>, least: nat)
    requires least > 0
    ensures (forall paging :: PermittedPaging(all, least, paging) ==> Ends(paging))
       <==> |all| <= Min(least, 50)
  {
    var m := Min(least, DEFAULT_API_PAGE_SIZE);
    if |all| <= m {
      forall paging | PermittedPaging(all, least, paging)
        ensures Ends(paging)
      {
        SmallListingEnds(all, least, paging);
      }
    } else {
      var end := m + Min(DEFAULT_API_PAGE_SIZE, |all| - m);
      var first, again := Read(all[..m], Some(m)), Read(all[m..end], Some(end));
      var paging: Paging := n => if n == 0 then first else again;
      assert Permitted(all, least, first, 0, first);
      assert forall n: nat :: n > 0 ==> Permitted(all, least, first, n, again);
      assert PermittedPaging(all, least, paging) && !Ends(paging);
    }
  }

  /** The call can end at all if and only if two pages can hold the listing; beyond that no turn is the last. */
  lemma SomePagingEndsIff(all: seq<Row>, least: nat)
    requires least > 0
    ensures (exists paging :: PermittedPaging(all, least, paging) && Ends(paging)) <==> |all| <= 100
  {
    if paging: Paging :| PermittedPaging(all, least, paging) && Ends(paging) {
      var n: nat :| paging(n).next.None?;
      assert Permitted(all, least, paging(0), 0, paging(0));
      if paging(0).next.Some? {
        assert Permitted(all, least, paging(0), n, paging(n));
      }
    }
    if |all| <= TWO_PAGES {
      var m := Min(DEFAULT_API_PAGE_SIZE, |all|);
      var first := Read(all[..m], if m == |all| then None else Some(m));
      var second := Read(all[m..], None);
      var paging: Paging := n => if n == 0 then first else second;
      assert Permitted(all, least, first, 0, first);
      assert first.next.Some? ==> forall n: nat :: n > 0 ==> Permitted(all, least, first, n, second);
      assert PermittedPaging(all, least, paging);
      assert paging(1).next.None?;
    }
  }

  /** Both bounds in terms of the entries a dataset has, however the database orders them. */
  lemma ReadingEndsIff(rows: seq<Row>, perms: Perms, d: string, least: nat)
    requires Represents(rows, perms) && least > 0
    ensures (forall paging :: PermittedPaging(DatasetRows(rows, d), least, paging) ==> Ends(paging))
       <==> |Entries(perms, d)| <= Min(least, 50)
    ensures (exists paging :: PermittedPaging(DatasetRows(rows, d), least, paging) && Ends(paging))
       <==> |Entries(perms, d)| <= 100
  {
    ListingSize(rows, perms, d);
    EveryPagingEndsIff(DatasetRows(rows, d), least);
    SomePagingEndsIff(DatasetRows(rows, d), least);
    hide *;
  }

  // ----- The loop -----

  datatype Listing = Unended | Unlistable | Listed(permissions: seq<Access>)

  /** Only ALLOW entries are held on the dataset. */
  ghost predicate OnlyAllows(perms: Perms, d: string) {
    forall k :: k in perms && OnSubject(k, DATASET_SUBJECT, d, None) ==> k.effect == ALLOW
  }

  /** The reads a call has made: each as permitted, and none but the last without successor. */
  ghost predicate ReadsMade(all: seq<Row>, least: nat, served: seq<Read>) {
    && served != []
    && (forall i :: 0 <= i < |served| ==> Permitted(all, least, served[0], i, served[i]))
    && (forall i :: 0 <= i < |served| - 1 ==> served[i].next.Some?)
  }

  /** The level is held: an UPDATE stands for read-write, a READ for read-only. */
  ghost predicate IsHeld(perms: Perms, d: string, a: Access) {
    AccessKey(d, if a.level == ReadWrite then UPDATE else READ, a.identity) in perms
  }

  ghost predicate AllHeld(perms: Perms, d: string, accesses: seq<Access>) {
    forall a :: a in accesses ==> IsHeld(perms, d, a)
  }

  ghost predicate Includes(accesses: seq<Access>, part: seq<Access>) {
    forall a :: a in part ==> a in accesses
  }

  /**
   * Lists the access levels on a dataset, watched for at most `turns` turns of the loop. Every turn passes the
   * first page's token again, so it reads the page behind the first one once more.
   */
  method ListPermissions(table: PermissionTable, d: string, turns: nat) returns (r: Listing, ghost served: seq<Read>)
    requires table.Valid()
    ensures ReadsMade(DatasetRows(table.rows, d), table.least, served) && |served| <= turns + 1
    ensures r == Unended ==> |served| == turns + 1 && served[turns].next.Some?
    ensures r.Listed? ==> served[|served| - 1].next.None?
    ensures r.Listed? ==> |Entries(table.perms, d)| <= TWO_PAGES
    ensures r == Unended && turns > 0 ==> |Entries(table.perms, d)| > Min(table.least, DEFAULT_API_PAGE_SIZE)
    ensures OnlyAllows(table.perms, d) ==> r != Unlistable
    ensures OnlyAllows(table.perms, d) && r.Listed? ==>
      forall id :: Best(r.permissions, id) == LevelHeld(table.perms, d, id)
  {
    var page;
    page, served := ReadFirst(table, d);
    if page.Failure? {
      return Unlistable, served;
    }
    hide Progress, OnlyAllows, Entries, LevelHeld, Best, ReadsMade, DatasetRows;
    var token := page.value.next;
    var permissions, next := page.value.permissions, token;
    var n: nat := 0;
    while next.Some? && n < turns
      invariant n <= turns && |served| == n + 1 && served[0].next == token && served[n].next == next
      invariant next.Some? ==> token.Some?
      invariant Progress(table.rows, table.perms, d, table.least, served, permissions)
      decreases turns - n
    {
      page, served := ReadAgain(table, d, token.value, permissions, served);
      n := n + 1;
      if page.Failure? {
        return Unlistable, served;
      }
      permissions := permissions + page.value.permissions;
      next := page.value.next;
    }
    ProgressTells(table.rows, table.perms, d, table.least, served, permissions);
    r := if next.Some? then Unended else Listed(permissions);
  }

  /** What a call knows between two turns: the reads made, and that what it collected covers the first and the last. */
  ghost predicate Progress(rows: seq<Row>, perms: Perms, d: string, least: nat, served: seq<Read>,
                           permissions: seq<Access>) {
    && ReadsMade(DatasetRows(rows, d), least, served)
    && Includes(permissions, LevelsOn(d, served[0])) && Includes(permissions, LevelsOn(d, served[|served| - 1]))
    && (OnlyAllows(perms, d) ==> AllHeld(perms, d, permissions))
  }

  method ReadFirst(table: PermissionTable, d: string)
    returns (page: Result<AccessPage, AccessError>, ghost served: seq<Read>)
    requires table.Valid()
    ensures |served| == 1 && ReadsMade(DatasetRows(table.rows, d), table.least, served)
    ensures OnlyAllows(table.perms, d) ==> page.Success?
    ensures page.Success? ==>
      && page.value.next == served[0].next
      && Progress(table.rows, table.perms, d, table.least, served, page.value.permissions)
  {
    ghost var scanned, next;
    page, scanned, next := GetAllDataSetAccessPermissions(table, d, None, 0);
    served := [Read(scanned, next)];
    assert Limit(None) == DEFAULT_API_PAGE_SIZE;
    hide *;
    ServedIsHeld(table.rows, table.perms, d, 0, table.least, served[0]);
    OneRead(DatasetRows(table.rows, d), table.least, served[0]);
    if page.Success? {
      ProgressOne(table.rows, table.perms, d, table.least, served[0], page.value.permissions);
    }
  }

  lemma ProgressOne(rows: seq<Row>, perms: Perms, d: string, least: nat, first: Read, levels: seq<Access>)
    requires ReadsMade(DatasetRows(rows, d), least, [first])
    requires levels == LevelsOn(d, first) && (OnlyAllows(perms, d) ==> AllHeld(perms, d, levels))
    ensures Progress(rows, perms, d, least, [first], levels)
  {
    hide ReadsMade, OnlyAllows, AllHeld, LevelsOn, DatasetRows;
  }

  /** One more turn, with the first page's token. */
  method ReadAgain(table: PermissionTable, d: string, token: nat, permissions: seq<Access>, ghost before: seq<Read>)
    returns (page: Result<AccessPage, AccessError>, ghost served: seq<Read>)
    requires table.Valid()
    requires Progress(table.rows, table.perms, d, table.least, before, permissions)
    requires before[0].next == Some(token) && before[|before| - 1].next.Some?
    ensures |served| == |before| + 1 && served[0] == before[0]
        && ReadsMade(DatasetRows(table.rows, d), table.least, served)
    ensures OnlyAllows(table.perms, d) ==> page.Success?
    ensures page.Success? ==>
      && page.value.next == served[|served| - 1].next
      && Progress(table.rows, table.perms, d, table.least, served, permissions + page.value.permissions)
  {
    ghost var scanned, next;
    assert Limit(None) == DEFAULT_API_PAGE_SIZE;
    assert ReadsMade(DatasetRows(table.rows, d), table.least, before);
    hide *;
    page, scanned, next := GetAllDataSetAccessPermissions(table, d, None, token);
    ServedIsHeld(table.rows, table.perms, d, token, table.least, Read(scanned, next));
    MoreRead(DatasetRows(table.rows, d), table.least, before, Read(scanned, next));
    served := before + [Read(scanned, next)];
    if page.Success? {
      ProgressMore(table.rows, table.perms, d, table.least, before, permissions, Read(scanned, next),
          page.value.permissions);
    }
  }

  lemma ProgressMore(rows: seq<Row>, perms: Perms, d: string, least: nat, before: seq<Read>, permissions: seq<Access>,
                     read: Read, more: seq<Access>)
    requires Progress(rows, perms, d, least, before, permissions)
        && ReadsMade(DatasetRows(rows, d), least, before + [read])
    requires more == LevelsOn(d, read) && (OnlyAllows(perms, d) ==> AllHeld(perms, d, more))
    ensures Progress(rows, perms, d, least, before + [read], permissions + more)
  {
    hide ReadsMade, OnlyAllows, AllHeld, LevelsOn, DatasetRows;
    AllHeldConcat(perms, d, permissions, more);
    hide Includes;
  }

  lemma ProgressTells(rows: seq<Row>, perms: Perms, d: string, least: nat, served: seq<Read>, permissions: seq<Access>)
    requires Represents(rows, perms) && Progress(rows, perms, d, least, served, permissions)
    ensures
      var last := served[|served| - 1].next;
      && ReadsMade(DatasetRows(rows, d), least, served)
      && (last.None? ==> |Entries(perms, d)| <= TWO_PAGES)
      && (last.Some? && |served| > 1 ==> |Entries(perms, d)| > Min(least, DEFAULT_API_PAGE_SIZE))
      && (last.None? && OnlyAllows(perms, d) ==> forall id :: Best(permissions, id) == LevelHeld(perms, d, id))
  {
    ListingSize(rows, perms, d);
    ReadsMadeBound(DatasetRows(rows, d), least, served);
    hide Represents, DatasetRows, ReadsMade, Entries, Best, LevelHeld;
    if served[|served| - 1].next.None? && OnlyAllows(perms, d) {
      ListedIsAll(rows, perms, d, least, served, permissions);
    }
  }

  lemma OneRead(all: seq<Row>, least: nat, first: Read)
    requires PageOf(all, 0, DEFAULT_API_PAGE_SIZE, least, first.rows, first.next)
    ensures ReadsMade(all, least, [first])
  {}

  lemma MoreRead(all: seq<Row>, least: nat, served: seq<Read>, read: Read)
    requires ReadsMade(all, least, served) && served[|served| - 1].next.Some?
    requires PageOf(all, served[0].next.value, DEFAULT_API_PAGE_SIZE, least, read.rows, read.next)
    ensures ReadsMade(all, least, served + [read])
  {}

  lemma AllHeldConcat(perms: Perms, d: string, a: seq<Access>, b: seq<Access>)
    ensures AllHeld(perms, d, a) && AllHeld(perms, d, b) ==> AllHeld(perms, d, a + b)
    ensures Includes(a + b, b) && forall part :: Includes(a, part) ==> Includes(a + b, part)
  {}

  /** What the reads of a call tell about the size of the listing. */
  lemma ReadsMadeBound(all: seq<Row>, least: nat, served: seq<Read>)
    requires ReadsMade(all, least, served)
    ensures
      var last := |served| - 1;
      && (served[last].next.None? ==> |all| <= TWO_PAGES)
      && (served[last].next.Some? && last > 0 ==> |all| > Min(least, DEFAULT_API_PAGE_SIZE))
  {
    var last := |served| - 1;
    assert Permitted(all, least, served[0], 0, served[0]);
    assert Permitted(all, least, served[0], last, served[last]);
  }

  /** The first page and the last one make up the listing, so what was collected reports every identity's level. */
  lemma ListedIsAll(rows: seq<Row>, perms: Perms, d: string, least: nat, served: seq<Read>, permissions: seq<Access>)
    requires Represents(rows, perms) && OnlyAllows(perms, d) && AllHeld(perms, d, permissions)
    requires ReadsMade(DatasetRows(rows, d), least, served) && served[|served| - 1].next.None?
    requires Includes(permissions, LevelsOn(d, served[0])) && Includes(permissions, LevelsOn(d, served[|served| - 1]))
    ensures forall id :: Best(permissions, id) == LevelHeld(perms, d, id)
  {
    var first, rest := served[0].rows, RestOf(served);
    WholeListingRead(DatasetRows(rows, d), least, served);
    NothingOn(d);
    hide Represents, DatasetRows, Summary, LevelEntries, OnlyAllows, ReadsMade, LevelHeld, Best, AllHeld, Includes;
    ReadWhole(rows, perms, d, first, rest);
    forall id
      ensures Best(permissions, id) == LevelHeld(perms, d, id)
    {
      BestIsHeld(perms, d, permissions, LevelsOn(d, served[0]), Summary(LevelEntries(rest, All()), d), id);
    }
  }

  /** The rows the last read adds to those of the first. */
  ghost function RestOf(served: seq<Read>): seq<Row>
    requires served != []
  {
    if |served| == 1 then [] else served[|served| - 1].rows
  }

  lemma WholeListingRead(all: seq<Row>, least: nat, served: seq<Read>)
    requires ReadsMade(all, least, served) && served[|served| - 1].next.None?
    ensures all == served[0].rows + RestOf(served)
  {
    assert Permitted(all, least, served[0], 0, served[0]);
    assert Permitted(all, least, served[0], |served| - 1, served[|served| - 1]);
  }

  lemma NothingOn(d: string)
    ensures Summary(LevelEntries([], All()), d) == []
  {
    assert LevelEntries([], All()) == [];
  }

  /** What is held throughout, and covers two lists that together report the levels held, reports them too. */
  lemma BestIsHeld(perms: Perms, d: string, all: seq<Access>, a: seq<Access>, b: seq<Access>, id: Identity)
    requires AllHeld(perms, d, all) && Includes(all, a) && Includes(all, b)
    requires Best(a + b, id) == LevelHeld(perms, d, id)
    ensures Best(all, id) == LevelHeld(perms, d, id)
  {
    assert IsHeld(perms, d, Access(id, ReadWrite)) <==> LevelHeld(perms, d, id) == Some(ReadWrite);
    assert IsHeld(perms, d, Access(id, ReadOnly)) ==> LevelHeld(perms, d, id).Some?;
    hide LevelHeld;
  }

  ghost function LevelsOn(d: string, read: Read): seq<Access> {
    Summary(LevelEntries(read.rows, All()), d)
  }

  /** A page of a dataset's entries holds nothing that is not held. */
  lemma PageIsHeld(rows: seq<Row>, perms: Perms, d: string, from: nat, scanned: seq<Row>)
    requires Represents(rows, perms)
    requires from + |scanned| <= |DatasetRows(rows, d)| && scanned == DatasetRows(rows, d)[from..from + |scanned|]
    ensures OnlyAllows(perms, d) ==> forall p :: p in LevelEntries(scanned, All()) ==> p.key.effect == ALLOW
    ensures OnlyAllows(perms, d) ==> AllHeld(perms, d, Summary(LevelEntries(scanned, All()), d))
  {
    var entries := LevelEntries(scanned, All());
    PageOnSubject(rows, perms, d, from, scanned, All());
    FilterMembers(LevelEntry(), Gathered(All(), scanned));
    hide Represents, DatasetRows, Gathered, RowOf;
    if OnlyAllows(perms, d) {
      forall p | p in entries
        ensures p.key == AccessKey(d, p.key.action, p.key.identity) && p.key in perms
      {}
      SummaryIsHeld(perms, d, entries);
    }
  }

  lemma ServedIsHeld(rows: seq<Row>, perms: Perms, d: string, start: nat, least: nat, read: Read)
    requires Represents(rows, perms)
        && PageOf(DatasetRows(rows, d), start, DEFAULT_API_PAGE_SIZE, least, read.rows, read.next)
    ensures OnlyAllows(perms, d) ==> forall p :: p in LevelEntries(read.rows, All()) ==> p.key.effect == ALLOW
    ensures OnlyAllows(perms, d) ==> AllHeld(perms, d, LevelsOn(d, read))
    ensures LevelsOn(d, read) == Summary(LevelEntries(read.rows, All()), d)
  {
    PageIsHeld(rows, perms, d, Min(start, |DatasetRows(rows, d)|), read.rows);
    hide Represents, DatasetRows, LevelEntries, Summary, OnlyAllows, AllHeld;
  }

  lemma SummaryIsHeld(perms: Perms, d: string, entries: seq<Permission>)
    requires forall p :: p in entries ==>
      p.key == AccessKey(d, p.key.action, p.key.identity) && p.key in perms && p.key.action in {READ, UPDATE}
    ensures AllHeld(perms, d, Summary(entries, d))
  {
    FirstSeenOnce(entries, d);
    var seen := FirstSeen(entries, d);
    forall i | 0 <= i < |seen|
      ensures IsHeld(perms, d, Reported(entries, d, seen[i]))
    {
      assert seen[i] in seen;
      assert Mentions(entries, d, seen[i]);
    }
  }

  lemma TwoPages(a: seq<Permission>, b: seq<Permission>, d: string, id: Identity)
    ensures Best(Summary(a, d) + Summary(b, d), id) == Best(Summary(a + b, d), id)
  {
    MentionsEither(a, b, d, id);
    BestOfSummary(a, d, id);
    BestOfSummary(b, d, id);
    BestOfSummary(a + b, d, id);
    hide Mentions, Updates, Summary;
  }

  lemma WholeListing(rows: seq<Row>, perms: Perms, d: string)
    requires Represents(rows, perms)
    ensures forall p :: p in LevelEntries(DatasetRows(rows, d), All()) <==>
      Holds(perms, p) && OnSubject(p.key, DATASET_SUBJECT, d, None) && LevelEntry()(p)
  {
    SubjectListing(rows, perms, DATASET_SUBJECT, d, None);
    KeepAll(DatasetRows(rows, d));
    FilterMembers(LevelEntry(), Gathered(All(), DatasetRows(rows, d)));
  }

  lemma WholeLevel(perms: Perms, entries: seq<Permission>, d: string, id: Identity)
    requires forall p ::
        p in entries <==>
          Holds(perms, p) && OnSubject(p.key, DATASET_SUBJECT, d, None) && LevelEntry()(p)
    requires OnlyAllows(perms, d)
    ensures Best(Summary(entries, d), id) == LevelHeld(perms, d, id)
  {
    BestOfSummary(entries, d, id);
    forall action | action in {READ, UPDATE} && AccessKey(d, action, id) in perms
      ensures Permission(AccessKey(d, action, id), perms[AccessKey(d, action, id)]) in entries
    {}
    forall p | p in entries
      ensures p.key == AccessKey(d, p.key.action, p.key.identity)
    {}
  }

  /** Two pages that make up the whole listing report every identity's level. */
  lemma ReadWhole(rows: seq<Row>, perms: Perms, d: string, first: seq<Row>, second: seq<Row>)
    requires Represents(rows, perms) && DatasetRows(rows, d) == first + second
    requires OnlyAllows(perms, d)
    ensures forall id ::
        Best(Summary(LevelEntries(first, All()), d) + Summary(LevelEntries(second, All()), d), id)
        == LevelHeld(perms, d, id)
  {
    var a, b := LevelEntries(first, All()), LevelEntries(second, All());
    GatherMore(All(), first, second);
    FilterConcat(LevelEntry(), Gathered(All(), first), Gathered(All(), second));
    assert a + b == LevelEntries(DatasetRows(rows, d), All());
    WholeListing(rows, perms, d);
    hide LevelEntries, Represents, Summary, LevelHeld, DatasetRows;
    forall id
      ensures Best(Summary(a, d) + Summary(b, d), id) == LevelHeld(perms, d, id)
    {
      TwoPages(a, b, d, id);
      WholeLevel(perms, a + b, d, id);
    }
  }
}
