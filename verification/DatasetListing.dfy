/**
 * Listing the datasets a user may read, page by page: a loop over backend pages that filters, collects past the
 * page size, sorts newest first, truncates and makes its own token.
 */
module DatasetListing {
  import opened Prelude
  import PermissionKeys
  import PermissionStore
  import Authorization
  import AccessLevels

  /** Who lists, and what the rule library makes of conditions and fields. */
  datatype Reader = Reader(userId: string, groups: seq<string>, matches: Authorization.Matcher)

  /** A dataset as listed; `createdAt` is its creation time. */
  datatype ListedDataSet = ListedDataSet(id: string, createdAt: int, owner: Option<string>)

  // ----- The backend listing -----

  /** Tokens name the last dataset already seen. */
  type Token = Option<string>

  ghost predicate DistinctIds(all: seq<ListedDataSet>) {
    forall i, j :: 0 <= i < j < |all| ==> all[i].id != all[j].id
  }

  function IndexOf(all: seq<ListedDataSet>, id: string): Option<nat> {
    if all == [] then None
    else if all[0].id == id then Some(0)
    else match IndexOf(all[1..], id) case Some(i) => Some(i + 1) case None => None
  }

  lemma {:induction false} IndexOfAt(all: seq<ListedDataSet>, i: nat)
    requires DistinctIds(all) && i < |all|
    ensures IndexOf(all, all[i].id) == Some(i)
  {
    if i == 0 {
    } else {
      assert all[0].id != all[i].id;
      IndexOfAt(all[1..], i - 1);
    }
  }

  /** Where a token resumes: after the dataset it names. */
  function Position(all: seq<ListedDataSet>, token: Token): nat {
    if token.None? then 0
    else match IndexOf(all, token.value) case Some(i) => i + 1 case None => 0
  }

  ghost predicate KnownToken(all: seq<ListedDataSet>, token: Token) {
    token.Some? ==> exists i :: 0 <= i < |all| && all[i].id == token.value
  }

  lemma PositionAfter(all: seq<ListedDataSet>, i: nat)
    requires DistinctIds(all) && i < |all|
    ensures Position(all, Some(all[i].id)) == i + 1 && KnownToken(all, Some(all[i].id))
  {
    IndexOfAt(all, i);
  }

  lemma {:induction false} IndexOfBound(all: seq<ListedDataSet>, id: string)
    ensures IndexOf(all, id).Some? ==> IndexOf(all, id).value < |all| && all[IndexOf(all, id).value].id == id
  {
    if all == [] {
    } else {
      IndexOfBound(all[1..], id);
    }
  }

  /** The metadata plugin's page: a run of the index, with a token naming its last dataset unless it ends the index. */
  method BackendPage(all: seq<ListedDataSet>, pageSize: nat, token: Token)
    returns (page: seq<ListedDataSet>, next: Token)
    requires pageSize > 0 && DistinctIds(all)
    ensures
      var from := Position(all, token);
      && from + |page| <= |all| && page == all[from..from + |page|] && |page| <= pageSize
      && (next.None? ==> from + |page| == |all|)
      && (next.Some? ==> page != [] && next == Some(page[|page| - 1].id))
  {
    if token.Some? {
      IndexOfBound(all, token.value);
    }
    var from := Position(all, token);
    var position;
    page, position := TakePage(all, from, pageSize, 1);
    next := if position.None? then None else Some(page[|page| - 1].id);
  }

  // ----- Newest first -----

  ghost predicate Newest(s: seq<ListedDataSet>) {
    forall i, j :: 0 <= i < j < |s| ==> s[i].createdAt >= s[j].createdAt
  }

  /** The index is newest first, with no two datasets created at the same instant. */
  ghost predicate NewestFirst(s: seq<ListedDataSet>) {
    forall i, j :: 0 <= i < j < |s| ==> s[i].createdAt > s[j].createdAt
  }

  ghost predicate OldestFirst(s: seq<ListedDataSet>) {
    forall i, j :: 0 <= i < j < |s| ==> s[i].createdAt < s[j].createdAt
  }

  function Insert(d: ListedDataSet, s: seq<ListedDataSet>): seq<ListedDataSet> {
    if s == [] || d.createdAt > s[0].createdAt then [d] + s else [s[0]] + Insert(d, s[1..])
  }

  /** The library sort by descending creation time. */
  function SortNewest(s: seq<ListedDataSet>): seq<ListedDataSet> {
    if s == [] then [] else Insert(s[|s| - 1], SortNewest(s[..|s| - 1]))
  }

  lemma {:induction false} InsertAdds(d: ListedDataSet, s: seq<ListedDataSet>)
    ensures multiset(Insert(d, s)) == multiset(s) + multiset{d}
  {
    if s == [] || d.createdAt > s[0].createdAt {
      assert multiset([d] + s) == multiset{d} + multiset(s);
    } else {
      InsertAdds(d, s[1..]);
      assert s == [s[0]] + s[1..];
      assert multiset([s[0]] + Insert(d, s[1..])) == multiset{s[0]} + multiset(Insert(d, s[1..]));
    }
  }

  lemma {:induction false} InsertSorts(d: ListedDataSet, s: seq<ListedDataSet>)
    requires Newest(s)
    ensures Newest(Insert(d, s))
  {
    if s == [] || d.createdAt > s[0].createdAt {
    } else {
      InsertSorts(d, s[1..]);
      InsertAdds(d, s[1..]);
      var rest := Insert(d, s[1..]);
      hide Insert;
      forall i | 0 <= i < |rest|
        ensures s[0].createdAt >= rest[i].createdAt
      {
        assert rest[i] in multiset(rest);
        assert rest[i] in multiset(s[1..]) + multiset{d};
      }
    }
  }

  lemma {:induction false} SortSorts(s: seq<ListedDataSet>)
    ensures Newest(SortNewest(s)) && multiset(SortNewest(s)) == multiset(s)
  {
    if s == [] {
    } else {
      SortSorts(s[..|s| - 1]);
      InsertSorts(s[|s| - 1], SortNewest(s[..|s| - 1]));
      InsertAdds(s[|s| - 1], SortNewest(s[..|s| - 1]));
      assert s == s[..|s| - 1] + [s[|s| - 1]];
    }
  }

  function CreatedAt(time: int): ListedDataSet -> bool {
    (d: ListedDataSet) => d.createdAt == time
  }

  lemma {:induction false} NoneSoNew(s: seq<ListedDataSet>, time: int)
    requires Newest(s) && (s == [] || s[0].createdAt < time)
    ensures Filter(CreatedAt(time), s) == []
  {
    if s == [] {
    } else {
      NoneSoNew(s[1..], time);
    }
  }

  lemma {:induction false} InsertStable(d: ListedDataSet, s: seq<ListedDataSet>, time: int)
    requires Newest(s)
    ensures Filter(CreatedAt(time), Insert(d, s)) == Filter(CreatedAt(time), s) + Filter(CreatedAt(time), [d])
  {
    FilterCons(CreatedAt(time), d, []);
    assert [d] + [] == [d];
    if s == [] || d.createdAt > s[0].createdAt {
      FilterCons(CreatedAt(time), d, s);
      NoneSoNew(s, d.createdAt);
    } else {
      InsertStable(d, s[1..], time);
      assert s == [s[0]] + s[1..] && Insert(d, s) == [s[0]] + Insert(d, s[1..]);
      hide Filter, Insert;
      FilterCons(CreatedAt(time), s[0], Insert(d, s[1..]));
      FilterCons(CreatedAt(time), s[0], s[1..]);
    }
  }

  /** The sort is stable: datasets created at one instant keep the order in which they arrived. */
  lemma {:induction false} SortStable(s: seq<ListedDataSet>, time: int)
    ensures Filter(CreatedAt(time), SortNewest(s)) == Filter(CreatedAt(time), s)
  {
    if s == [] {
    } else {
      var front, last := s[..|s| - 1], s[|s| - 1];
      SortStable(front, time);
      SortSorts(front);
      InsertStable(last, SortNewest(front), time);
      FilterConcat(CreatedAt(time), front, [last]);
      assert s == front + [last];
    }
  }

  lemma HeadsAgree(a: seq<ListedDataSet>, b: seq<ListedDataSet>)
    requires Newest(a) && NewestFirst(b) && multiset(a) == multiset(b) && b != []
    ensures a != [] && a[0] == b[0]
  {
    assert b[0] in multiset(b);
    assert b[0] in multiset(a);
    assert a[0] in multiset(a);
    assert a[0] in multiset(b);
    var i :| 0 <= i < |a| && a[i] == b[0];
    var j :| 0 <= j < |b| && b[j] == a[0];
  }

  lemma TailOf(s: seq<ListedDataSet>)
    requires s != []
    ensures multiset(s[1..]) == multiset(s) - multiset{s[0]}
  {
    assert s == [s[0]] + s[1..];
  }

  /** A newest-first order without ties is unique: whatever order datasets arrive in, they sort the same. */
  lemma {:induction false} UniqueOrder(a: seq<ListedDataSet>, b: seq<ListedDataSet>)
    requires Newest(a) && NewestFirst(b) && multiset(a) == multiset(b)
    ensures a == b
  {
    if b == [] {
      assert |multiset(a)| == 0;
    } else {
      HeadsAgree(a, b);
      TailOf(a);
      TailOf(b);
      UniqueOrder(a[1..], b[1..]);
      assert a == [a[0]] + a[1..] && b == [b[0]] + b[1..];
    }
  }

  // ----- One call -----

  datatype Reply = Reply(data: seq<ListedDataSet>, next: Token)

  /** What a call did: the stretch it scanned up to `end`, what it collected there sorted, and what it answered. */
  datatype Turn = Turn(end: nat, sorted: seq<ListedDataSet>, reply: Reply)

  /** The page that ends at `end` was asked for when no page's worth had been collected yet. */
  ghost predicate LastPage(all: seq<ListedDataSet>, keep: ListedDataSet -> bool, pageSize: nat, from: nat, end: nat) {
    exists m :: 0 <= from <= m <= end <= |all| && end <= m + pageSize && |Filter(keep, all[from..m])| < pageSize
  }

  lemma LastPageFrom(all: seq<ListedDataSet>, keep: ListedDataSet -> bool, pageSize: nat, from: nat, m: nat, end: nat)
    requires from <= m <= end <= |all| && end <= m + pageSize && |Filter(keep, all[from..m])| < pageSize
    ensures LastPage(all, keep, pageSize, from, end)
  {
    hide Filter;
  }

  /** A call answers for `all[from..]`: truncated and re-tokenised when it collected more than a page. */
  ghost predicate Answers(all: seq<ListedDataSet>, keep: ListedDataSet -> bool, pageSize: nat, from: nat, turn: Turn)
    requires pageSize > 0
  {
    && from <= turn.end <= |all|
    && Newest(turn.sorted) && multiset(turn.sorted) == multiset(Filter(keep, all[from..turn.end]))
    && |turn.sorted| < 2 * pageSize && LastPage(all, keep, pageSize, from, turn.end)
    && (|turn.sorted| >= pageSize || turn.end == |all|)
    && (from < |all| ==> from < turn.end)
    && if Overcollected(turn, pageSize) then
         turn.reply == Reply(turn.sorted[..pageSize], Some(turn.sorted[pageSize - 1].id))
       else
         && turn.reply.data == turn.sorted
         && (turn.reply.next.None? ==> turn.end == |all|)
         && (turn.reply.next.Some? ==> from < turn.end && turn.reply.next == Some(all[turn.end - 1].id))
  }

  /** The guard of the truncating branch. */
  predicate Overcollected(turn: Turn, pageSize: nat) {
    |turn.sorted| > pageSize
  }

  /** The authorization checks of one page complete in any order. */
  method CompleteInAnyOrder(s: seq<ListedDataSet>) returns (r: seq<ListedDataSet>)
    ensures multiset(r) == multiset(s) && |r| == |s|
  {
    r := [];
    for i := 0 to |s|
      invariant multiset(r) == multiset(s[..i]) && |r| == i
    {
      var at: nat :| at <= |r|;
      assert s[..i + 1] == s[..i] + [s[i]];
      assert r == r[..at] + r[at..];
      r := r[..at] + [s[i]] + r[at..];
    }
    assert s[..|s|] == s;
  }

  ghost predicate Permutes(a: seq<ListedDataSet>, b: seq<ListedDataSet>) {
    multiset(a) == multiset(b)
  }

  /** What has been collected so far is what the scanned stretch holds, in some order. */
  ghost predicate Collected(all: seq<ListedDataSet>, keep: ListedDataSet -> bool, from: nat, end: nat,
                            authed: seq<ListedDataSet>) {
    from <= end <= |all| && Permutes(authed, Filter(keep, all[from..end]))
  }

  lemma SameSum(a: seq<ListedDataSet>, b: seq<ListedDataSet>, c: seq<ListedDataSet>, d: seq<ListedDataSet>)
    requires Permutes(a, c) && Permutes(b, d)
    ensures Permutes(a + b, c + d)
  {}

  lemma CollectMore(all: seq<ListedDataSet>, keep: ListedDataSet -> bool, from: nat, end: nat,
                    page: seq<ListedDataSet>, authed: seq<ListedDataSet>, arrived: seq<ListedDataSet>)
    requires Collected(all, keep, from, end, authed)
    requires end + |page| <= |all| && page == all[end..end + |page|] && Permutes(arrived, Filter(keep, page))
    ensures Collected(all, keep, from, end + |page|, authed + arrived)
  {
    hide Filter, Permutes;
    FilterExtend(keep, all, from, end, end + |page|);
    SameSum(authed, arrived, Filter(keep, all[from..end]), Filter(keep, page));
  }

  /** The datasets a user may read, by the decision over the whole permission store. */
  ghost function ReadableBy(perms: PermissionStore.Perms, reader: Reader): ListedDataSet -> bool {
    (d: ListedDataSet) => AccessLevels.LevelGranted(perms, d.id, AccessLevels.ReadOnly,
        Authorization.Identities(reader.userId, reader.groups), reader.matches)
  }

  /** To be listed takes the right to read the dataset, and no more than that. */
  ghost predicate MayRead(perms: PermissionStore.Perms, reader: Reader, id: string) {
    Authorization.Grants(perms, Authorization.Operation(PermissionKeys.READ, "Dataset", id, None, map[]),
      Authorization.Identities(reader.userId, reader.groups), reader.matches)
  }

  lemma ReadableIs(perms: PermissionStore.Perms, reader: Reader)
    ensures forall d: ListedDataSet :: ReadableBy(perms, reader)(d) <==> MayRead(perms, reader, d.id)
  {
    hide Authorization.Grants;
  }

  /** A decision over this many groups fails, and so does the listing that asks for it. */
  predicate Undecided(reader: Reader) {
    |reader.groups| >= PermissionStore.MAX_BATCH
  }

  /** Checks every dataset of a page; being forbidden leaves it out, any other failure ends the listing. */
  method CheckPage(table: PermissionStore.PermissionTable, reader: Reader, page: seq<ListedDataSet>)
    returns (r: Option<seq<ListedDataSet>>)
    requires table.Valid()
    ensures r.None? <==> page != [] && Undecided(reader)
    ensures r.Some? ==> r.value == Filter(ReadableBy(table.perms, reader), page)
    ensures r.Some? ==> forall d :: d in r.value <==> d in page && MayRead(table.perms, reader, d.id)
  {
    ReadableIs(table.perms, reader);
    FilterMembers(ReadableBy(table.perms, reader), page);
    hide ReadableBy, MayRead;
    var readable := [];
    for i := 0 to |page|
      invariant readable == Filter(ReadableBy(table.perms, reader), page[..i])
      invariant i > 0 ==> !Undecided(reader)
    {
      var decision := AccessLevels.IsAuthorizedOnDataSet(table, page[i].id, AccessLevels.ReadOnly, reader.userId,
          reader.groups, reader.matches);
      if decision == Authorization.TooManyIdentities {
        return None;
      }
      FilterStep(ReadableBy(table.perms, reader), page, i);
      if decision == Authorization.Allowed {
        readable := readable + [page[i]];
      }
    }
    assert page[..|page|] == page;
    r := Some(readable);
  }

  /** One turn of the loop: fetch a page, check every dataset on it, keep the readable ones. */
  method CollectPage(all: seq<ListedDataSet>, table: PermissionStore.PermissionTable, reader: Reader, pageSize: nat,
                     last: Token, authed: seq<ListedDataSet>, ghost from: nat)
    returns (more: Option<seq<ListedDataSet>>, next: Token, ghost end: nat)
    requires table.Valid() && pageSize > 0 && DistinctIds(all) && KnownToken(all, last)
    requires Collected(all, ReadableBy(table.perms, reader), from, Position(all, last), authed)
    ensures more.None? <==> Position(all, last) < |all| && Undecided(reader)
    ensures more.Some? ==>
      && Collected(all, ReadableBy(table.perms, reader), from, end, more.value)
      && |more.value| <= |authed| + pageSize
    ensures Position(all, last) <= end <= |all| && end <= Position(all, last) + pageSize
    ensures next.None? ==> end == |all|
    ensures next.Some? ==>
        end > Position(all, last) && next == Some(all[end - 1].id) && KnownToken(all, next)
        && Position(all, next) == end
    ensures Position(all, last) < |all| ==> Position(all, last) < end
  {
    hide Position, Collected, KnownToken, DistinctIds, Filter, ReadableBy, Undecided;
    ghost var at := Position(all, last);
    var page;
    page, next := BackendPage(all, pageSize, last);
    end := at + |page|;
    if next.Some? {
      PositionAfter(all, end - 1);
    }
    var readable := CheckPage(table, reader, page);
    if readable.None? {
      return None, next, end;
    }
    var arrived := CompleteInAnyOrder(readable.value);
    CollectMore(all, ReadableBy(table.perms, reader), from, at, page, authed, arrived);
    FilterShorter(ReadableBy(table.perms, reader), page);
    more := Some(authed + arrived);
  }

  lemma {:induction false} FilterShorter(keep: ListedDataSet -> bool, s: seq<ListedDataSet>)
    ensures |Filter(keep, s)| <= |s|
  {
    if s == [] {
    } else {
      FilterShorter(keep, s[1..]);
    }
  }

  /** Collects readable datasets page by page until a page's worth is there or the index is exhausted. */
  method CollectPages(all: seq<ListedDataSet>, table: PermissionStore.PermissionTable, reader: Reader, pageSize: nat,
                      token: Token)
    returns (r: Option<seq<ListedDataSet>>, last: Token, ghost end: nat)
    requires table.Valid() && pageSize > 0 && DistinctIds(all) && KnownToken(all, token)
    ensures r.None? <==> Position(all, token) < |all| && Undecided(reader)
    ensures r.Some? ==>
      && |r.value| < 2 * pageSize && (|r.value| >= pageSize || last.None?)
      && LoopDone(all, ReadableBy(table.perms, reader), pageSize, Position(all, token), end, r.value, last)
  {
    ghost var from, keep := Position(all, token), ReadableBy(table.perms, reader);
    if token.Some? {
      IndexOfBound(all, token.value);
    }
    var authed := [];
    last := token;
    end := from;
    NothingYet(all, keep, from);
    hide *;
    var more := true;
    while more
      invariant from <= end <= |all| && Collected(all, keep, from, end, authed)
      invariant more ==> KnownToken(all, last) && Position(all, last) == end && |authed| < pageSize
      invariant !more ==> LoopDone(all, keep, pageSize, from, end, authed, last)
      invariant Undecided(reader) ==> end == from && (!more ==> from == |all|)
      decreases more, |all| - end
    {
      CollectedCount(all, keep, from, end, authed);
      ghost var at := end;
      var turn;
      turn, last, end := CollectPage(all, table, reader, pageSize, last, authed, from);
      if turn.None? {
        return None, last, end;
      }
      authed := turn.value;
      CollectedCount(all, keep, from, end, authed);
      LastPageFrom(all, keep, pageSize, from, at, end);
      more := |authed| < pageSize && last.Some?;
      if !more {
        LoopEnds(all, keep, pageSize, from, end, authed, last);
      }
    }
    r := Some(authed);
  }

  lemma NothingYet(all: seq<ListedDataSet>, keep: ListedDataSet -> bool, from: nat)
    requires from <= |all|
    ensures Collected(all, keep, from, from, [])
  {
    assert all[from..from] == [];
  }

  lemma LoopEnds(all: seq<ListedDataSet>, keep: ListedDataSet -> bool, pageSize: nat, from: nat, end: nat,
                 authed: seq<ListedDataSet>, last: Token)
    requires Collected(all, keep, from, end, authed) && LastPage(all, keep, pageSize, from, end)
    requires |authed| < 2 * pageSize && (|authed| >= pageSize || last.None?) && end <= |all|
    requires (from < |all| ==> from < end) && (last.None? ==> end == |all|)
    requires last.Some? ==> from < end && last == Some(all[end - 1].id)
    ensures LoopDone(all, keep, pageSize, from, end, authed, last)
  {
    hide Collected, LastPage;
  }

  lemma CollectedCount(all: seq<ListedDataSet>, keep: ListedDataSet -> bool, from: nat, end: nat,
                       authed: seq<ListedDataSet>)
    requires Collected(all, keep, from, end, authed)
    ensures from <= end <= |all| && |Filter(keep, all[from..end])| == |authed|
  {
    SameLength(authed, Filter(keep, all[from..end]));
  }

  /** One call of the listing; it fails with the first decision that does. */
  method ListDataSets(all: seq<ListedDataSet>, table: PermissionStore.PermissionTable, reader: Reader, pageSize: nat,
                      token: Token)
    returns (r: Option<Reply>, ghost turn: Turn)
    requires table.Valid() && pageSize > 0 && DistinctIds(all) && KnownToken(all, token)
    ensures r.None? <==> Position(all, token) < |all| && Undecided(reader)
    ensures r.Some? ==>
      && |r.value.data| <= pageSize && (|r.value.data| == pageSize || r.value.next.None?) && Newest(r.value.data)
      && (forall d :: d in r.value.data ==> d in all && MayRead(table.perms, reader, d.id))
      && r.value == turn.reply
      && Answers(all, ReadableBy(table.perms, reader), pageSize, Position(all, token), turn)
  {
    ghost var keep := ReadableBy(table.perms, reader);
    ReadableIs(table.perms, reader);
    hide ReadableBy, MayRead, Undecided, DistinctIds, KnownToken, Position;
    turn := Turn(0, [], Reply([], None));
    var collected, last, end := CollectPages(all, table, reader, pageSize, token);
    if collected.None? {
      return None, turn;
    }
    var authed := collected.value;
    var sorted := SortNewest(authed);
    SortSorts(authed);
    SameLength(sorted, authed);
    LoopAnswers(all, keep, pageSize, Position(all, token), end, authed, last, sorted);
    hide *;
    var reply;
    if |authed| > pageSize {
      last := Some(sorted[pageSize - 1].id);
      reply := Reply(sorted[..pageSize], last);
    } else {
      reply := Reply(sorted, last);
    }
    turn := Turn(end, sorted, reply);
    ShownAreReadable(all, keep, pageSize, Position(all, token), turn);
    r := Some(reply);
  }

  lemma SameLength(a: seq<ListedDataSet>, b: seq<ListedDataSet>)
    requires multiset(a) == multiset(b)
    ensures |a| == |b|
  {
    assert |multiset(a)| == |multiset(b)|;
  }

  /** Sorting, truncating and re-tokenising what the loop collected makes the answer. */
  lemma LoopAnswers(all: seq<ListedDataSet>, keep: ListedDataSet -> bool, pageSize: nat, from: nat, end: nat,
                    authed: seq<ListedDataSet>, last: Token, sorted: seq<ListedDataSet>)
    requires pageSize > 0 && LoopDone(all, keep, pageSize, from, end, authed, last)
    requires Newest(sorted) && multiset(sorted) == multiset(authed) && |sorted| == |authed|
    ensures
      var reply := if |authed| > pageSize then Reply(sorted[..pageSize], Some(sorted[pageSize - 1].id))
          else Reply(sorted, last);
      && Answers(all, keep, pageSize, from, Turn(end, sorted, reply))
      && (|reply.data| == pageSize || reply.next.None?) && Newest(reply.data)
  {
    hide Filter;
  }

  lemma ShownAreReadable(all: seq<ListedDataSet>, keep: ListedDataSet -> bool, pageSize: nat, from: nat, turn: Turn)
    requires pageSize > 0 && Answers(all, keep, pageSize, from, turn)
    ensures forall d :: d in turn.reply.data ==> d in all && keep(d)
  {
    FilterMembers(keep, all[from..turn.end]);
    forall d | d in turn.reply.data
      ensures d in all && keep(d)
    {
      ReturnedWithin(all, keep, pageSize, from, turn, d);
    }
  }

  /** How the collecting loop ends: a page's worth collected, or the index exhausted. */
  ghost predicate LoopDone(all: seq<ListedDataSet>, keep: ListedDataSet -> bool, pageSize: nat, from: nat, end: nat,
                           authed: seq<ListedDataSet>, last: Token) {
    && Collected(all, keep, from, end, authed)
    && |authed| < 2 * pageSize && LastPage(all, keep, pageSize, from, end)
    && (|authed| >= pageSize || last.None?)
    && (from < |all| ==> from < end)
    && (last.None? ==> end == |all|)
    && (last.Some? ==> from < end && last == Some(all[end - 1].id))
  }

  // ----- Walking all pages, newest first -----

  /** Where the listing continues after a reply: behind the dataset its token names, or nowhere. */
  function Stop(all: seq<ListedDataSet>, next: Token): nat {
    if next.None? then |all| else Position(all, next)
  }

  /** A reply that is exactly what a contiguous stretch of the index holds, with a token naming the stretch's end. */
  ghost predicate Chunk(all: seq<ListedDataSet>, keep: ListedDataSet -> bool, pageSize: nat, from: nat, reply: Reply) {
    var stop := Stop(all, reply.next);
    && from <= stop <= |all|
    && reply.data == Filter(keep, all[from..stop])
    && |reply.data| <= pageSize
    && (reply.next.Some? ==> from < stop && KnownToken(all, reply.next))
    && (|reply.data| == pageSize || stop == |all|)
  }

  lemma SliceNewest(all: seq<ListedDataSet>, keep: ListedDataSet -> bool, from: nat, end: nat)
    requires NewestFirst(all) && from <= end <= |all|
    ensures NewestFirst(Filter(keep, all[from..end]))
    decreases end - from
  {
    if from == end {
    } else {
      SliceNewest(all, keep, from + 1, end);
      FilterExtend(keep, all, from, from + 1, end);
      var rest := Filter(keep, all[from + 1..end]);
      FilterMembers(keep, all[from + 1..end]);
      forall i | 0 <= i < |rest|
        ensures all[from].createdAt > rest[i].createdAt
      {
        assert rest[i] in all[from + 1..end];
      }
      assert all[from..from + 1] == [all[from]];
      assert Filter(keep, [all[from]]) == if keep(all[from]) then [all[from]] else [];
    }
  }

  /** Over a newest-first index every call answers with a chunk, truncated or not. */
  lemma NewestFirstChunks(all: seq<ListedDataSet>, keep: ListedDataSet -> bool, pageSize: nat, from: nat, turn: Turn)
    requires pageSize > 0 && DistinctIds(all) && NewestFirst(all)
    requires Answers(all, keep, pageSize, from, turn)
    ensures Chunk(all, keep, pageSize, from, turn.reply)
  {
    SortedAsFound(all, keep, pageSize, from, turn);
    if Overcollected(turn, pageSize) {
      CutIsChunk(all, keep, pageSize, from, turn);
    } else if turn.reply.next.Some? {
      PositionAfter(all, turn.end - 1);
    }
  }

  lemma CutIsChunk(all: seq<ListedDataSet>, keep: ListedDataSet -> bool, pageSize: nat, from: nat, turn: Turn)
    requires pageSize > 0 && DistinctIds(all) && Overcollected(turn, pageSize)
    requires from <= turn.end <= |all| && turn.sorted == Filter(keep, all[from..turn.end])
    requires turn.reply == Reply(turn.sorted[..pageSize], Some(turn.sorted[pageSize - 1].id))
    ensures Chunk(all, keep, pageSize, from, turn.reply)
  {
    hide Filter, DistinctIds, IndexOf, Position;
    var i := FilterPosition(keep, all[from..turn.end], pageSize - 1);
    SlicePrefix(all, from, turn.end, i + 1);
    PositionAfter(all, from + i);
    hide KnownToken;
  }

  /** Sorting what a stretch of a newest-first index yields changes nothing. */
  lemma SortedAsFound(all: seq<ListedDataSet>, keep: ListedDataSet -> bool, pageSize: nat, from: nat, turn: Turn)
    requires pageSize > 0 && NewestFirst(all) && Answers(all, keep, pageSize, from, turn)
    ensures turn.sorted == Filter(keep, all[from..turn.end])
  {
    SliceNewest(all, keep, from, turn.end);
    UniqueOrder(turn.sorted, Filter(keep, all[from..turn.end]));
  }

  /** Calls made one after the other until no token comes back: each continues where the one before stopped. */
  ghost predicate ChunkWalk(all: seq<ListedDataSet>, keep: ListedDataSet -> bool, pageSize: nat, from: nat,
                            replies: seq<Reply>)
    decreases |replies|
  {
    && replies != []
    && Chunk(all, keep, pageSize, from, replies[0])
    && if |replies| == 1 then replies[0].next.None?
       else replies[0].next.Some? && ChunkWalk(all, keep, pageSize, Stop(all, replies[0].next), replies[1..])
  }

  ghost function Listed(replies: seq<Reply>): seq<ListedDataSet> {
    if replies == [] then [] else replies[0].data + Listed(replies[1..])
  }

  /**
   * A walk lists every kept dataset once, in index order and nothing else, in at most one call more than there are
   * datasets.
   */
  lemma {:induction false} WalkListsAll(all: seq<ListedDataSet>, keep: ListedDataSet -> bool, pageSize: nat,
                                        from: nat, replies: seq<Reply>)
    requires ChunkWalk(all, keep, pageSize, from, replies)
    ensures from <= |all| && Listed(replies) == Filter(keep, all[from..]) && |replies| <= |all| - from + 1
    decreases |replies|
  {
    var stop := Stop(all, replies[0].next);
    if |replies| == 1 {
      assert all[from..stop] == all[from..];
      assert Listed(replies[1..]) == [];
    } else {
      WalkListsAll(all, keep, pageSize, stop, replies[1..]);
      FilterExtend(keep, all, from, stop, |all|);
      assert all[from..|all|] == all[from..] && all[stop..|all|] == all[stop..];
    }
  }

  // ----- Walking all pages, whatever the order of the index -----

  ghost predicate TurnWalk(all: seq<ListedDataSet>, keep: ListedDataSet -> bool, pageSize: nat, from: nat,
                           turns: seq<Turn>)
    requires pageSize > 0
    decreases |turns|
  {
    && turns != []
    && Answers(all, keep, pageSize, from, turns[0])
    && if |turns| == 1 then turns[0].reply.next.None?
       else turns[0].reply.next.Some? && TurnWalk(all, keep, pageSize, Stop(all, turns[0].reply.next), turns[1..])
  }

  ghost function RepliesOf(turns: seq<Turn>): seq<Reply> {
    if turns == [] then [] else [turns[0].reply] + RepliesOf(turns[1..])
  }

  lemma {:induction false} TurnsAreChunks(all: seq<ListedDataSet>, keep: ListedDataSet -> bool, pageSize: nat,
                                          from: nat, turns: seq<Turn>)
    requires pageSize > 0 && DistinctIds(all) && NewestFirst(all) && TurnWalk(all, keep, pageSize, from, turns)
    ensures ChunkWalk(all, keep, pageSize, from, RepliesOf(turns)) && |RepliesOf(turns)| == |turns|
    decreases |turns|
  {
    NewestFirstChunks(all, keep, pageSize, from, turns[0]);
    hide Answers, Chunk, NewestFirst, DistinctIds;
    if |turns| > 1 {
      TurnsAreChunks(all, keep, pageSize, Stop(all, turns[0].reply.next), turns[1..]);
    } else {
      assert RepliesOf(turns[1..]) == [];
    }
    assert RepliesOf(turns)[1..] == RepliesOf(turns[1..]);
  }

  /** Over a newest-first index, walking the listing yields exactly the readable datasets, each once. */
  lemma NewestFirstWalk(all: seq<ListedDataSet>, keep: ListedDataSet -> bool, pageSize: nat, turns: seq<Turn>)
    requires pageSize > 0 && DistinctIds(all) && NewestFirst(all) && TurnWalk(all, keep, pageSize, 0, turns)
    ensures Listed(RepliesOf(turns)) == Filter(keep, all) && |turns| <= |all| + 1
  {
    TurnsAreChunks(all, keep, pageSize, 0, turns);
    WalkListsAll(all, keep, pageSize, 0, RepliesOf(turns));
    assert all[0..] == all;
  }

  ghost predicate SomeOvercollected(turns: seq<Turn>, pageSize: nat) {
    exists i :: 0 <= i < |turns| && Overcollected(turns[i], pageSize)
  }

  /** What a turn returns lies in the stretch it scanned. */
  lemma ReturnedWithin(all: seq<ListedDataSet>, keep: ListedDataSet -> bool, pageSize: nat, from: nat, turn: Turn,
                       x: ListedDataSet)
    requires pageSize > 0 && Answers(all, keep, pageSize, from, turn) && x in turn.reply.data
    ensures x in Filter(keep, all[from..turn.end]) && x in all[from..turn.end]
  {
    var found := Filter(keep, all[from..turn.end]);
    assert x in turn.sorted;
    assert x in multiset(turn.sorted);
    assert x in multiset(found);
    FilterMembers(keep, all[from..turn.end]);
  }

  lemma ProgressOf(all: seq<ListedDataSet>, keep: ListedDataSet -> bool, pageSize: nat, from: nat, turn: Turn)
    requires pageSize > 0 && DistinctIds(all) && Answers(all, keep, pageSize, from, turn) && turn.reply.next.Some?
    ensures from < Stop(all, turn.reply.next) <= turn.end
    ensures KnownToken(all, turn.reply.next)
    ensures !Overcollected(turn, pageSize) ==> Stop(all, turn.reply.next) == turn.end
  {
    if Overcollected(turn, pageSize) {
      var x := turn.sorted[pageSize - 1];
      assert x == turn.reply.data[pageSize - 1];
      ReturnedWithin(all, keep, pageSize, from, turn, x);
      var i :| 0 <= i < |all[from..turn.end]| && all[from..turn.end][i] == x;
      PositionAfter(all, from + i);
    } else {
      PositionAfter(all, turn.end - 1);
    }
  }

  /** A walk never returns what lies before its start. */
  lemma {:induction false} NothingEarlier(all: seq<ListedDataSet>, keep: ListedDataSet -> bool, pageSize: nat,
                                          from: nat, turns: seq<Turn>, k: nat)
    requires pageSize > 0 && DistinctIds(all) && TurnWalk(all, keep, pageSize, from, turns) && k < from <= |all|
    ensures all[k] !in Listed(RepliesOf(turns))
    decreases |turns|
  {
    forall x | x in turns[0].reply.data
      ensures x in all[from..turns[0].end]
    {
      ReturnedWithin(all, keep, pageSize, from, turns[0], x);
    }
    assert all[k] !in all[from..turns[0].end];
    assert RepliesOf(turns)[1..] == RepliesOf(turns[1..]);
    if |turns| > 1 {
      ProgressOf(all, keep, pageSize, from, turns[0]);
      NothingEarlier(all, keep, pageSize, Stop(all, turns[0].reply.next), turns[1..], k);
    } else {
      assert RepliesOf(turns[1..]) == [];
    }
  }

  // ----- Datasets created at the same instant -----

  function Tied(): seq<ListedDataSet> {
    [ListedDataSet("a", 2, None), ListedDataSet("b", 1, None), ListedDataSet("c", 1, None)]
  }

  function Everything(): ListedDataSet -> bool {
    (d: ListedDataSet) => true
  }

  function TiedTurns(): seq<Turn> {
    var a, b, c := Tied()[0], Tied()[1], Tied()[2];
    [Turn(3, [a, c, b], Reply([a, c], Some("c"))), Turn(3, [], Reply([], None))]
  }

  lemma {:induction false} KeepEverything(s: seq<ListedDataSet>)
    ensures Filter(Everything(), s) == s
  {
    if s == [] {
    } else {
      KeepEverything(s[1..]);
    }
  }

  lemma SwapLast(a: ListedDataSet, b: ListedDataSet, c: ListedDataSet)
    ensures multiset([a, c, b]) == multiset([a, b, c])
  {
    assert [a, c, b] == [a] + [c] + [b] && [a, b, c] == [a] + [b] + [c];
  }

  /** A call that collects between one page and two answers with the first page of what it sorted. */
  lemma AnswersCut(all: seq<ListedDataSet>, keep: ListedDataSet -> bool, pageSize: nat, from: nat, end: nat,
                   sorted: seq<ListedDataSet>)
    requires from < end <= |all| && 0 < pageSize < |sorted| < 2 * pageSize
    requires Newest(sorted) && multiset(sorted) == multiset(Filter(keep, all[from..end]))
    requires LastPage(all, keep, pageSize, from, end)
    ensures Answers(all, keep, pageSize, from,
        Turn(end, sorted, Reply(sorted[..pageSize], Some(sorted[pageSize - 1].id))))
  {
    hide Filter, Newest, LastPage;
  }

  lemma TiedFirst()
    ensures Answers(Tied(), Everything(), 2, 0, TiedTurns()[0])
  {
    var all, a, b, c := Tied(), Tied()[0], Tied()[1], Tied()[2];
    assert all[0..3] == [a, b, c];
    assert Newest([a, c, b]);
    assert [a, c, b][..2] == [a, c];
    assert TiedTurns()[0] == Turn(3, [a, c, b], Reply([a, c, b][..2], Some([a, c, b][1].id)));
    hide *;
    KeepEverything(all[0..3]);
    KeepEverything(all[0..1]);
    LastPageFrom(all, Everything(), 2, 0, 1, 3);
    SwapLast(a, b, c);
    AnswersCut(all, Everything(), 2, 0, 3, [a, c, b]);
  }

  lemma TiedLast()
    ensures Answers(Tied(), Everything(), 2, 3, TiedTurns()[1])
  {
    assert Tied()[3..3] == [] && Filter(Everything(), []) == [];
    LastPageFrom(Tied(), Everything(), 2, 3, 3, 3);
    hide Filter, Everything, LastPage;
  }

  lemma TiedWalk()
    ensures DistinctIds(Tied()) && TurnWalk(Tied(), Everything(), 2, 0, TiedTurns())
  {
    TiedFirst();
    TiedLast();
    var turns := TiedTurns();
    PositionAfter(Tied(), 2);
    assert Stop(Tied(), turns[0].reply.next) == 3;
    assert turns == [turns[0], turns[1]] && turns[0].reply.next.Some? && turns[1].reply.next.None?;
    hide Answers, Position, Tied, TiedTurns, Everything, Stop, DistinctIds;
    assert turns[1..] == [turns[1]];
    assert TurnWalk(Tied(), Everything(), 2, 3, [turns[1]]);
  }

  lemma TiedListed()
    ensures Listed(RepliesOf(TiedTurns())) == [Tied()[0], Tied()[2]]
  {
    var turns := TiedTurns();
    assert turns[1..] == [turns[1]] && [turns[1]][1..] == [];
    assert RepliesOf([turns[1]]) == [turns[1].reply];
    assert RepliesOf(turns) == [turns[0].reply] + [turns[1].reply];
    assert RepliesOf(turns)[1..] == [turns[1].reply] && [turns[1].reply][1..] == [];
    assert Listed([turns[1].reply]) == [];
  }

  /** With equal creation times even a newest-first index loses datasets: the sort may turn a tie around. */
  lemma TiesLose()
    ensures DistinctIds(Tied()) && Newest(Tied()) && TurnWalk(Tied(), Everything(), 2, 0, TiedTurns())
    ensures Tied()[1] in Filter(Everything(), Tied()) && Tied()[1] !in Listed(RepliesOf(TiedTurns()))
  {
    TiedWalk();
    TiedListed();
    KeepEverything(Tied());
    hide Filter, Listed, RepliesOf, TurnWalk, TiedTurns, DistinctIds, Everything;
  }

  // ----- Listing what a user is authorized for -----

  /**
   * Over a newest-first index, walking the listing lists exactly the datasets the user may read, once each: those
   * for which the whole store grants the READ operation to one of the user's identities.
   */
  lemma ListsWhatIsAuthorized(all: seq<ListedDataSet>, perms: PermissionStore.Perms, reader: Reader,
                              keep: ListedDataSet -> bool, pageSize: nat, turns: seq<Turn>)
    requires pageSize > 0 && DistinctIds(all) && NewestFirst(all)
    requires forall d :: keep(d) <==> MayRead(perms, reader, d.id)
    requires TurnWalk(all, keep, pageSize, 0, turns)
    ensures Distinct(Listed(RepliesOf(turns)))
    ensures forall d :: d in Listed(RepliesOf(turns)) <==>
      && d in all
      && Authorization.Grants(perms, Authorization.Operation(PermissionKeys.READ, "Dataset", d.id, None, map[]),
           Authorization.Identities(reader.userId, reader.groups), reader.matches)
  {
    NewestFirstWalk(all, keep, pageSize, turns);
    assert Distinct(all);
    FilterDistinct(keep, all);
    FilterMembers(keep, all);
    hide Filter, Listed, RepliesOf, TurnWalk, Authorization.Grants;
  }
}
