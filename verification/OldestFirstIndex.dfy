/**
 * When every walk of the dataset listing over an oldest-first index is complete, judged on the index alone, before
 * the first call.
 */
module OldestFirstIndex {
  import opened Prelude
  import PermissionStore
  import opened DatasetListing
  import opened OldestFirstListing
  import opened ListingPages

  // ----- When some call collects more than a page -----

  /**
   * Between two readable datasets that lie fewer than a page's places apart a page ends: as many full pages of
   * readable datasets as there are lie before the younger one.
   */
  ghost predicate Splits(all: seq<ListedDataSet>, keep: ListedDataSet -> bool, pageSize: nat, a: nat, b: nat) {
    && a < b < |all| && b - a < pageSize
    && keep(all[a]) && keep(all[b])
    && Before(all, keep, b) % pageSize == 0
  }

  ghost predicate SomeSplit(all: seq<ListedDataSet>, keep: ListedDataSet -> bool, pageSize: nat) {
    exists a, b :: Splits(all, keep, pageSize, a, b)
  }

  lemma Scaled(k: int, m: int)
    requires m > 0
    ensures k >= 1 ==> k * m >= m
    ensures k <= -1 ==> k * m <= -m
  {
    if k >= 1 {
      assert (k - 1) * m >= 0;
    } else if k <= -1 {
      assert (-1 - k) * m >= 0;
    }
  }

  lemma NextMultiple(n: nat, m: nat)
    requires m > 0
    ensures (n + m) % m == n % m
  {
    var k, q, r := n / m, (n + m) / m, (n + m) % m;
    assert n == k * m + n % m && n + m == q * m + r;
    assert (k + 1 - q) * m == r - n % m;
    Scaled(k + 1 - q, m);
  }

  /** Of two multiples the greater one is greater by the whole number at least. */
  lemma MultiplesApart(n: nat, p: nat, m: nat)
    requires m > 0 && n % m == 0 && p % m == 0 && n < p
    ensures n + m <= p
  {
    var k, q := n / m, p / m;
    assert n == k * m && p == q * m;
    assert (q - k) * m == p - n;
    Scaled(q - k, m);
  }

  /** A call that starts where pages end collects more than a page only across such a pair. */
  lemma OvercollectingSplits(all: seq<ListedDataSet>, keep: ListedDataSet -> bool, pageSize: nat, from: nat, turn: Turn)
    returns (a: nat, b: nat)
    requires pageSize > 0 && Answers(all, keep, pageSize, from, turn) && Overcollected(turn, pageSize)
    requires Before(all, keep, from) % pageSize == 0
    ensures Splits(all, keep, pageSize, a, b)
  {
    var m := AskedAt(all, keep, pageSize, from, turn);
    hide *;
    var n := Before(all, keep, from) + pageSize;
    NextMultiple(Before(all, keep, from), pageSize);
    CountGrows(all, keep, turn.end, |all|);
    a := Nth(all, keep, n - 1);
    b := Nth(all, keep, n);
    CountLess(all, keep, a, m);
    CountLess(all, keep, a, b);
    CountLess(all, keep, b, turn.end);
    SplitsAt(all, keep, pageSize, a, b);
  }

  /** Where the last page of an over-collecting call starts. */
  lemma AskedAt(all: seq<ListedDataSet>, keep: ListedDataSet -> bool, pageSize: nat, from: nat, turn: Turn)
    returns (m: nat)
    requires pageSize > 0 && Answers(all, keep, pageSize, from, turn) && Overcollected(turn, pageSize)
    ensures from <= m <= turn.end <= |all| && turn.end <= m + pageSize
    ensures Before(all, keep, m) < Before(all, keep, from) + pageSize < Before(all, keep, turn.end)
  {
    SameLength(turn.sorted, Filter(keep, all[from..turn.end]));
    hide Filter, Newest, Before;
    m :| from <= m <= turn.end && turn.end <= m + pageSize && |Filter(keep, all[from..m])| < pageSize;
    CountBetween(all, keep, from, m);
    CountBetween(all, keep, from, turn.end);
  }

  lemma SplitsAt(all: seq<ListedDataSet>, keep: ListedDataSet -> bool, pageSize: nat, a: nat, b: nat)
    requires a < b < |all| && b - a < pageSize && keep(all[a]) && keep(all[b])
    requires Before(all, keep, b) % pageSize == 0
    ensures Splits(all, keep, pageSize, a, b)
  {}

  // ----- Calls and walks that can always be made -----

  lemma SortedSlice(all: seq<ListedDataSet>, keep: ListedDataSet -> bool, from: nat, end: nat)
    requires OldestFirst(all) && from <= end <= |all|
    ensures
      var found := Filter(keep, all[from..end]);
      Newest(Rev(found)) && multiset(Rev(found)) == multiset(found) && |Rev(found)| == |found|
  {
    FilterOldest(keep, all[from..end]);
    RevKeeps(Filter(keep, all[from..end]));
  }

  /** Where a call ends that collects a page exactly: behind the last readable dataset it needs, or at the end. */
  lemma PlainEnd(all: seq<ListedDataSet>, keep: ListedDataSet -> bool, pageSize: nat, from: nat) returns (end: nat)
    requires pageSize > 0 && from <= |all|
    ensures from <= end <= |all| && (from < |all| ==> from < end)
    ensures |Filter(keep, all[from..end])| <= pageSize && LastPage(all, keep, pageSize, from, end)
    ensures
      var n := Before(all, keep, from) + pageSize;
      if n <= Before(all, keep, |all|) then Before(all, keep, end) == n else end == |all|
  {
    var n := Before(all, keep, from) + pageSize;
    CountGrows(all, keep, from, |all|);
    if n <= Before(all, keep, |all|) {
      var i := Nth(all, keep, n - 1);
      CountLess(all, keep, i, from);
      CountStep(all, keep, i);
      CountBetween(all, keep, from, i);
      CountBetween(all, keep, from, i + 1);
      LastPageFrom(all, keep, pageSize, from, i, i + 1);
      end := i + 1;
    } else {
      end := |all|;
      CountBetween(all, keep, from, end);
      LastPageFrom(all, keep, pageSize, from, end, end);
    }
  }

  /** From everywhere a call can be made that is not truncated. */
  lemma PlainTurn(all: seq<ListedDataSet>, keep: ListedDataSet -> bool, pageSize: nat, from: nat) returns (turn: Turn)
    requires pageSize > 0 && DistinctIds(all) && OldestFirst(all) && from <= |all|
    ensures Answers(all, keep, pageSize, from, turn) && !Overcollected(turn, pageSize)
    ensures turn.reply.next.Some? ==> from < turn.end == Stop(all, turn.reply.next)
    ensures turn.reply.next.None? ==> turn.end == |all|
    ensures
      var n := Before(all, keep, from) + pageSize;
      turn.end <= |all| && if n <= Before(all, keep, |all|) then Before(all, keep, turn.end) == n else turn.end == |all|
  {
    var end := PlainEnd(all, keep, pageSize, from);
    SortedSlice(all, keep, from, end);
    var sorted := Rev(Filter(keep, all[from..end]));
    turn := Turn(end, sorted, Reply(sorted, if end == |all| then None else Some(all[end - 1].id)));
    if end < |all| {
      PositionAfter(all, end - 1);
      CountBetween(all, keep, from, end);
    }
    hide Filter, Rev, LastPage, OldestFirst, DistinctIds, Position, Newest, Before;
  }

  /** From everywhere the listing can be walked to its end. */
  lemma {:induction false} WalkFromHere(all: seq<ListedDataSet>, keep: ListedDataSet -> bool, pageSize: nat, from: nat)
    returns (turns: seq<Turn>)
    requires pageSize > 0 && DistinctIds(all) && OldestFirst(all) && from <= |all|
    ensures TurnWalk(all, keep, pageSize, from, turns)
    decreases |all| - from
  {
    var turn := PlainTurn(all, keep, pageSize, from);
    hide Answers, DistinctIds, OldestFirst, Before, Overcollected;
    if turn.reply.next.None? {
      turns := [turn];
    } else {
      var rest := WalkFromHere(all, keep, pageSize, turn.end);
      turns := [turn] + rest;
      assert turns[1..] == rest;
    }
  }

  /** Across a split a call can be made that collects one dataset more than a page. */
  lemma CutTurn(all: seq<ListedDataSet>, keep: ListedDataSet -> bool, pageSize: nat, from: nat, a: nat, b: nat)
    returns (turn: Turn)
    requires pageSize > 0 && DistinctIds(all) && OldestFirst(all) && from <= |all|
    requires Splits(all, keep, pageSize, a, b) && Before(all, keep, b) == Before(all, keep, from) + pageSize
    ensures Answers(all, keep, pageSize, from, turn) && Overcollected(turn, pageSize) && turn.reply.next.Some?
  {
    hide Before, Filter, OldestFirst, DistinctIds, LastPage, Answers;
    CutStretch(all, keep, pageSize, from, a, b);
    SortedSlice(all, keep, from, b + 1);
    var sorted := Rev(Filter(keep, all[from..b + 1]));
    hide *;
    AnswersCut(all, keep, pageSize, from, b + 1, sorted);
    turn := Turn(b + 1, sorted, Reply(sorted[..pageSize], Some(sorted[pageSize - 1].id)));
    CollectsMore(turn, pageSize);
  }

  lemma CollectsMore(turn: Turn, pageSize: nat)
    requires |turn.sorted| > pageSize
    ensures Overcollected(turn, pageSize)
  {}

  lemma CutStretch(all: seq<ListedDataSet>, keep: ListedDataSet -> bool, pageSize: nat, from: nat, a: nat, b: nat)
    requires from <= |all| && Splits(all, keep, pageSize, a, b)
    requires Before(all, keep, b) == Before(all, keep, from) + pageSize
    ensures from <= b && b + 1 <= |all| && LastPage(all, keep, pageSize, from, b + 1)
    ensures pageSize < |Filter(keep, all[from..b + 1])| < 2 * pageSize
  {
    hide Before;
    CountGrows(all, keep, a, b);
    CountLess(all, keep, a, b);
    CountLess(all, keep, a, from);
    CountStep(all, keep, b);
    CountBetween(all, keep, from, a);
    CountBetween(all, keep, from, b + 1);
    hide Filter;
    LastPageFrom(all, keep, pageSize, from, a, b + 1);
  }

  /** From the end of a page before a split a walk can be made that is truncated there. */
  lemma {:induction false} CutWalk(all: seq<ListedDataSet>, keep: ListedDataSet -> bool, pageSize: nat, from: nat,
                                   a: nat, b: nat) returns (turns: seq<Turn>)
    requires pageSize > 0 && DistinctIds(all) && OldestFirst(all) && from <= |all|
    requires Splits(all, keep, pageSize, a, b)
    requires Before(all, keep, from) % pageSize == 0 && Before(all, keep, from) < Before(all, keep, b)
    ensures TurnWalk(all, keep, pageSize, from, turns) && SomeOvercollected(turns, pageSize)
    decreases |all| - from
  {
    hide *;
    var turn, rest;
    SplitGives(all, keep, pageSize, a, b);
    MultiplesApart(Before(all, keep, from), Before(all, keep, b), pageSize);
    if Before(all, keep, b) == Before(all, keep, from) + pageSize {
      turn := CutTurn(all, keep, pageSize, from, a, b);
      AnswerEnds(all, keep, pageSize, from, turn);
      rest := WalkFromHere(all, keep, pageSize, Stop(all, turn.reply.next));
    } else {
      turn := PlainTurn(all, keep, pageSize, from);
      NextMultiple(Before(all, keep, from), pageSize);
      AnswerEnds(all, keep, pageSize, from, turn);
      rest := CutWalk(all, keep, pageSize, turn.end, a, b);
    }
    turns := [turn] + rest;
    WalkCons(all, keep, pageSize, from, turn, rest);
  }

  lemma SplitGives(all: seq<ListedDataSet>, keep: ListedDataSet -> bool, pageSize: nat, a: nat, b: nat)
    requires Splits(all, keep, pageSize, a, b)
    ensures b < |all| && Before(all, keep, b) % pageSize == 0 && Before(all, keep, a) < Before(all, keep, b)
    ensures Before(all, keep, b) < Before(all, keep, |all|)
  {
    CountLess(all, keep, a, b);
    CountLess(all, keep, b, |all|);
  }

  lemma AnswerEnds(all: seq<ListedDataSet>, keep: ListedDataSet -> bool, pageSize: nat, from: nat, turn: Turn)
    requires pageSize > 0 && DistinctIds(all) && Answers(all, keep, pageSize, from, turn)
    ensures from <= turn.end <= |all| && (from < |all| ==> from < turn.end)
    ensures turn.reply.next.Some? ==> from < Stop(all, turn.reply.next) <= |all|
    ensures turn.reply.next.None? && !Overcollected(turn, pageSize) ==> turn.end == |all|
  {
    if turn.reply.next.Some? {
      ProgressOf(all, keep, pageSize, from, turn);
    }
    hide Filter, DistinctIds, LastPage, Newest;
  }

  lemma WalkCons(all: seq<ListedDataSet>, keep: ListedDataSet -> bool, pageSize: nat, from: nat, turn: Turn,
                 rest: seq<Turn>)
    requires pageSize > 0 && Answers(all, keep, pageSize, from, turn) && turn.reply.next.Some?
    requires TurnWalk(all, keep, pageSize, Stop(all, turn.reply.next), rest)
    requires Overcollected(turn, pageSize) || SomeOvercollected(rest, pageSize)
    ensures TurnWalk(all, keep, pageSize, from, [turn] + rest) && SomeOvercollected([turn] + rest, pageSize)
  {
    hide Answers, Overcollected;
    assert ([turn] + rest)[1..] == rest;
    if Overcollected(turn, pageSize) {
      assert Overcollected(([turn] + rest)[0], pageSize);
    } else {
      var i :| 0 <= i < |rest| && Overcollected(rest[i], pageSize);
      assert Overcollected(([turn] + rest)[i + 1], pageSize);
    }
  }

  /** Without a split no call of a walk collects more than a page. */
  lemma {:induction false} NeverCut(all: seq<ListedDataSet>, keep: ListedDataSet -> bool, pageSize: nat, from: nat,
                                    turns: seq<Turn>)
    requires pageSize > 0 && DistinctIds(all) && !SomeSplit(all, keep, pageSize)
    requires TurnWalk(all, keep, pageSize, from, turns) && from <= |all|
    requires Before(all, keep, from) % pageSize == 0 || from == |all|
    ensures !SomeOvercollected(turns, pageSize)
    decreases |turns|
  {
    NotCut(all, keep, pageSize, from, turns[0]);
    ListedStep(turns, pageSize);
    if |turns| == 1 {
      assert !SomeOvercollected([], pageSize) && turns[1..] == [];
    } else {
      NeverCut(all, keep, pageSize, Stop(all, turns[0].reply.next), turns[1..]);
    }
  }

  lemma NotCut(all: seq<ListedDataSet>, keep: ListedDataSet -> bool, pageSize: nat, from: nat, turn: Turn)
    requires pageSize > 0 && DistinctIds(all) && !SomeSplit(all, keep, pageSize)
    requires Answers(all, keep, pageSize, from, turn)
    requires Before(all, keep, from) % pageSize == 0 || from == |all|
    ensures !Overcollected(turn, pageSize)
    ensures turn.reply.next.Some? ==>
      var stop := Stop(all, turn.reply.next);
      stop <= |all| && (Before(all, keep, stop) % pageSize == 0 || stop == |all|)
  {
    SameLength(turn.sorted, Filter(keep, all[from..turn.end]));
    if Before(all, keep, from) % pageSize == 0 && Overcollected(turn, pageSize) {
      var a, b := OvercollectingSplits(all, keep, pageSize, from, turn);
      assert false;
    }
    if turn.reply.next.Some? {
      ProgressOf(all, keep, pageSize, from, turn);
      CountBetween(all, keep, from, turn.end);
      NextMultiple(Before(all, keep, from), pageSize);
    }
  }

  /** The walk lists every readable dataset once and nothing else. */
  ghost predicate Complete(all: seq<ListedDataSet>, keep: ListedDataSet -> bool, turns: seq<Turn>) {
    multiset(Listed(RepliesOf(turns))) == multiset(Filter(keep, all))
  }

  /** Every walk from the start, whatever pages the database serves, lists every readable dataset once. */
  ghost predicate EveryWalkComplete(all: seq<ListedDataSet>, keep: ListedDataSet -> bool, pageSize: nat)
    requires pageSize > 0
  {
    forall turns :: TurnWalk(all, keep, pageSize, 0, turns) ==> Complete(all, keep, turns)
  }

  /**
   * Over an oldest-first index, judged before the first call: every walk lists every readable dataset once and
   * nothing else, if and only if no two readable datasets fewer than a page's places apart lie on both sides of the
   * end of a page of readable datasets.
   */
  lemma EveryWalkCompleteIff(all: seq<ListedDataSet>, keep: ListedDataSet -> bool, pageSize: nat)
    requires pageSize > 0 && DistinctIds(all) && OldestFirst(all)
    ensures EveryWalkComplete(all, keep, pageSize) <==> !SomeSplit(all, keep, pageSize)
  {
    assert all[..0] == [] && Before(all, keep, 0) == 0;
    if a, b :| Splits(all, keep, pageSize, a, b) {
      CountLess(all, keep, a, b);
      var turns := CutWalk(all, keep, pageSize, 0, a, b);
      OldestFirstWalkIff(all, keep, pageSize, turns);
    } else {
      forall turns | TurnWalk(all, keep, pageSize, 0, turns)
        ensures multiset(Listed(RepliesOf(turns))) == multiset(Filter(keep, all))
      {
        NeverCut(all, keep, pageSize, 0, turns);
        OldestFirstWalkIff(all, keep, pageSize, turns);
      }
    }
  }

  /** A page of one is never cut, nor is a listing that fits into a page, nor one whose datasets lie a page apart. */
  lemma NoSplitWhenSmallOrSparse(all: seq<ListedDataSet>, keep: ListedDataSet -> bool, pageSize: nat)
    requires pageSize > 0
    requires
      || pageSize == 1
      || |Filter(keep, all)| <= pageSize
      || forall a, b :: 0 <= a < b < |all| && keep(all[a]) && keep(all[b]) ==> b - a >= pageSize
    ensures !SomeSplit(all, keep, pageSize)
  {
    forall a, b | Splits(all, keep, pageSize, a, b)
      ensures false
    {
      CountLess(all, keep, a, b);
      CountLess(all, keep, b, |all|);
      assert all[..|all|] == all;
      MultiplesApart(0, Before(all, keep, b), pageSize);
    }
  }

  /** If every dataset is readable, every walk is complete exactly when a page is one dataset or holds them all. */
  lemma AllReadableIff(all: seq<ListedDataSet>, keep: ListedDataSet -> bool, pageSize: nat)
    requires pageSize > 0 && DistinctIds(all) && OldestFirst(all) && forall d :: d in all ==> keep(d)
    ensures EveryWalkComplete(all, keep, pageSize) <==> pageSize == 1 || |all| <= pageSize
  {
    hide *;
    EveryWalkCompleteIff(all, keep, pageSize);
    AllKept(keep, all);
    if pageSize == 1 || |all| <= pageSize {
      NoSplitWhenSmallOrSparse(all, keep, pageSize);
    } else {
      FirstPageSplits(all, keep, pageSize);
    }
  }

  lemma FirstPageSplits(all: seq<ListedDataSet>, keep: ListedDataSet -> bool, pageSize: nat)
    requires 1 < pageSize < |all| && forall d :: d in all ==> keep(d)
    ensures SomeSplit(all, keep, pageSize)
  {
    AllKept(keep, all[..pageSize]);
    assert Before(all, keep, pageSize) == pageSize;
    hide Filter, Before;
    SplitsAt(all, keep, pageSize, pageSize - 1, pageSize);
  }

  lemma {:induction false} AllKept(keep: ListedDataSet -> bool, s: seq<ListedDataSet>)
    requires forall d :: d in s ==> keep(d)
    ensures Filter(keep, s) == s
  {
    if s == [] {
    } else {
      assert s[0] in s && forall d :: d in s[1..] ==> d in s;
      AllKept(keep, s[1..]);
    }
  }

  // ----- Listing what a user is authorized for -----

  lemma {:induction false} DistinctCounts(s: seq<ListedDataSet>)
    ensures Distinct(s) <==> forall x :: multiset(s)[x] <= 1
  {
    if s == [] {
    } else {
      var rest := s[1..];
      DistinctCounts(rest);
      assert s == [s[0]] + rest;
      assert forall x :: multiset(s)[x] == multiset(rest)[x] + if x == s[0] then 1 else 0;
      DistinctCons(s[0], rest);
      hide Distinct;
      assert s[0] in rest <==> multiset(rest)[s[0]] > 0;
      assert (forall x :: multiset(s)[x] <= 1) ==> multiset(s)[s[0]] <= 1;
    }
  }

  lemma DistinctCons(x: ListedDataSet, rest: seq<ListedDataSet>)
    ensures Distinct([x] + rest) <==> x !in rest && Distinct(rest)
  {
    var s := [x] + rest;
    assert forall i :: 0 <= i < |rest| ==> s[i + 1] == rest[i];
    if x in rest {
      var i :| 0 <= i < |rest| && rest[i] == x;
      assert s[0] == s[i + 1];
    }
  }

  lemma SameOnce(a: seq<ListedDataSet>, b: seq<ListedDataSet>)
    requires Distinct(b)
    ensures multiset(a) == multiset(b) <==> Distinct(a) && forall x :: x in a <==> x in b
  {
    DistinctCounts(a);
    DistinctCounts(b);
    assert forall x :: (x in a <==> multiset(a)[x] > 0) && (x in b <==> multiset(b)[x] > 0);
    hide Distinct;
    if (forall x :: multiset(a)[x] <= 1) && forall x :: x in a <==> x in b {
      assert forall x :: multiset(a)[x] == multiset(b)[x];
    }
  }

  /** The walk lists exactly the datasets the user may read, each once. */
  ghost predicate ListsReadable(all: seq<ListedDataSet>, perms: PermissionStore.Perms, reader: Reader,
                                turns: seq<Turn>) {
    var listed := Listed(RepliesOf(turns));
    Distinct(listed) && forall d :: d in listed <==> d in all && MayRead(perms, reader, d.id)
  }

  /**
   * Over an oldest-first index: whatever pages are served, a user is listed exactly the datasets the store grants the
   * user to read, each once, if and only if no end of a page of those splits two that are close together.
   */
  lemma ListsWhatIsAuthorizedIff(all: seq<ListedDataSet>, perms: PermissionStore.Perms, reader: Reader,
                                 keep: ListedDataSet -> bool, pageSize: nat)
    requires pageSize > 0 && DistinctIds(all) && OldestFirst(all)
    requires forall d :: keep(d) <==> MayRead(perms, reader, d.id)
    ensures
      (forall turns :: TurnWalk(all, keep, pageSize, 0, turns) ==> ListsReadable(all, perms, reader, turns))
      <==> !SomeSplit(all, keep, pageSize)
  {
    hide Complete, TurnWalk, SomeSplit, DistinctIds, OldestFirst, ListsReadable, MayRead;
    EveryWalkCompleteIff(all, keep, pageSize);
    forall turns {
      ListsReadableIff(all, perms, reader, keep, turns);
    }
  }

  lemma ListsReadableIff(all: seq<ListedDataSet>, perms: PermissionStore.Perms, reader: Reader,
                         keep: ListedDataSet -> bool, turns: seq<Turn>)
    requires DistinctIds(all) && forall d :: keep(d) <==> MayRead(perms, reader, d.id)
    ensures ListsReadable(all, perms, reader, turns)
       <==> Complete(all, keep, turns)
  {
    assert Distinct(all);
    FilterDistinct(keep, all);
    FilterMembers(keep, all);
    SameOnce(Listed(RepliesOf(turns)), Filter(keep, all));
    hide Filter, RepliesOf, Listed, MayRead, DistinctIds, Distinct;
  }
}
