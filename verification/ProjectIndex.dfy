/**
 * When every project's walk over an oldest-first index is complete, judged on the index alone, before the first call.
 */
module ProjectIndex {
  import opened Prelude
  import opened PermissionKeys
  import opened DatasetListing
  import opened OldestFirstListing
  import opened ListingPages
  import opened OldestFirstIndex
  import opened ProjectListing

  // ----- How a project's datasets fall on pages -----

  /** The readable datasets still to come. */
  ghost function Rest(all: seq<ListedDataSet>, keep: ListedDataSet -> bool, from: nat): seq<ListedDataSet>
    requires from <= |all|
  {
    Filter(keep, all[from..])
  }

  ghost function CountOf(project: string, s: seq<ListedDataSet>): nat {
    |Filter(OfProject(project), s)|
  }

  /**
   * Dealt out in pages of readable datasets, the project's are gathered page by page, on top of `found` so far,
   * until there is a page of them: it comes out even each time, and no page has too many.
   */
  ghost predicate Fits(readable: seq<ListedDataSet>, project: string, pageSize: nat, found: nat)
    requires pageSize > 0
    decreases |readable|
  {
    if |readable| < pageSize then found + CountOf(project, readable) <= pageSize
    else
      var more := found + CountOf(project, readable[..pageSize]);
      more <= pageSize && Fits(readable[pageSize..], project, pageSize, if more == pageSize then 0 else more)
  }

  lemma FitsNone(project: string, pageSize: nat, found: nat)
    requires found <= pageSize && pageSize > 0
    ensures Fits([], project, pageSize, found)
  {}

  lemma FitsPage(page: seq<ListedDataSet>, rest: seq<ListedDataSet>, project: string, pageSize: nat, found: nat)
    requires pageSize > 0 && (|page| == pageSize || (|page| < pageSize && rest == []))
    ensures
      var more := found + CountOf(project, page);
      Fits(page + rest, project, pageSize, found) <==>
        more <= pageSize && Fits(rest, project, pageSize, if more == pageSize then 0 else more)
  {
    hide CountOf;
    if |page| == pageSize {
      assert (page + rest)[..pageSize] == page && (page + rest)[pageSize..] == rest;
    } else {
      assert page + rest == page;
      if found + CountOf(project, page) <= pageSize {
        FitsNone(project, pageSize, if found + CountOf(project, page) == pageSize then 0
                                    else found + CountOf(project, page));
      }
    }
  }

  lemma RestFrom(all: seq<ListedDataSet>, keep: ListedDataSet -> bool, from: nat, stop: nat)
    requires from <= stop <= |all|
    ensures Rest(all, keep, from) == Filter(keep, all[from..stop]) + Rest(all, keep, stop)
    ensures Rest(all, keep, |all|) == []
  {
    FilterExtend(keep, all, from, stop, |all|);
    assert all[from..|all|] == all[from..] && all[stop..|all|] == all[stop..];
  }

  /** What an inner call that is not truncated shows: a whole page, or the last datasets there are. */
  lemma UncutPage(all: seq<ListedDataSet>, keep: ListedDataSet -> bool, pageSize: nat, from: nat, turn: Turn)
    requires pageSize > 0 && DistinctIds(all) && OldestFirst(all) && Answers(all, keep, pageSize, from, turn)
    requires !Overcollected(turn, pageSize)
    ensures
      var stop := Stop(all, turn.reply.next);
      && from <= stop <= |all|
      && turn.reply.data == Rev(Filter(keep, all[from..stop]))
      && |Filter(keep, all[from..stop])| <= pageSize
      && (|Filter(keep, all[from..stop])| == pageSize || stop == |all|)
  {
    TurnShows(all, keep, pageSize, from, turn);
    TurnReaches(all, keep, pageSize, from, turn);
    SameLength(turn.sorted, Filter(keep, all[from..turn.end]));
    hide Filter, OldestFirst, DistinctIds, Newest, LastPage, Stop, Reaches, Resumes, Rev;
  }

  /** Going on from `stop`, with `more` found in all, fits exactly if going on from `from` with `found` does. */
  ghost predicate Deals(all: seq<ListedDataSet>, keep: ListedDataSet -> bool, project: string, pageSize: nat,
                        from: nat, stop: nat, found: nat, more: nat)
    requires pageSize > 0
  {
    && from <= stop <= |all|
    && (Fits(Rest(all, keep, from), project, pageSize, found) <==>
          more <= pageSize && Fits(Rest(all, keep, stop), project, pageSize, if more == pageSize then 0 else more))
  }

  lemma DealsAs(all: seq<ListedDataSet>, keep: ListedDataSet -> bool, project: string, pageSize: nat, from: nat,
                stop: nat, found: nat, more: nat)
    requires pageSize > 0 && from <= stop <= |all|
    requires Fits(Rest(all, keep, from), project, pageSize, found) <==>
      more <= pageSize && Fits(Rest(all, keep, stop), project, pageSize, if more == pageSize then 0 else more)
    ensures Deals(all, keep, project, pageSize, from, stop, found, more)
  {
    hide Fits, Rest;
  }

  lemma DealsThrough(all: seq<ListedDataSet>, keep: ListedDataSet -> bool, project: string, pageSize: nat, from: nat,
                     mid: nat, stop: nat, found: nat, more: nat, total: nat)
    requires pageSize > 0 && more < pageSize
    requires Deals(all, keep, project, pageSize, from, mid, found, more)
    requires Deals(all, keep, project, pageSize, mid, stop, more, total)
    ensures Deals(all, keep, project, pageSize, from, stop, found, total)
  {
    hide Fits, Rest;
  }

  /** An inner call that is not truncated deals out one page, or the last datasets there are. */
  lemma FitsTurn(all: seq<ListedDataSet>, keep: ListedDataSet -> bool, project: string, pageSize: nat, from: nat,
                 turn: Turn, found: nat)
    requires pageSize > 0 && DistinctIds(all) && OldestFirst(all) && Answers(all, keep, pageSize, from, turn)
    requires !Overcollected(turn, pageSize)
    ensures Deals(all, keep, project, pageSize, from, Stop(all, turn.reply.next), found,
        found + CountOf(project, turn.reply.data))
  {
    hide *;
    var stop := Stop(all, turn.reply.next);
    UncutPage(all, keep, pageSize, from, turn);
    RestFrom(all, keep, from, stop);
    var page := Filter(keep, all[from..stop]);
    SameCount(project, page);
    if |page| == pageSize {
      FitsPage(page, Rest(all, keep, stop), project, pageSize, found);
    } else {
      FitsPage(page, [], project, pageSize, found);
    }
    DealsAs(all, keep, project, pageSize, from, stop, found, found + CountOf(project, page));
  }

  lemma SameCount(project: string, page: seq<ListedDataSet>)
    ensures CountOf(project, Rev(page)) == CountOf(project, page)
  {
    RevFilter(OfProject(project), page);
  }

  lemma InnerHead(all: seq<ListedDataSet>, keep: ListedDataSet -> bool, project: string, pageSize: nat, from: nat,
                  inner: seq<Turn>)
    requires pageSize > 0 && Inner(all, keep, pageSize, from, inner)
    ensures inner != [] && Answers(all, keep, pageSize, from, inner[0])
    ensures |inner| == 1 ==> inner[1..] == [] && Found(project, inner[1..]) == []
    ensures |inner| > 1 ==>
      && inner[0].reply.next.Some?
      && Inner(all, keep, pageSize, Stop(all, inner[0].reply.next), inner[1..])
      && inner[1..][|inner| - 2] == inner[|inner| - 1]
  {
    hide Answers, Stop;
  }

  lemma NoneOvercollectedHead(inner: seq<Turn>, pageSize: nat)
    requires inner != []
    ensures NoneOvercollected(inner, pageSize) <==>
      !Overcollected(inner[0], pageSize) && NoneOvercollected(inner[1..], pageSize)
  {
    hide Overcollected;
    assert forall i :: 0 < i < |inner| ==> inner[i] == inner[1..][i - 1];
    if !Overcollected(inner[0], pageSize) && !NoneOvercollected(inner, pageSize) {
      var i :| 0 <= i < |inner| && Overcollected(inner[i], pageSize);
      assert inner[1..][i - 1] == inner[i];
    }
    if NoneOvercollected(inner, pageSize) {
      assert forall i :: 0 <= i < |inner[1..]| ==> inner[1..][i] == inner[i + 1];
    }
  }

  /** So do the inner calls of an outer one. */
  lemma {:induction false} FitsInner(all: seq<ListedDataSet>, keep: ListedDataSet -> bool, project: string,
                                     pageSize: nat, from: nat, inner: seq<Turn>, found: nat)
    requires pageSize > 0 && DistinctIds(all) && OldestFirst(all) && Inner(all, keep, pageSize, from, inner)
    requires NoneOvercollected(inner, pageSize) && found + |Found(project, inner[..|inner| - 1])| < pageSize
    ensures Deals(all, keep, project, pageSize, from, Stop(all, inner[|inner| - 1].reply.next), found,
        found + |Found(project, inner)|)
    decreases |inner|
  {
    hide *;
    InnerHead(all, keep, project, pageSize, from, inner);
    NoneOvercollectedHead(inner, pageSize);
    FitsTurn(all, keep, project, pageSize, from, inner[0], found);
    FoundFirst(project, inner);
    CountIs(project, inner[0].reply.data);
    if |inner| > 1 {
      var mid, stop := Stop(all, inner[0].reply.next), Stop(all, inner[|inner| - 1].reply.next);
      var more := found + CountOf(project, inner[0].reply.data);
      FrontRest(inner);
      FoundFirst(project, inner[..|inner| - 1]);
      FitsInner(all, keep, project, pageSize, mid, inner[1..], more);
      DealsThrough(all, keep, project, pageSize, from, mid, stop, found, more, found + |Found(project, inner)|);
    }
  }

  lemma CountIs(project: string, s: seq<ListedDataSet>)
    ensures CountOf(project, s) == |Filter(OfProject(project), s)|
  {}

  /** An outer call without inner truncation, and where the next one starts. */
  lemma FitsCall(all: seq<ListedDataSet>, keep: ListedDataSet -> bool, project: string, pageSize: nat, from: nat,
                 call: Call)
    requires pageSize > 0 && DistinctIds(all) && OldestFirst(all) && from <= |all|
    requires ProjectAnswers(all, keep, project, pageSize, from, call) && NoneOvercollected(call.inner, pageSize)
    ensures Overfound(project, pageSize, call) ==> !Fits(Rest(all, keep, from), project, pageSize, 0)
    ensures !Overfound(project, pageSize, call) ==>
      var stop := Stop(all, call.reply.next);
      && from <= stop <= |all|
      && (Fits(Rest(all, keep, from), project, pageSize, 0) <==> Fits(Rest(all, keep, stop), project, pageSize, 0))
  {
    var stop := Stop(all, call.inner[|call.inner| - 1].reply.next);
    FitsInner(all, keep, project, pageSize, from, call.inner, 0);
    RestFrom(all, keep, |all|, |all|);
    FitsNone(project, pageSize, 0);
    FitsNone(project, pageSize, if Overfound(project, pageSize, call) then 0 else |Found(project, call.inner)|);
    hide Fits, Rest, OldestFirst, DistinctIds, Inner, Found, NoneOvercollected;
  }

  /** A walk none of whose inner calls is truncated finds a page of the project each time exactly if they fit. */
  lemma {:induction false} FitsWalk(all: seq<ListedDataSet>, keep: ListedDataSet -> bool, project: string,
                                    pageSize: nat, from: nat, calls: seq<Call>)
    requires pageSize > 0 && DistinctIds(all) && OldestFirst(all) && from <= |all|
    requires ProjectTurnWalk(all, keep, project, pageSize, from, calls)
    requires forall i :: 0 <= i < |calls| ==> NoneOvercollected(calls[i].inner, pageSize)
    ensures Fits(Rest(all, keep, from), project, pageSize, 0) <==> NoneOverfound(calls, project, pageSize)
    decreases |calls|
  {
    var stop := Stop(all, calls[0].reply.next);
    assert calls[0].reply.next.None? ==> stop == |all|;
    assert forall i :: 0 <= i < |calls[1..]| ==> calls[1..][i] == calls[i + 1];
    hide Fits, Rest, OldestFirst, DistinctIds, Stop, ProjectAnswers, Found, NoneOvercollected, NoneOverfound;
    FitsCall(all, keep, project, pageSize, from, calls[0]);
    OverfoundStep(calls, project, pageSize);
    if Overfound(project, pageSize, calls[0]) {
    } else if |calls| == 1 {
      RestFrom(all, keep, |all|, |all|);
      FitsNone(project, pageSize, 0);
      OverfoundNone(project, pageSize);
      assert calls[1..] == [];
    } else {
      FitsWalk(all, keep, project, pageSize, stop, calls[1..]);
    }
  }

  // ----- Without a split no inner call is truncated -----

  lemma {:induction false} InnerNeverCut(all: seq<ListedDataSet>, keep: ListedDataSet -> bool, pageSize: nat,
                                         from: nat, inner: seq<Turn>)
    requires pageSize > 0 && DistinctIds(all) && !SomeSplit(all, keep, pageSize) && from <= |all|
    requires Inner(all, keep, pageSize, from, inner)
    requires Before(all, keep, from) % pageSize == 0 || from == |all|
    ensures NoneOvercollected(inner, pageSize)
    ensures inner[|inner| - 1].reply.next.Some? ==>
      var stop := Stop(all, inner[|inner| - 1].reply.next);
      stop <= |all| && (Before(all, keep, stop) % pageSize == 0 || stop == |all|)
    decreases |inner|
  {
    InnerHead(all, keep, "", pageSize, from, inner);
    hide *;
    NotCut(all, keep, pageSize, from, inner[0]);
    NoneOvercollectedHead(inner, pageSize);
    if |inner| == 1 {
      NoTurns(pageSize);
    } else {
      InnerNeverCut(all, keep, pageSize, Stop(all, inner[0].reply.next), inner[1..]);
    }
  }

  lemma NoTurns(pageSize: nat)
    ensures NoneOvercollected([], pageSize)
  {}

  lemma {:induction false} WalkNeverCut(all: seq<ListedDataSet>, keep: ListedDataSet -> bool, project: string,
                                        pageSize: nat, from: nat, calls: seq<Call>)
    requires pageSize > 0 && DistinctIds(all) && OldestFirst(all) && !SomeSplit(all, keep, pageSize) && from <= |all|
    requires ProjectTurnWalk(all, keep, project, pageSize, from, calls)
    requires Before(all, keep, from) % pageSize == 0 || from == |all|
    requires Fits(Rest(all, keep, from), project, pageSize, 0)
    ensures forall i :: 0 <= i < |calls| ==> NoneOvercollected(calls[i].inner, pageSize)
    decreases |calls|
  {
    var inner, stop := calls[0].inner, Stop(all, calls[0].reply.next);
    CallHead(all, keep, project, pageSize, from, calls);
    hide *;
    InnerNeverCut(all, keep, pageSize, from, inner);
    FitsCall(all, keep, project, pageSize, from, calls[0]);
    CallInner(all, keep, project, pageSize, from, calls[0]);
    if |calls| == 1 {
    } else {
      WalkNeverCut(all, keep, project, pageSize, stop, calls[1..]);
      forall i | 0 < i < |calls|
        ensures NoneOvercollected(calls[i].inner, pageSize)
      {
        assert calls[1..][i - 1] == calls[i];
      }
    }
  }

  lemma CallInner(all: seq<ListedDataSet>, keep: ListedDataSet -> bool, project: string, pageSize: nat, from: nat,
                  call: Call)
    requires pageSize > 0 && ProjectAnswers(all, keep, project, pageSize, from, call)
    ensures call.inner != []
    ensures !Overfound(project, pageSize, call) ==> call.reply.next == call.inner[|call.inner| - 1].reply.next
  {
    hide Found, Stop;
  }

  // ----- Calls and walks that can always be made -----

  ghost predicate Unseen(inner: seq<Turn>, x: ListedDataSet) {
    forall i :: 0 <= i < |inner| ==> x !in inner[i].reply.data
  }

  lemma UnseenCons(turn: Turn, rest: seq<Turn>, x: ListedDataSet)
    requires x !in turn.reply.data && Unseen(rest, x)
    ensures Unseen([turn] + rest, x)
  {}

  lemma {:induction false} UnseenNotFound(project: string, inner: seq<Turn>, x: ListedDataSet)
    requires Unseen(inner, x)
    ensures x !in Found(project, inner)
  {
    if inner == [] {
    } else {
      FoundFirst(project, inner);
      FilterMembers(OfProject(project), inner[0].reply.data);
      assert forall i :: 0 <= i < |inner[1..]| ==> inner[1..][i] == inner[i + 1];
      hide Found, Filter;
      UnseenNotFound(project, inner[1..], x);
    }
  }

  /** A call returns nothing that lies before its start or behind its end. */
  lemma OutsideUnseen(all: seq<ListedDataSet>, keep: ListedDataSet -> bool, pageSize: nat, from: nat, turn: Turn,
                      k: nat)
    requires pageSize > 0 && DistinctIds(all) && Answers(all, keep, pageSize, from, turn)
    requires k < |all| && (k < from || turn.end <= k)
    ensures all[k] !in turn.reply.data
  {
    forall x | x in turn.reply.data
      ensures x != all[k]
    {
      ReturnedWithin(all, keep, pageSize, from, turn, x);
      var i :| from <= i < turn.end && all[i] == x;
      assert all[i].id != all[k].id;
    }
  }

  /** Inner calls return nothing from before the first one's start, and never go back behind it. */
  lemma {:induction false} InnerGoesOn(all: seq<ListedDataSet>, keep: ListedDataSet -> bool, pageSize: nat, from: nat,
                                       inner: seq<Turn>, k: nat)
    requires pageSize > 0 && DistinctIds(all) && OldestFirst(all) && Inner(all, keep, pageSize, from, inner)
    requires k < from <= |all|
    ensures Unseen(inner, all[k]) && LastSpan(all, pageSize, from, inner).lo > k
    ensures Stop(all, inner[|inner| - 1].reply.next) > k
    decreases |inner|
  {
    InnerHead(all, keep, "", pageSize, from, inner);
    OutsideUnseen(all, keep, pageSize, from, inner[0], k);
    TurnShows(all, keep, pageSize, from, inner[0]);
    hide Answers, OldestFirst, DistinctIds, Filter, Inner, SpanOf;
    assert inner == [inner[0]] + inner[1..];
    if inner[0].reply.next.Some? {
      ProgressOf(all, keep, pageSize, from, inner[0]);
    }
    if |inner| == 1 {
      assert LastSpan(all, pageSize, from, inner) == SpanOf(all, pageSize, from, inner[0]);
    } else {
      InnerRest(all, keep, pageSize, from, inner, None);
      InnerGoesOn(all, keep, pageSize, Stop(all, inner[0].reply.next), inner[1..], k);
    }
  }

  lemma InnerOne(all: seq<ListedDataSet>, keep: ListedDataSet -> bool, project: string, pageSize: nat, from: nat,
                 turn: Turn)
    requires pageSize > 0 && Answers(all, keep, pageSize, from, turn)
    ensures Inner(all, keep, pageSize, from, [turn])
    ensures Found(project, [turn][..|[turn]| - 1]) == []
    ensures |Found(project, [turn])| == CountOf(project, turn.reply.data)
    ensures LastSpan(all, pageSize, from, [turn]) == SpanOf(all, pageSize, from, turn)
  {
    hide Answers, SpanOf;
    FoundFirst(project, [turn]);
    assert [turn][1..] == [] && [turn][..|[turn]| - 1] == [] && Found(project, []) == [];
  }

  lemma InnerCons(all: seq<ListedDataSet>, keep: ListedDataSet -> bool, project: string, pageSize: nat, from: nat,
                  turn: Turn, rest: seq<Turn>)
    requires pageSize > 0 && Answers(all, keep, pageSize, from, turn) && turn.reply.next.Some?
    requires Inner(all, keep, pageSize, Stop(all, turn.reply.next), rest)
    ensures
      var inner, count := [turn] + rest, CountOf(project, turn.reply.data);
      && Inner(all, keep, pageSize, from, inner)
      && inner[|inner| - 1] == rest[|rest| - 1]
      && |Found(project, inner)| == count + |Found(project, rest)|
      && |Found(project, inner[..|inner| - 1])| == count + |Found(project, rest[..|rest| - 1])|
      && LastSpan(all, pageSize, from, inner) == LastSpan(all, pageSize, Stop(all, turn.reply.next), rest)
  {
    var inner := [turn] + rest;
    assert inner[1..] == rest && inner[..|inner| - 1] == [turn] + rest[..|rest| - 1];
    assert ([turn] + rest[..|rest| - 1])[1..] == rest[..|rest| - 1];
    hide Answers, SpanOf;
    FoundFirst(project, inner);
    FoundFirst(project, [turn] + rest[..|rest| - 1]);
    hide Stop, Found;
    InnerRest(all, keep, pageSize, from, inner, None);
  }

  /** From everywhere an outer call can go on with inner calls that are not truncated. */
  lemma {:induction false} PlainInner(all: seq<ListedDataSet>, keep: ListedDataSet -> bool, project: string,
                                      pageSize: nat, from: nat, found: nat) returns (inner: seq<Turn>)
    requires pageSize > 0 && DistinctIds(all) && OldestFirst(all) && from <= |all| && found < pageSize
    ensures Inner(all, keep, pageSize, from, inner) && NoneOvercollected(inner, pageSize)
    ensures found + |Found(project, inner[..|inner| - 1])| < pageSize
    ensures found + |Found(project, inner)| >= pageSize || inner[|inner| - 1].reply.next.None?
    decreases |all| - from
  {
    hide *;
    var turn := PlainTurn(all, keep, pageSize, from);
    InnerOne(all, keep, project, pageSize, from, turn);
    inner := [turn];
    assert inner[1..] == [];
    NoneOvercollectedHead(inner, pageSize);
    NoTurns(pageSize);
    if found + CountOf(project, turn.reply.data) < pageSize && turn.reply.next.Some? {
      var rest := PlainInner(all, keep, project, pageSize, turn.end, found + CountOf(project, turn.reply.data));
      InnerCons(all, keep, project, pageSize, from, turn, rest);
      inner := [turn] + rest;
      NoneOvercollectedHead(inner, pageSize);
      assert inner[1..] == rest;
    }
  }

  /** Inner calls that fill a page, or reach the end, make an outer call. */
  lemma MakeCall(all: seq<ListedDataSet>, keep: ListedDataSet -> bool, project: string, pageSize: nat, from: nat,
                 inner: seq<Turn>) returns (call: Call)
    requires pageSize > 0 && Inner(all, keep, pageSize, from, inner)
    requires |Found(project, inner[..|inner| - 1])| < pageSize
    requires |Found(project, inner)| >= pageSize || inner[|inner| - 1].reply.next.None?
    ensures ProjectAnswers(all, keep, project, pageSize, from, call) && call.inner == inner
    ensures forall d :: d in call.reply.data ==> d in Found(project, inner)
  {
    assert inner != [];
    hide *;
    var found := Found(project, inner);
    if |found| > pageSize {
      call := Call(inner, Reply(found[..pageSize], Some(found[pageSize - 1].id)));
      PrefixMembers(found, pageSize);
    } else {
      call := Call(inner, Reply(found, inner[|inner| - 1].reply.next));
    }
    AnswersOuter(all, keep, project, pageSize, from, call, found);
  }

  lemma AnswersOuter(all: seq<ListedDataSet>, keep: ListedDataSet -> bool, project: string, pageSize: nat, from: nat,
                     call: Call, found: seq<ListedDataSet>)
    requires pageSize > 0 && Inner(all, keep, pageSize, from, call.inner) && found == Found(project, call.inner)
    requires call.inner != [] && |Found(project, call.inner[..|call.inner| - 1])| < pageSize
    requires |found| >= pageSize || call.inner[|call.inner| - 1].reply.next.None?
    requires call.reply ==
      if |found| > pageSize then Reply(found[..pageSize], Some(found[pageSize - 1].id))
      else Reply(found, call.inner[|call.inner| - 1].reply.next)
    ensures ProjectAnswers(all, keep, project, pageSize, from, call)
  {
    hide Inner, Found;
  }

  lemma PrefixMembers(s: seq<ListedDataSet>, n: nat)
    requires n <= |s|
    ensures forall d :: d in s[..n] ==> d in s
  {}

  /** The next outer call starts behind the start of the last inner call's span. */
  lemma CallGoesOn(all: seq<ListedDataSet>, keep: ListedDataSet -> bool, project: string, pageSize: nat, from: nat,
                   call: Call)
    requires pageSize > 0 && DistinctIds(all) && OldestFirst(all) && from <= |all|
    requires ProjectAnswers(all, keep, project, pageSize, from, call) && call.reply.next.Some?
    ensures LastSpan(all, pageSize, from, call.inner).lo < Stop(all, call.reply.next) <= |all|
        || Stop(all, call.reply.next) == Stop(all, call.inner[|call.inner| - 1].reply.next)
    ensures from < Stop(all, call.reply.next) <= |all|
  {
    var inner := call.inner;
    OuterCut(all, keep, project, pageSize, from, call);
    CallInner(all, keep, project, pageSize, from, call);
    LastAnswers(all, keep, pageSize, from, inner);
    LastFromGrows(all, keep, pageSize, from, inner);
    var start, last := LastFrom(all, from, inner), inner[|inner| - 1];
    TurnShows(all, keep, pageSize, start, last);
    if last.reply.next.Some? {
      ProgressOf(all, keep, pageSize, start, last);
    }
    hide Answers, OldestFirst, DistinctIds, Filter, Inner, SpanOf, LastFrom, Found, Rev, ProjectAnswers, Position;
  }

  lemma {:induction false} LastFromGrows(all: seq<ListedDataSet>, keep: ListedDataSet -> bool, pageSize: nat,
                                         from: nat, inner: seq<Turn>)
    requires pageSize > 0 && DistinctIds(all) && Inner(all, keep, pageSize, from, inner) && from <= |all|
    ensures from <= LastFrom(all, from, inner) <= |all|
    decreases |inner|
  {
    InnerHead(all, keep, "", pageSize, from, inner);
    hide Answers, Inner, DistinctIds, Position;
    if |inner| == 1 {
    } else {
      ProgressOf(all, keep, pageSize, from, inner[0]);
      AnswerEnds(all, keep, pageSize, from, inner[0]);
      LastFromGrows(all, keep, pageSize, Stop(all, inner[0].reply.next), inner[1..]);
    }
  }

  /** From everywhere the project's datasets can be walked to the end without truncating an inner call. */
  lemma {:induction false} PlainWalk(all: seq<ListedDataSet>, keep: ListedDataSet -> bool, project: string,
                                     pageSize: nat, from: nat) returns (calls: seq<Call>)
    requires pageSize > 0 && DistinctIds(all) && OldestFirst(all) && from <= |all|
    ensures ProjectTurnWalk(all, keep, project, pageSize, from, calls)
    ensures forall i :: 0 <= i < |calls| ==> NoneOvercollected(calls[i].inner, pageSize)
    decreases |all| - from
  {
    hide *;
    var inner := PlainInner(all, keep, project, pageSize, from, 0);
    var call := MakeCall(all, keep, project, pageSize, from, inner);
    if call.reply.next.None? {
      calls := [call];
      WalkOne(all, keep, project, pageSize, from, call);
    } else {
      CallGoesOn(all, keep, project, pageSize, from, call);
      var rest := PlainWalk(all, keep, project, pageSize, Stop(all, call.reply.next));
      calls := [call] + rest;
      WalkMore(all, keep, project, pageSize, from, call, rest);
    }
  }

  lemma WalkOne(all: seq<ListedDataSet>, keep: ListedDataSet -> bool, project: string, pageSize: nat, from: nat,
                call: Call)
    requires pageSize > 0 && ProjectAnswers(all, keep, project, pageSize, from, call) && call.reply.next.None?
    ensures ProjectTurnWalk(all, keep, project, pageSize, from, [call])
    ensures Listed(CallReplies([call])) == call.reply.data
  {
    hide ProjectAnswers;
    OneReply(call);
  }

  lemma WalkMore(all: seq<ListedDataSet>, keep: ListedDataSet -> bool, project: string, pageSize: nat, from: nat,
                 call: Call, rest: seq<Call>)
    requires pageSize > 0 && ProjectAnswers(all, keep, project, pageSize, from, call) && call.reply.next.Some?
    requires ProjectTurnWalk(all, keep, project, pageSize, Stop(all, call.reply.next), rest)
    ensures ProjectTurnWalk(all, keep, project, pageSize, from, [call] + rest)
    ensures Listed(CallReplies([call] + rest)) == call.reply.data + Listed(CallReplies(rest))
  {
    hide ProjectAnswers, Stop;
    assert ([call] + rest)[1..] == rest;
    CallsStep([call] + rest);
  }

  // ----- Across a split the owner of some dataset loses it -----

  /** A split, and the first dataset of the page that ends there. */
  ghost predicate DropsFirst(all: seq<ListedDataSet>, keep: ListedDataSet -> bool, pageSize: nat, a: nat, b: nat,
                             k: nat) {
    && Splits(all, keep, pageSize, a, b)
    && k < |all| && keep(all[k]) && Before(all, keep, k) + pageSize == Before(all, keep, b)
  }

  /** The truncated call drops the first dataset of the page. */
  lemma CutDrops(all: seq<ListedDataSet>, keep: ListedDataSet -> bool, pageSize: nat, from: nat, turn: Turn, k: nat)
    requires pageSize > 0 && DistinctIds(all) && OldestFirst(all) && Answers(all, keep, pageSize, from, turn)
    requires Overcollected(turn, pageSize) && from <= |all|
    requires k < |all| && keep(all[k]) && Before(all, keep, k) == Before(all, keep, from)
    ensures SpanOf(all, pageSize, from, turn).lo > k && Stop(all, turn.reply.next) > k
    ensures all[k] !in turn.reply.data
  {
    var span := SpanOf(all, pageSize, from, turn);
    TurnShows(all, keep, pageSize, from, turn);
    hide Answers, OldestFirst, Filter, SpanOf, Stop, Overcollected, Before;
    CountBetween(all, keep, from, span.lo);
    CountLess(all, keep, k, span.lo);
    NotShown(all, keep, span.lo, span.hi, k);
  }

  lemma NotShown(all: seq<ListedDataSet>, keep: ListedDataSet -> bool, lo: nat, hi: nat, k: nat)
    requires DistinctIds(all) && k < lo <= hi <= |all|
    ensures all[k] !in Rev(Filter(keep, all[lo..hi]))
  {
    var shown := Filter(keep, all[lo..hi]);
    FilterMembers(keep, all[lo..hi]);
    hide Filter;
    forall x | x in Rev(shown)
      ensures x != all[k]
    {
      assert x in shown;
      var i :| lo <= i < hi && all[i] == x;
      assert all[k].id != all[i].id;
    }
  }

  /** One inner call on the way to the split, or across it. */
  lemma TurnTowards(all: seq<ListedDataSet>, keep: ListedDataSet -> bool, pageSize: nat, from: nat, a: nat, b: nat,
                    k: nat) returns (turn: Turn, cut: bool)
    requires pageSize > 0 && DistinctIds(all) && OldestFirst(all) && from <= |all|
    requires DropsFirst(all, keep, pageSize, a, b, k)
    requires Before(all, keep, from) % pageSize == 0 && Before(all, keep, from) + pageSize <= Before(all, keep, b)
    ensures Answers(all, keep, pageSize, from, turn) && turn.reply.next.Some? && all[k] !in turn.reply.data
    ensures from < Stop(all, turn.reply.next) <= |all|
    ensures cut ==> SpanOf(all, pageSize, from, turn).lo > k && Stop(all, turn.reply.next) > k
    ensures !cut ==>
      && !Overcollected(turn, pageSize)
      && Before(all, keep, Stop(all, turn.reply.next)) % pageSize == 0
      && Before(all, keep, Stop(all, turn.reply.next)) + pageSize <= Before(all, keep, b)
  {
    DropsFirstGives(all, keep, pageSize, a, b, k);
    hide *;
    SplitGives(all, keep, pageSize, a, b);
    cut := Before(all, keep, from) + pageSize == Before(all, keep, b);
    if cut {
      turn := CutTurn(all, keep, pageSize, from, a, b);
      CutDrops(all, keep, pageSize, from, turn, k);
    } else {
      turn := PlainTurn(all, keep, pageSize, from);
      NextMultiple(Before(all, keep, from), pageSize);
      MultiplesApart(Before(all, keep, from) + pageSize, Before(all, keep, b), pageSize);
      CountLess(all, keep, k, turn.end);
      OutsideUnseen(all, keep, pageSize, from, turn, k);
    }
    AnswerEnds(all, keep, pageSize, from, turn);
  }

  lemma DropsFirstGives(all: seq<ListedDataSet>, keep: ListedDataSet -> bool, pageSize: nat, a: nat, b: nat, k: nat)
    requires DropsFirst(all, keep, pageSize, a, b, k)
    ensures Splits(all, keep, pageSize, a, b) && b < |all| && k < |all| && keep(all[k])
    ensures Before(all, keep, k) + pageSize == Before(all, keep, b) && Before(all, keep, b) % pageSize == 0
  {}

  /** Inner calls up to the end of an outer call, which goes across the split if it gets that far. */
  lemma {:induction false} InnerTowards(all: seq<ListedDataSet>, keep: ListedDataSet -> bool, project: string,
                                        pageSize: nat, from: nat, found: nat, a: nat, b: nat, k: nat)
    returns (inner: seq<Turn>, cut: bool)
    requires pageSize > 0 && DistinctIds(all) && OldestFirst(all) && from <= |all| && found < pageSize
    requires DropsFirst(all, keep, pageSize, a, b, k) && k < |all|
    requires b < |all| && Before(all, keep, from) % pageSize == 0
        && Before(all, keep, from) + pageSize <= Before(all, keep, b)
    ensures inner != [] && Inner(all, keep, pageSize, from, inner) && Unseen(inner, all[k])
    ensures found + |Found(project, inner[..|inner| - 1])| < pageSize
    ensures found + |Found(project, inner)| >= pageSize || inner[|inner| - 1].reply.next.None?
    ensures cut ==>
      && LastSpan(all, pageSize, from, inner).lo > k
      && Stop(all, inner[|inner| - 1].reply.next) > k
    ensures !cut ==>
      var stop := Stop(all, inner[|inner| - 1].reply.next);
      && NoneOvercollected(inner, pageSize) && inner[|inner| - 1].reply.next.Some?
      && from < stop <= |all| && Before(all, keep, stop) % pageSize == 0
      && Before(all, keep, stop) + pageSize <= Before(all, keep, b)
    decreases |all| - from
  {
    hide *;
    var turn;
    turn, cut := TurnTowards(all, keep, pageSize, from, a, b, k);
    var stop, more := Stop(all, turn.reply.next), found + CountOf(project, turn.reply.data);
    inner := [turn];
    assert inner[1..] == [];
    InnerOne(all, keep, project, pageSize, from, turn);
    NoneOvercollectedHead(inner, pageSize);
    NoTurns(pageSize);
    UnseenNone(all[k]);
    UnseenCons(turn, [], all[k]);
    assert [turn] + [] == [turn];
    if more < pageSize {
      var rest;
      if cut {
        rest := PlainInner(all, keep, project, pageSize, stop, more);
        InnerGoesOn(all, keep, pageSize, stop, rest, k);
      } else {
        rest, cut := InnerTowards(all, keep, project, pageSize, stop, more, a, b, k);
      }
      InnerCons(all, keep, project, pageSize, from, turn, rest);
      inner := [turn] + rest;
      assert inner[1..] == rest;
      NoneOvercollectedHead(inner, pageSize);
      UnseenCons(turn, rest, all[k]);
    }
  }

  lemma UnseenNone(x: ListedDataSet)
    ensures Unseen([], x)
  {}

  lemma {:induction false} ChainStarts(all: seq<ListedDataSet>, keep: ListedDataSet -> bool, pageSize: nat, from: nat,
                                       spans: seq<Span>, to: nat)
    requires Chain(all, keep, pageSize, from, spans, to)
    ensures forall i :: 0 <= i < |spans| ==> spans[i].lo >= from
    decreases |spans|
  {
    hide Filter;
    if |spans| == 1 {
    } else {
      var next: nat :| Resumes(all, keep, spans[0], next) && Chain(all, keep, pageSize, next, spans[1..], to);
      ChainStarts(all, keep, pageSize, next, spans[1..], to);
      assert forall i :: 0 < i < |spans| ==> spans[i] == spans[1..][i - 1];
    }
  }

  /** A project's walk never goes back behind its start. */
  lemma NeverEarlier(all: seq<ListedDataSet>, keep: ListedDataSet -> bool, project: string, pageSize: nat, from: nat,
                     calls: seq<Call>, k: nat)
    requires pageSize > 0 && DistinctIds(all) && OldestFirst(all)
    requires ProjectTurnWalk(all, keep, project, pageSize, from, calls)
    requires k < from && k < |all| && KeepOf(keep, project)(all[k])
    ensures all[k] !in Listed(CallReplies(calls))
  {
    var spans, listed := WalkedSpans(all, project, pageSize, from, calls), Listed(CallReplies(calls));
    hide *;
    ProjectWalkSpans(all, keep, project, pageSize, from, calls);
    ChainStarts(all, keep, pageSize, from, spans, |all|);
    NotIn(spans, k);
    ShownNowhere(all, KeepOf(keep, project), spans, k);
    assert all[k] !in multiset(listed);
  }

  lemma NotIn(spans: seq<Span>, k: nat)
    requires forall i :: 0 <= i < |spans| ==> spans[i].lo > k
    ensures forall i :: 0 <= i < |spans| ==> !In(spans[i], k)
  {}

  /** Where a project's datasets fit onto pages, a walk of its calls can be made that goes across the split. */
  lemma {:induction false} LosingWalk(all: seq<ListedDataSet>, keep: ListedDataSet -> bool, project: string,
                                      pageSize: nat, from: nat, a: nat, b: nat, k: nat) returns (calls: seq<Call>)
    requires pageSize > 0 && DistinctIds(all) && OldestFirst(all) && from <= |all|
    requires DropsFirst(all, keep, pageSize, a, b, k) && k < |all| && KeepOf(keep, project)(all[k])
    requires b < |all| && Before(all, keep, from) % pageSize == 0
        && Before(all, keep, from) + pageSize <= Before(all, keep, b)
    requires Fits(Rest(all, keep, from), project, pageSize, 0)
    ensures ProjectTurnWalk(all, keep, project, pageSize, from, calls)
    ensures all[k] !in Listed(CallReplies(calls))
    decreases |all| - from
  {
    hide *;
    var inner, cut := InnerTowards(all, keep, project, pageSize, from, 0, a, b, k);
    var call := MakeCall(all, keep, project, pageSize, from, inner);
    UnseenNotFound(project, inner, all[k]);
    if call.reply.next.None? {
      WalkOne(all, keep, project, pageSize, from, call);
      calls := [call];
      if !cut {
        FitsCall(all, keep, project, pageSize, from, call);
        CallInner(all, keep, project, pageSize, from, call);
      }
    } else {
      var stop, rest := Stop(all, call.reply.next), [];
      CallGoesOn(all, keep, project, pageSize, from, call);
      if cut {
        rest := PlainWalk(all, keep, project, pageSize, stop);
        NeverEarlier(all, keep, project, pageSize, stop, rest, k);
      } else {
        FitsCall(all, keep, project, pageSize, from, call);
        CallInner(all, keep, project, pageSize, from, call);
        rest := LosingWalk(all, keep, project, pageSize, stop, a, b, k);
      }
      WalkMore(all, keep, project, pageSize, from, call, rest);
      calls := [call] + rest;
    }
  }

  // ----- Every project, judged on the index -----

  /** Every walk of the project, whatever pages the database serves, lists each of its readable datasets once. */
  ghost predicate EveryProjectWalkComplete(all: seq<ListedDataSet>, keep: ListedDataSet -> bool, project: string,
                                           pageSize: nat)
    requires pageSize > 0
  {
    forall calls :: ProjectTurnWalk(all, keep, project, pageSize, 0, calls) ==>
      multiset(Listed(CallReplies(calls))) == multiset(Filter(OfProject(project), Filter(keep, all)))
  }

  /** Only a project whose datasets fit onto pages has none but complete walks. */
  lemma CompleteFits(all: seq<ListedDataSet>, keep: ListedDataSet -> bool, project: string, pageSize: nat)
    requires pageSize > 0 && DistinctIds(all) && OldestFirst(all)
    requires EveryProjectWalkComplete(all, keep, project, pageSize)
    ensures Fits(Rest(all, keep, 0), project, pageSize, 0)
  {
    hide ProjectTurnWalk, Fits, Rest, OldestFirst, DistinctIds, NoneOvercollected, NoneOverfound, Filter;
    var calls := PlainWalk(all, keep, project, pageSize, 0);
    FitsWalk(all, keep, project, pageSize, 0, calls);
    ProjectWalkUncutIff(all, keep, project, pageSize, calls);
  }

  /** Without a split every walk of a project is complete exactly if its datasets fit onto pages. */
  lemma ProjectCompleteIff(all: seq<ListedDataSet>, keep: ListedDataSet -> bool, project: string, pageSize: nat)
    requires pageSize > 0 && DistinctIds(all) && OldestFirst(all) && !SomeSplit(all, keep, pageSize)
    ensures EveryProjectWalkComplete(all, keep, project, pageSize)
       <==> Fits(Rest(all, keep, 0), project, pageSize, 0)
  {
    assert all[..0] == [] && Before(all, keep, 0) == 0;
    hide ProjectTurnWalk, Fits, Rest, OldestFirst, DistinctIds, NoneOvercollected, NoneOverfound, SomeSplit, Before,
        Filter;
    if Fits(Rest(all, keep, 0), project, pageSize, 0) {
      forall calls | ProjectTurnWalk(all, keep, project, pageSize, 0, calls)
        ensures multiset(Listed(CallReplies(calls))) == multiset(Filter(OfProject(project), Filter(keep, all)))
      {
        WalkNeverCut(all, keep, project, pageSize, 0, calls);
        FitsWalk(all, keep, project, pageSize, 0, calls);
        ProjectWalkUncutIff(all, keep, project, pageSize, calls);
      }
    } else if EveryProjectWalkComplete(all, keep, project, pageSize) {
      CompleteFits(all, keep, project, pageSize);
    }
  }

  /** Across a split the project that owns the dataset dropped there has a walk without it. */
  lemma SplitLoses(all: seq<ListedDataSet>, keep: ListedDataSet -> bool, pageSize: nat) returns (project: string)
    requires pageSize > 0 && DistinctIds(all) && OldestFirst(all) && SomeSplit(all, keep, pageSize)
    requires forall d :: d in all ==> d.owner.Some?
    ensures !EveryProjectWalkComplete(all, keep, project, pageSize)
  {
    var a, b :| Splits(all, keep, pageSize, a, b);
    assert all[..0] == [] && Before(all, keep, 0) == 0;
    SplitGives(all, keep, pageSize, a, b);
    MultiplesApart(0, Before(all, keep, b), pageSize);
    var k := Nth(all, keep, Before(all, keep, b) - pageSize);
    assert all[k] in all;
    project := Split(all[k].owner.value, '#')[0];
    assert KeepOf(keep, project)(all[k]);
    assert DropsFirst(all, keep, pageSize, a, b, k);
    hide ProjectTurnWalk, Fits, Rest, OldestFirst, DistinctIds, Before, Splits, DropsFirst, Split;
    if Fits(Rest(all, keep, 0), project, pageSize, 0) {
      var calls := LosingWalk(all, keep, project, pageSize, 0, a, b, k);
      OwnReadable(all, keep, project, k);
      assert all[k] !in multiset(Listed(CallReplies(calls)));
    } else if EveryProjectWalkComplete(all, keep, project, pageSize) {
      CompleteFits(all, keep, project, pageSize);
    }
  }

  lemma OwnReadable(all: seq<ListedDataSet>, keep: ListedDataSet -> bool, project: string, k: nat)
    requires k < |all| && KeepOf(keep, project)(all[k])
    ensures all[k] in Filter(OfProject(project), Filter(keep, all))
  {
    FilterMembers(keep, all);
    FilterMembers(OfProject(project), Filter(keep, all));
  }

  ghost predicate EveryWalkOfAllComplete(all: seq<ListedDataSet>, keep: ListedDataSet -> bool, pageSize: nat)
    requires pageSize > 0
  {
    forall project :: EveryProjectWalkComplete(all, keep, project, pageSize)
  }

  ghost predicate AllFit(readable: seq<ListedDataSet>, pageSize: nat)
    requires pageSize > 0
  {
    forall project :: Fits(readable, project, pageSize, 0)
  }

  /**
   * Over an oldest-first index of datasets that all have an owner, judged before the first call: every walk of every
   * project lists each of its readable datasets once and nothing else, if and only if no end of a page splits two
   * readable datasets that are close together, and every project's datasets fit onto the pages.
   */
  lemma EveryProjectCompleteIff(all: seq<ListedDataSet>, keep: ListedDataSet -> bool, pageSize: nat)
    requires pageSize > 0 && DistinctIds(all) && OldestFirst(all) && forall d :: d in all ==> d.owner.Some?
    ensures EveryWalkOfAllComplete(all, keep, pageSize)
       <==> !SomeSplit(all, keep, pageSize) && AllFit(Filter(keep, all), pageSize)
  {
    assert all[0..] == all && Rest(all, keep, 0) == Filter(keep, all);
    hide Rest, Filter, Fits, EveryProjectWalkComplete, SomeSplit, DistinctIds, OldestFirst;
    if SomeSplit(all, keep, pageSize) {
      var project := SplitLoses(all, keep, pageSize);
    } else {
      forall project
        ensures EveryProjectWalkComplete(all, keep, project, pageSize)
           <==> Fits(Filter(keep, all), project, pageSize, 0)
      {
        ProjectCompleteIff(all, keep, project, pageSize);
      }
    }
  }

  /** Pages of one dataset each, or a page that holds them all, fit every project. */
  lemma {:induction false} FitsWhenSmall(readable: seq<ListedDataSet>, project: string, pageSize: nat)
    requires pageSize == 1 || |readable| <= pageSize
    requires pageSize > 0
    ensures Fits(readable, project, pageSize, 0)
    decreases |readable|
  {
    FilterShorter(OfProject(project), readable);
    if |readable| < pageSize {
    } else {
      FilterShorter(OfProject(project), readable[..pageSize]);
      FitsWhenSmall(readable[pageSize..], project, pageSize);
      if pageSize > 1 {
        FitsNone(project, pageSize, CountOf(project, readable[..pageSize]));
      }
    }
  }

  /** If every dataset is readable, no project loses any exactly when a page is one dataset or holds them all. */
  lemma AllReadableProjectsIff(all: seq<ListedDataSet>, keep: ListedDataSet -> bool, pageSize: nat)
    requires pageSize > 0 && DistinctIds(all) && OldestFirst(all)
    requires forall d :: d in all ==> keep(d) && d.owner.Some?
    ensures EveryWalkOfAllComplete(all, keep, pageSize) <==> pageSize == 1 || |all| <= pageSize
  {
    EveryProjectCompleteIff(all, keep, pageSize);
    AllKept(keep, all);
    if pageSize == 1 || |all| <= pageSize {
      NoSplitWhenSmallOrSparse(all, keep, pageSize);
      forall project
        ensures Fits(all, project, pageSize, 0)
      {
        FitsWhenSmall(all, project, pageSize);
      }
    } else {
      FirstPageSplits(all, keep, pageSize);
    }
  }
}
