/** The listing of one project's datasets, which is stacked on the general listing and truncates once more. */
module ProjectListing {
  import opened Prelude
  import PermissionStore
  import opened PermissionKeys
  import opened DatasetListing
  import opened OldestFirstListing

  // ----- One project's datasets -----

  /** The owner prefix names the project. */
  predicate OwnedBy(d: ListedDataSet, project: string) {
    d.owner.Some? && Split(d.owner.value, '#')[0] == project
  }

  function OfProject(project: string): ListedDataSet -> bool {
    (d: ListedDataSet) => OwnedBy(d, project)
  }

  function KeepOf(keep: ListedDataSet -> bool, project: string): ListedDataSet -> bool {
    (d: ListedDataSet) => keep(d) && OwnedBy(d, project)
  }

  /** What one inner page contributes to a project's listing. */
  lemma ProjectPage(all: seq<ListedDataSet>, keep: ListedDataSet -> bool, project: string, from: nat, at: nat,
                    stop: nat, inner: seq<ListedDataSet>)
    requires from <= at <= stop <= |all| && inner == Filter(keep, all[at..stop])
    ensures Filter(KeepOf(keep, project), all[from..stop])
         == Filter(KeepOf(keep, project), all[from..at]) + Filter(OfProject(project), inner)
  {
    FilterTwice(keep, OfProject(project), KeepOf(keep, project), all[at..stop]);
    FilterExtend(KeepOf(keep, project), all, from, at, stop);
  }

  /** Cutting a project's listing to a page ends the stretch at the last dataset kept. */
  lemma CutPage(all: seq<ListedDataSet>, keep: ListedDataSet -> bool, pageSize: nat, from: nat, end: nat)
    requires pageSize > 0 && DistinctIds(all) && from <= end <= |all| && |Filter(keep, all[from..end])| > pageSize
    ensures
      var found := Filter(keep, all[from..end]);
      Chunk(all, keep, pageSize, from, Reply(found[..pageSize], Some(found[pageSize - 1].id)))
  {
    hide Filter, DistinctIds;
    var i := FilterPosition(keep, all[from..end], pageSize - 1);
    assert all[from..end][..i + 1] == all[from..from + i + 1];
    PositionAfter(all, from + i);
  }

  /** What an outer call did: the inner calls it made, and its answer. */
  datatype Call = Call(inner: seq<Turn>, reply: Reply)

  /** Inner calls made one after the other, each with the token of the one before. */
  ghost predicate Inner(all: seq<ListedDataSet>, keep: ListedDataSet -> bool, pageSize: nat, from: nat,
                        inner: seq<Turn>)
    requires pageSize > 0
    decreases |inner|
  {
    && inner != [] && Answers(all, keep, pageSize, from, inner[0])
    && (|inner| > 1 ==>
          inner[0].reply.next.Some? && Inner(all, keep, pageSize, Stop(all, inner[0].reply.next), inner[1..]))
  }

  /** What the inner calls answer of the project. */
  ghost function Found(project: string, inner: seq<Turn>): seq<ListedDataSet> {
    Filter(OfProject(project), Listed(RepliesOf(inner)))
  }

  /** The guard of the truncating branch of the outer call. */
  ghost predicate Overfound(project: string, pageSize: nat, call: Call) {
    |Found(project, call.inner)| > pageSize
  }

  /** An outer call starts at `from`, goes on while it found less than a page, and truncates what is more. */
  ghost predicate ProjectAnswers(all: seq<ListedDataSet>, keep: ListedDataSet -> bool, project: string, pageSize: nat,
                                 from: nat, call: Call)
    requires pageSize > 0
  {
    && Inner(all, keep, pageSize, from, call.inner)
    && var found, last := Found(project, call.inner), |call.inner| - 1;
       && |Found(project, call.inner[..last])| < pageSize
       && (|found| >= pageSize || call.inner[last].reply.next.None?)
       && call.reply == if Overfound(project, pageSize, call)
           then Reply(found[..pageSize], Some(found[pageSize - 1].id))
                        else Reply(found, call.inner[last].reply.next)
  }

  lemma {:induction false} RepliesAppend(turns: seq<Turn>, turn: Turn)
    ensures Listed(RepliesOf(turns + [turn])) == Listed(RepliesOf(turns)) + turn.reply.data
  {
    var more := turns + [turn];
    assert RepliesOf(more)[1..] == RepliesOf(more[1..]);
    if turns == [] {
      assert more[1..] == [] && Listed(RepliesOf([])) == [];
    } else {
      assert more[1..] == turns[1..] + [turn] && RepliesOf(turns)[1..] == RepliesOf(turns[1..]);
      RepliesAppend(turns[1..], turn);
    }
  }

  lemma FoundAppend(project: string, inner: seq<Turn>, turn: Turn)
    ensures Found(project, inner + [turn]) == Found(project, inner) + Filter(OfProject(project), turn.reply.data)
  {
    RepliesAppend(inner, turn);
    FilterConcat(OfProject(project), Listed(RepliesOf(inner)), turn.reply.data);
  }

  lemma {:induction false} InnerAppend(all: seq<ListedDataSet>, keep: ListedDataSet -> bool, pageSize: nat, from: nat,
                                       inner: seq<Turn>, turn: Turn)
    requires pageSize > 0 && Inner(all, keep, pageSize, from, inner)
    requires inner[|inner| - 1].reply.next.Some?
    requires Answers(all, keep, pageSize, Stop(all, inner[|inner| - 1].reply.next), turn)
    ensures Inner(all, keep, pageSize, from, inner + [turn])
    decreases |inner|
  {
    hide Answers;
    if |inner| == 1 {
      assert (inner + [turn])[1..] == [turn];
    } else {
      InnerAppend(all, keep, pageSize, Stop(all, inner[0].reply.next), inner[1..], turn);
      assert (inner + [turn])[1..] == inner[1..] + [turn];
    }
  }

  /** Lists one project's datasets over the general listing, collecting until a page is full. */
  method ListDataSetsForProject(all: seq<ListedDataSet>, table: PermissionStore.PermissionTable, reader: Reader,
                                project: string, itAdmin: bool, pageSize: nat, token: Token)
    returns (r: Option<Reply>, ghost call: Call)
    requires table.Valid() && pageSize > 0 && DistinctIds(all) && KnownToken(all, token)
    ensures itAdmin ==> r == Some(Reply([], None))
    ensures r.None? <==> !itAdmin && Position(all, token) < |all| && Undecided(reader)
    ensures r.Some? ==>
      && |r.value.data| <= pageSize
      && (forall d :: d in r.value.data ==>
            d in all && MayRead(table.perms, reader, d.id) && d.owner.Some?
            && Split(d.owner.value, '#')[0] == project)
    ensures !itAdmin && r.Some? ==>
      var keep, from := ReadableBy(table.perms, reader), Position(all, token);
      && call.reply == r.value
      && ProjectAnswers(all, keep, project, pageSize, from, call)
      && (NewestFirst(all) ==> Chunk(all, KeepOf(keep, project), pageSize, from, r.value))
  {
    call := Call([], Reply([], None));
    if itAdmin {
      return Some(Reply([], None)), call;
    }
    hide *;
    var found, last;
    ghost var inner, end;
    found, last, inner, end := CollectForProject(all, table, reader, project, pageSize, token);
    if found.None? {
      return None, call;
    }
    var collected, reply := found.value, Reply([], None);
    if |collected| > pageSize {
      reply := Reply(collected[..pageSize], Some(collected[pageSize - 1].id));
    } else {
      reply := Reply(collected, last);
    }
    call := Call(inner, reply);
    CollectedAnswers(all, ReadableBy(table.perms, reader), project, pageSize, Position(all, token), end, collected,
        last, call);
    r := Some(reply);
  }

  /** What the collecting loop leaves, cut to a page, is the answer of an outer call. */
  lemma CollectedAnswers(all: seq<ListedDataSet>, keep: ListedDataSet -> bool, project: string, pageSize: nat,
                         from: nat, end: nat, collected: seq<ListedDataSet>, last: Token, call: Call)
    requires pageSize > 0 && DistinctIds(all) && call.inner != []
    requires ProjectCollected(all, keep, project, pageSize, from, call.inner, collected, last, end)
    requires |collected| >= pageSize || last.None?
    requires call.reply == if |collected| > pageSize then Reply(collected[..pageSize], Some(collected[pageSize - 1].id))
                           else Reply(collected, last)
    ensures |call.reply.data| <= pageSize && forall d :: d in call.reply.data ==> d in all && KeepOf(keep, project)(d)
    ensures ProjectAnswers(all, keep, project, pageSize, from, call)
    ensures NewestFirst(all) ==> Chunk(all, KeepOf(keep, project), pageSize, from, call.reply)
  {
    hide Inner, Found, DistinctIds, Filter, NewestFirst, KnownToken, Position;
    if |collected| > pageSize && NewestFirst(all) {
      CutPage(all, KeepOf(keep, project), pageSize, from, end);
    }
  }

  /** Before the first inner call, or behind inner calls that found what was collected. */
  ghost predicate Collecting(all: seq<ListedDataSet>, keep: ListedDataSet -> bool, project: string, pageSize: nat,
                             from: nat, inner: seq<Turn>, collected: seq<ListedDataSet>, last: Token)
    requires pageSize > 0
  {
    && collected == Found(project, inner)
    && (forall d :: d in collected ==> d in all && KeepOf(keep, project)(d))
    && (inner != [] ==> Inner(all, keep, pageSize, from, inner) && last == inner[|inner| - 1].reply.next)
  }

  lemma CollectingMore(all: seq<ListedDataSet>, keep: ListedDataSet -> bool, project: string, pageSize: nat,
                       from: nat, inner: seq<Turn>, collected: seq<ListedDataSet>, last: Token, turn: Turn)
    requires pageSize > 0 && Collecting(all, keep, project, pageSize, from, inner, collected, last)
    requires inner == [] || last.Some?
    requires Answers(all, keep, pageSize, if inner == [] then from else Stop(all, last), turn)
    requires forall d :: d in turn.reply.data ==> d in all && keep(d)
    ensures Collecting(all, keep, project, pageSize, from, inner + [turn],
                       collected + Filter(OfProject(project), turn.reply.data), turn.reply.next)
  {
    FoundAppend(project, inner, turn);
    FilterMembers(OfProject(project), turn.reply.data);
    hide Answers, Filter, Found;
    if inner == [] {
      assert inner + [turn] == [turn];
    } else {
      InnerAppend(all, keep, pageSize, from, inner, turn);
    }
  }

  /** The state of the collecting loop, `end` datasets into the index. */
  ghost predicate ProjectCollected(all: seq<ListedDataSet>, keep: ListedDataSet -> bool, project: string,
                                   pageSize: nat, from: nat, inner: seq<Turn>, collected: seq<ListedDataSet>,
                                   last: Token, end: nat)
    requires pageSize > 0
  {
    && Collecting(all, keep, project, pageSize, from, inner, collected, last)
    && from <= end <= |all| && (inner == [] ==> end == from)
    && (NewestFirst(all) ==> collected == Filter(KeepOf(keep, project), all[from..end]))
    && (inner != [] ==>
          && |Found(project, inner[..|inner| - 1])| < pageSize
          && end == Stop(all, last)
          && (last.Some? ==> from < end && KnownToken(all, last)))
  }

  lemma CollectMore(all: seq<ListedDataSet>, keep: ListedDataSet -> bool, project: string, pageSize: nat, from: nat,
                    inner: seq<Turn>, collected: seq<ListedDataSet>, last: Token, end: nat, turn: Turn)
    returns (stop: nat)
    requires pageSize > 0 && DistinctIds(all) && |collected| < pageSize
    requires ProjectCollected(all, keep, project, pageSize, from, inner, collected, last, end)
    requires inner == [] || last.Some?
    requires Answers(all, keep, pageSize, end, turn)
    ensures ProjectCollected(all, keep, project, pageSize, from, inner + [turn],
                      collected + Filter(OfProject(project), turn.reply.data), turn.reply.next, stop)
    ensures end <= stop <= |all|
    ensures turn.reply.next.Some? ==>
      end < stop && KnownToken(all, turn.reply.next) && Position(all, turn.reply.next) == stop
  {
    stop := NextStop(all, keep, pageSize, end, turn);
    ShownAreReadable(all, keep, pageSize, end, turn);
    if NewestFirst(all) {
      ProjectPage(all, keep, project, from, end, stop, turn.reply.data);
    }
    CollectingMore(all, keep, project, pageSize, from, inner, collected, last, turn);
    assert collected == Found(project, inner) && (inner + [turn])[..|inner|] == inner;
    hide Answers, Filter, Found, Collecting, NewestFirst, KnownToken, DistinctIds, Position;
  }

  lemma NothingCollected(all: seq<ListedDataSet>, keep: ListedDataSet -> bool, project: string, pageSize: nat,
                         from: nat, token: Token)
    requires pageSize > 0 && from <= |all|
    ensures ProjectCollected(all, keep, project, pageSize, from, [], [], token, from)
  {
    assert all[from..from] == [] && Listed(RepliesOf([])) == [];
  }

  method CollectForProject(all: seq<ListedDataSet>, table: PermissionStore.PermissionTable, reader: Reader,
                           project: string, pageSize: nat, token: Token)
    returns (r: Option<seq<ListedDataSet>>, last: Token, ghost inner: seq<Turn>, ghost end: nat)
    requires table.Valid() && pageSize > 0 && DistinctIds(all) && KnownToken(all, token)
    ensures r.None? <==> Position(all, token) < |all| && Undecided(reader)
    ensures r.Some? ==>
      && inner != []
      && ProjectCollected(all, ReadableBy(table.perms, reader), project, pageSize, Position(all, token), inner, r.value,
          last, end)
      && (|r.value| >= pageSize || last.None?)
  {
    ghost var from, keep := Position(all, token), ReadableBy(table.perms, reader);
    if token.Some? {
      IndexOfBound(all, token.value);
    }
    var collected := [];
    last, inner, end := token, [], from;
    NothingCollected(all, keep, project, pageSize, from, token);
    assert from <= |all|;
    hide *;
    var more := true;
    while more
      invariant end <= |all| && ProjectCollected(all, keep, project, pageSize, from, inner, collected, last, end)
      invariant more ==> KnownToken(all, last) && Position(all, last) == end && |collected| < pageSize
      invariant inner != [] && more ==> last.Some?
      invariant inner == [] ==> more && end == from
      invariant more || |collected| >= pageSize || last.None?
      invariant Undecided(reader) && inner != [] ==> from == |all| && !more
      decreases more, |all| - end
    {
      var reply, turn := ListDataSets(all, table, reader, pageSize, last);
      if reply.None? {
        return None, last, inner, end;
      }
      end := CollectMore(all, keep, project, pageSize, from, inner, collected, last, end, turn);
      inner := inner + [turn];
      collected := collected + Filter(OfProject(project), reply.value.data);
      last := reply.value.next;
      more := |collected| < pageSize && last.Some?;
    }
    r := Some(collected);
  }

  lemma NextStop(all: seq<ListedDataSet>, keep: ListedDataSet -> bool, pageSize: nat, at: nat, turn: Turn)
    returns (stop: nat)
    requires pageSize > 0 && DistinctIds(all) && Answers(all, keep, pageSize, at, turn)
    ensures stop == Stop(all, turn.reply.next) && at <= stop <= |all|
    ensures turn.reply.next.Some? ==> at < stop && KnownToken(all, turn.reply.next)
    ensures NewestFirst(all) ==> turn.reply.data == Filter(keep, all[at..stop])
  {
    stop := Stop(all, turn.reply.next);
    if turn.reply.next.Some? {
      ProgressOf(all, keep, pageSize, at, turn);
    }
    if NewestFirst(all) {
      NewestFirstChunks(all, keep, pageSize, at, turn);
    }
  }

  /** Stacked on the listing, a project's walk yields exactly the readable datasets it owns, each once. */
  lemma ProjectWalk(all: seq<ListedDataSet>, keep: ListedDataSet -> bool, project: string, pageSize: nat,
                    replies: seq<Reply>)
    requires ChunkWalk(all, KeepOf(keep, project), pageSize, 0, replies)
    ensures Listed(replies) == Filter(OfProject(project), Filter(keep, all)) && |replies| <= |all| + 1
  {
    WalkListsAll(all, KeepOf(keep, project), pageSize, 0, replies);
    FilterTwice(keep, OfProject(project), KeepOf(keep, project), all);
    assert all[0..] == all;
  }

  // ----- One project's walk over an oldest-first index -----

  /** Where the last inner call starts. */
  ghost function LastFrom(all: seq<ListedDataSet>, from: nat, inner: seq<Turn>): nat
    decreases |inner|
  {
    if |inner| <= 1 then from else LastFrom(all, Stop(all, inner[0].reply.next), inner[1..])
  }

  ghost function LastSpan(all: seq<ListedDataSet>, pageSize: nat, from: nat, inner: seq<Turn>): Span
    requires inner != []
  {
    SpanOf(all, pageSize, LastFrom(all, from, inner), inner[|inner| - 1])
  }

  /** The spans of the inner calls; the last one shows only what lies behind the place the outer call cuts at. */
  ghost function CutSpans(all: seq<ListedDataSet>, pageSize: nat, from: nat, inner: seq<Turn>,
                          cut: Option<nat>): seq<Span>
    decreases |inner|
  {
    if inner == [] then []
    else
      var span := SpanOf(all, pageSize, from, inner[0]);
      if |inner| == 1 then [if cut.Some? then Span(cut.value, span.hi) else span]
      else [span] + CutSpans(all, pageSize, Stop(all, inner[0].reply.next), inner[1..], cut)
  }

  ghost predicate CutFits(all: seq<ListedDataSet>, keep: ListedDataSet -> bool, pageSize: nat, from: nat,
                          inner: seq<Turn>, cut: Option<nat>)
    requires inner != []
  {
    var span := LastSpan(all, pageSize, from, inner);
    cut.Some? ==> span.lo <= cut.value < span.hi <= |all| && keep(all[cut.value])
  }

  ghost function CutStop(all: seq<ListedDataSet>, inner: seq<Turn>, cut: Option<nat>): nat
    requires inner != []
  {
    if cut.Some? then cut.value + 1 else Stop(all, inner[|inner| - 1].reply.next)
  }

  lemma InnerRest(all: seq<ListedDataSet>, keep: ListedDataSet -> bool, pageSize: nat, from: nat, inner: seq<Turn>,
                  cut: Option<nat>)
    requires pageSize > 0 && Inner(all, keep, pageSize, from, inner) && |inner| > 1
    ensures
      var stop := Stop(all, inner[0].reply.next);
      && Inner(all, keep, pageSize, stop, inner[1..])
      && LastSpan(all, pageSize, stop, inner[1..]) == LastSpan(all, pageSize, from, inner)
      && CutFits(all, keep, pageSize, from, inner, cut) == CutFits(all, keep, pageSize, stop, inner[1..], cut)
      && CutStop(all, inner, cut) == CutStop(all, inner[1..], cut)
  {
    assert inner[1..][|inner| - 2] == inner[|inner| - 1];
  }

  lemma {:induction false} LastAnswers(all: seq<ListedDataSet>, keep: ListedDataSet -> bool, pageSize: nat, from: nat,
                                       inner: seq<Turn>)
    requires pageSize > 0 && Inner(all, keep, pageSize, from, inner)
    ensures Answers(all, keep, pageSize, LastFrom(all, from, inner), inner[|inner| - 1])
    decreases |inner|
  {
    hide Answers;
    if |inner| == 1 {
    } else {
      LastAnswers(all, keep, pageSize, Stop(all, inner[0].reply.next), inner[1..]);
      assert inner[1..][|inner| - 2] == inner[|inner| - 1];
    }
  }

  lemma CutReaches(all: seq<ListedDataSet>, keep: ListedDataSet -> bool, pageSize: nat, from: nat, span: Span, k: nat)
    requires Reaches(all, keep, pageSize, from, span) && span.lo <= k < span.hi && keep(all[k])
    ensures Reaches(all, keep, pageSize, from, Span(k, span.hi)) && Resumes(all, keep, Span(k, span.hi), k + 1)
  {
    FilterExtend(keep, all, span.lo, k, span.hi);
  }

  lemma {:induction false} CutChain(all: seq<ListedDataSet>, keep: ListedDataSet -> bool, pageSize: nat, from: nat,
                                    inner: seq<Turn>, cut: Option<nat>)
    requires pageSize > 0 && DistinctIds(all) && OldestFirst(all) && Inner(all, keep, pageSize, from, inner)
    requires CutFits(all, keep, pageSize, from, inner, cut)
    ensures Chain(all, keep, pageSize, from, CutSpans(all, pageSize, from, inner, cut), CutStop(all, inner, cut))
    decreases |inner|
  {
    var span, stop := SpanOf(all, pageSize, from, inner[0]), Stop(all, inner[0].reply.next);
    TurnReaches(all, keep, pageSize, from, inner[0]);
    assert |inner| == 1 ==>
      && CutSpans(all, pageSize, from, inner, cut) == [if cut.Some? then Span(cut.value, span.hi) else span]
      && CutStop(all, inner, cut) == (if cut.Some? then cut.value + 1 else stop)
      && LastSpan(all, pageSize, from, inner) == span;
    hide Answers, OldestFirst, DistinctIds, Reaches, Resumes, SpanOf, Stop, Chain, CutSpans, CutStop, LastSpan,
        LastFrom, Inner, Filter;
    if |inner| == 1 {
      if cut.Some? {
        CutReaches(all, keep, pageSize, from, span, cut.value);
        ChainOne(all, keep, pageSize, from, Span(cut.value, span.hi), cut.value + 1);
      } else {
        ChainOne(all, keep, pageSize, from, span, stop);
      }
    } else {
      InnerRest(all, keep, pageSize, from, inner, cut);
      InnerFirst(all, keep, pageSize, from, inner, cut);
      CutChain(all, keep, pageSize, stop, inner[1..], cut);
      ChainCons(all, keep, pageSize, from, span, stop, CutSpans(all, pageSize, stop, inner[1..], cut),
          CutStop(all, inner, cut));
    }
  }

  /** What an inner call answers of the project is the project's part of its span, turned around. */
  lemma TurnShowsProject(all: seq<ListedDataSet>, keep: ListedDataSet -> bool, project: string, pageSize: nat,
                         from: nat, turn: Turn)
    requires pageSize > 0 && DistinctIds(all) && OldestFirst(all) && Answers(all, keep, pageSize, from, turn)
    ensures
      var span := SpanOf(all, pageSize, from, turn);
      && span.lo <= span.hi <= |all|
      && Filter(OfProject(project), turn.reply.data) == Rev(Filter(KeepOf(keep, project), all[span.lo..span.hi]))
  {
    var span := SpanOf(all, pageSize, from, turn);
    TurnShows(all, keep, pageSize, from, turn);
    RevFilter(OfProject(project), Filter(keep, all[span.lo..span.hi]));
    FilterTwice(keep, OfProject(project), KeepOf(keep, project), all[span.lo..span.hi]);
  }

  lemma {:induction false} ChainWithin(all: seq<ListedDataSet>, keep: ListedDataSet -> bool, pageSize: nat, from: nat,
                                       spans: seq<Span>, to: nat)
    requires Chain(all, keep, pageSize, from, spans, to)
    ensures Within(all, spans)
    decreases |spans|
  {
    if |spans| == 1 {
    } else {
      var next: nat :| Resumes(all, keep, spans[0], next) && Chain(all, keep, pageSize, next, spans[1..], to);
      ChainWithin(all, keep, pageSize, next, spans[1..], to);
      assert forall i :: 0 < i < |spans| ==> spans[i] == spans[1..][i - 1];
    }
  }

  lemma BagCons(all: seq<ListedDataSet>, keep: ListedDataSet -> bool, span: Span, rest: seq<Span>)
    requires span.lo <= span.hi <= |all| && Within(all, rest)
    ensures Within(all, [span] + rest)
    ensures ShownBag(all, keep, [span] + rest)
        == multiset(Filter(keep, all[span.lo..span.hi])) + ShownBag(all, keep, rest)
  {
    assert ([span] + rest)[1..] == rest;
  }

  lemma {:induction false} BagAppend(all: seq<ListedDataSet>, keep: ListedDataSet -> bool, a: seq<Span>, b: seq<Span>)
    requires Within(all, a) && Within(all, b)
    ensures Within(all, a + b) && ShownBag(all, keep, a + b) == ShownBag(all, keep, a) + ShownBag(all, keep, b)
  {
    if a == [] {
      assert a + b == b;
    } else {
      assert a == [a[0]] + a[1..] && a + b == [a[0]] + (a[1..] + b);
      assert Within(all, a[1..]);
      hide Filter, ShownBag;
      BagAppend(all, keep, a[1..], b);
      BagCons(all, keep, a[0], a[1..]);
      BagCons(all, keep, a[0], a[1..] + b);
    }
  }

  lemma FoundFirst(project: string, inner: seq<Turn>)
    requires inner != []
    ensures Found(project, inner) == Filter(OfProject(project), inner[0].reply.data) + Found(project, inner[1..])
  {
    assert RepliesOf(inner)[1..] == RepliesOf(inner[1..]);
    FilterConcat(OfProject(project), inner[0].reply.data, Listed(RepliesOf(inner[1..])));
  }

  lemma FoundLast(project: string, inner: seq<Turn>)
    requires inner != []
    ensures Found(project, inner)
        == Found(project, inner[..|inner| - 1]) + Filter(OfProject(project), inner[|inner| - 1].reply.data)
  {
    assert inner == inner[..|inner| - 1] + [inner[|inner| - 1]];
    FoundAppend(project, inner[..|inner| - 1], inner[|inner| - 1]);
  }

  /** Together the spans show what all inner calls but the last found, and the last one's part behind the cut. */
  ghost predicate SpansShow(all: seq<ListedDataSet>, keep: ListedDataSet -> bool, project: string, pageSize: nat,
                            from: nat, inner: seq<Turn>, cut: Option<nat>)
    requires inner != []
  {
    var spans, last := CutSpans(all, pageSize, from, inner, cut), LastSpan(all, pageSize, from, inner);
    var lo := if cut.Some? then cut.value else last.lo;
    && Within(all, spans) && lo <= last.hi <= |all|
    && ShownBag(all, KeepOf(keep, project), spans)
       == multiset(Found(project, inner[..|inner| - 1])) + multiset(Filter(KeepOf(keep, project), all[lo..last.hi]))
  }

  /** The same, with the last part named. */
  lemma SpansShowAs(all: seq<ListedDataSet>, keep: ListedDataSet -> bool, project: string, pageSize: nat, from: nat,
                    inner: seq<Turn>, cut: Option<nat>, spans: seq<Span>, lo: nat, hi: nat)
    requires inner != [] && spans == CutSpans(all, pageSize, from, inner, cut) && Within(all, spans)
        && lo <= hi <= |all|
    requires LastSpan(all, pageSize, from, inner).hi == hi
    requires lo == if cut.Some? then cut.value else LastSpan(all, pageSize, from, inner).lo
    requires ShownBag(all, KeepOf(keep, project), spans)
      == multiset(Found(project, inner[..|inner| - 1])) + multiset(Filter(KeepOf(keep, project), all[lo..hi]))
    ensures SpansShow(all, keep, project, pageSize, from, inner, cut)
  {
    hide Filter, Found, ShownBag, CutSpans, LastSpan, Within, KeepOf;
  }

  lemma SpansShowWhat(all: seq<ListedDataSet>, keep: ListedDataSet -> bool, project: string, pageSize: nat, from: nat,
                      inner: seq<Turn>, cut: Option<nat>)
    requires inner != [] && SpansShow(all, keep, project, pageSize, from, inner, cut)
    ensures
      var spans, last := CutSpans(all, pageSize, from, inner, cut), LastSpan(all, pageSize, from, inner);
      var lo := if cut.Some? then cut.value else last.lo;
      && Within(all, spans) && lo <= last.hi <= |all|
      && ShownBag(all, KeepOf(keep, project), spans)
         == multiset(Found(project, inner[..|inner| - 1])) + multiset(Filter(KeepOf(keep, project), all[lo..last.hi]))
  {
    hide Filter, Found, ShownBag, CutSpans, LastSpan, Within, KeepOf;
  }

  lemma InnerFirst(all: seq<ListedDataSet>, keep: ListedDataSet -> bool, pageSize: nat, from: nat, inner: seq<Turn>,
                   cut: Option<nat>)
    requires pageSize > 0 && Inner(all, keep, pageSize, from, inner) && |inner| > 1
    ensures Answers(all, keep, pageSize, from, inner[0])
    ensures CutSpans(all, pageSize, from, inner, cut)
      == [SpanOf(all, pageSize, from, inner[0])]
          + CutSpans(all, pageSize, Stop(all, inner[0].reply.next), inner[1..], cut)
  {
    hide Answers, SpanOf, Stop;
  }

  lemma BagAlone(all: seq<ListedDataSet>, keep: ListedDataSet -> bool, span: Span)
    requires span.lo <= span.hi <= |all|
    ensures Within(all, [span]) && ShownBag(all, keep, [span]) == multiset(Filter(keep, all[span.lo..span.hi]))
  {
    BagCons(all, keep, span, []);
    assert [span] + [] == [span];
  }

  lemma CutBagOne(all: seq<ListedDataSet>, keep: ListedDataSet -> bool, project: string, pageSize: nat, from: nat,
                  turn: Turn, cut: Option<nat>)
    requires pageSize > 0 && DistinctIds(all) && OldestFirst(all) && Answers(all, keep, pageSize, from, turn)
    requires CutFits(all, keep, pageSize, from, [turn], cut)
    ensures SpansShow(all, keep, project, pageSize, from, [turn], cut)
  {
    var span := SpanOf(all, pageSize, from, turn);
    var shown := if cut.Some? then Span(cut.value, span.hi) else span;
    TurnShowsProject(all, keep, project, pageSize, from, turn);
    hide Answers, OldestFirst, DistinctIds, Overcollected;
    assert [turn][..|[turn]| - 1] == [] && Found(project, []) == [];
    assert CutSpans(all, pageSize, from, [turn], cut) == [shown] && LastSpan(all, pageSize, from, [turn]) == span;
    assert shown.lo <= shown.hi <= |all|;
    hide *;
    BagAlone(all, KeepOf(keep, project), shown);
    SpansShowAs(all, keep, project, pageSize, from, [turn], cut, [shown], shown.lo, shown.hi);
  }

  lemma FrontRest(inner: seq<Turn>)
    requires |inner| > 1
    ensures inner[..|inner| - 1][1..] == inner[1..][..|inner[1..]| - 1] && inner[..|inner| - 1][0] == inner[0]
  {}

  lemma SumUp(head: seq<ListedDataSet>, part: seq<ListedDataSet>, front: seq<ListedDataSet>, rest: seq<ListedDataSet>,
              bag: multiset<ListedDataSet>, bagRest: multiset<ListedDataSet>, last: multiset<ListedDataSet>)
    requires front == head + rest && multiset(head) == multiset(part)
    requires bag == multiset(part) + bagRest && bagRest == multiset(rest) + last
    ensures bag == multiset(front) + last
  {}

  lemma CutBagMore(all: seq<ListedDataSet>, keep: ListedDataSet -> bool, project: string, pageSize: nat, from: nat,
                   inner: seq<Turn>, cut: Option<nat>)
    requires pageSize > 0 && DistinctIds(all) && OldestFirst(all) && Inner(all, keep, pageSize, from, inner)
        && |inner| > 1
    requires SpansShow(all, keep, project, pageSize, Stop(all, inner[0].reply.next), inner[1..], cut)
    ensures SpansShow(all, keep, project, pageSize, from, inner, cut)
  {
    var p, span, stop := KeepOf(keep, project), SpanOf(all, pageSize, from, inner[0]), Stop(all, inner[0].reply.next);
    var rest, last := CutSpans(all, pageSize, stop, inner[1..], cut), LastSpan(all, pageSize, from, inner);
    var lo := if cut.Some? then cut.value else last.lo;
    InnerFirst(all, keep, pageSize, from, inner, cut);
    hide *;
    TurnShowsProject(all, keep, project, pageSize, from, inner[0]);
    InnerRest(all, keep, pageSize, from, inner, cut);
    SpansShowWhat(all, keep, project, pageSize, stop, inner[1..], cut);
    FrontRest(inner);
    var part := Filter(p, all[span.lo..span.hi]);
    RevKeeps(part);
    FoundFirst(project, inner[..|inner| - 1]);
    BagCons(all, p, span, rest);
    SumUp(Filter(OfProject(project), inner[0].reply.data), part, Found(project, inner[..|inner| - 1]),
          Found(project, inner[1..][..|inner[1..]| - 1]), ShownBag(all, p, [span] + rest), ShownBag(all, p, rest),
          multiset(Filter(p, all[lo..last.hi])));
    SpansShowAs(all, keep, project, pageSize, from, inner, cut, [span] + rest, lo, last.hi);
  }

  lemma {:induction false} CutBag(all: seq<ListedDataSet>, keep: ListedDataSet -> bool, project: string,
                                  pageSize: nat, from: nat, inner: seq<Turn>, cut: Option<nat>)
    requires pageSize > 0 && DistinctIds(all) && OldestFirst(all) && Inner(all, keep, pageSize, from, inner)
    requires CutFits(all, keep, pageSize, from, inner, cut)
    ensures SpansShow(all, keep, project, pageSize, from, inner, cut)
    decreases |inner|
  {
    hide Answers, SpansShow, CutFits;
    if |inner| == 1 {
      assert inner == [inner[0]];
      CutBagOne(all, keep, project, pageSize, from, inner[0], cut);
    } else {
      InnerRest(all, keep, pageSize, from, inner, cut);
      CutBag(all, keep, project, pageSize, Stop(all, inner[0].reply.next), inner[1..], cut);
      CutBagMore(all, keep, project, pageSize, from, inner, cut);
    }
  }

  /** Where an outer call cuts: at the last dataset it shows. */
  ghost function CutOf(all: seq<ListedDataSet>, project: string, pageSize: nat, call: Call): Option<nat> {
    var stop := Stop(all, call.reply.next);
    if Overfound(project, pageSize, call) && stop > 0 then Some(stop - 1) else None
  }

  ghost function CallSpans(all: seq<ListedDataSet>, project: string, pageSize: nat, from: nat, call: Call): seq<Span> {
    CutSpans(all, pageSize, from, call.inner, CutOf(all, project, pageSize, call))
  }

  /** A truncated outer call cuts inside the last inner call's span, and drops a dataset of the project there. */
  lemma OuterCut(all: seq<ListedDataSet>, keep: ListedDataSet -> bool, project: string, pageSize: nat, from: nat,
                 call: Call)
    requires pageSize > 0 && DistinctIds(all) && OldestFirst(all)
        && ProjectAnswers(all, keep, project, pageSize, from, call)
    ensures
      var p, cut := KeepOf(keep, project), CutOf(all, project, pageSize, call);
      var last, before := LastSpan(all, pageSize, from, call.inner), Found(project, call.inner[..|call.inner| - 1]);
      && CutFits(all, keep, pageSize, from, call.inner, cut)
      && CutStop(all, call.inner, cut) == Stop(all, call.reply.next)
      && last.lo <= last.hi <= |all|
      && (cut.Some? <==> Overfound(project, pageSize, call))
      && (cut.Some? ==>
            && multiset(call.reply.data) == multiset(before) + multiset(Filter(p, all[cut.value..last.hi]))
            && Filter(p, all[last.lo..cut.value]) != [])
      && (cut.None? ==> multiset(call.reply.data) == multiset(before) + multiset(Filter(p, all[last.lo..last.hi])))
  {
    var inner, p := call.inner, KeepOf(keep, project);
    var last, before := LastSpan(all, pageSize, from, inner), Found(project, inner[..|inner| - 1]);
    LastFound(all, keep, project, pageSize, from, inner);
    var part := Filter(p, all[last.lo..last.hi]);
    RevKeeps(part);
    hide Answers, OldestFirst, Inner, LastSpan, Filter, Rev, Found;
    if Overfound(project, pageSize, call) {
      var k := OuterCutAt(all, p, pageSize, before, last);
      OuterStop(all, project, pageSize, call, before + Rev(part), k);
      hide DistinctIds, Position, Overfound, Stop;
    } else {
      hide Stop;
    }
  }

  lemma OuterStop(all: seq<ListedDataSet>, project: string, pageSize: nat, call: Call, found: seq<ListedDataSet>,
                  k: nat)
    requires pageSize > 0 && found == Found(project, call.inner) && Overfound(project, pageSize, call) && k < |all|
    requires call.reply == Reply(found[..pageSize], Some(found[pageSize - 1].id))
    requires found[pageSize - 1] == all[k] && Position(all, Some(all[k].id)) == k + 1
    ensures Stop(all, call.reply.next) == k + 1 && CutOf(all, project, pageSize, call) == Some(k)
  {
    hide Found, Position;
  }

  /** The last inner call adds the project's part of its span, turned around, to what was found before. */
  lemma LastFound(all: seq<ListedDataSet>, keep: ListedDataSet -> bool, project: string, pageSize: nat, from: nat,
                  inner: seq<Turn>)
    requires pageSize > 0 && DistinctIds(all) && OldestFirst(all) && Inner(all, keep, pageSize, from, inner)
    ensures
      var last := LastSpan(all, pageSize, from, inner);
      && last.lo <= last.hi <= |all|
      && Found(project, inner)
         == Found(project, inner[..|inner| - 1]) + Rev(Filter(KeepOf(keep, project), all[last.lo..last.hi]))
  {
    var turn, start := inner[|inner| - 1], LastFrom(all, from, inner);
    assert LastSpan(all, pageSize, from, inner) == SpanOf(all, pageSize, start, turn);
    hide *;
    LastAnswers(all, keep, pageSize, from, inner);
    TurnShowsProject(all, keep, project, pageSize, start, turn);
    FoundLast(project, inner);
  }

  lemma OuterCutAt(all: seq<ListedDataSet>, p: ListedDataSet -> bool, pageSize: nat, before: seq<ListedDataSet>,
                   last: Span) returns (k: nat)
    requires DistinctIds(all) && last.lo <= last.hi <= |all|
    requires |before| < pageSize < |before| + |Filter(p, all[last.lo..last.hi])|
    ensures
      var found := before + Rev(Filter(p, all[last.lo..last.hi]));
      && last.lo <= k < last.hi && p(all[k]) && found[pageSize - 1] == all[k]
      && multiset(found[..pageSize]) == multiset(before) + multiset(Filter(p, all[k..last.hi]))
      && Filter(p, all[last.lo..k]) != []
      && Position(all, Some(all[k].id)) == k + 1
  {
    hide *;
    var part := Filter(p, all[last.lo..last.hi]);
    k := CutAt(all, p, last.lo, last.hi, pageSize - |before|);
    PositionAfter(all, k);
    CutFound(before, part, pageSize);
  }

  lemma CutFound(before: seq<ListedDataSet>, part: seq<ListedDataSet>, pageSize: nat)
    requires |before| < pageSize < |before| + |part|
    ensures
      var n := |before| + |part| - pageSize;
      && multiset((before + Rev(part))[..pageSize]) == multiset(before) + multiset(part[n..])
      && (before + Rev(part))[pageSize - 1] == part[n]
      && part[..n] != []
  {
    var n := |before| + |part| - pageSize;
    assert (before + Rev(part))[..pageSize] == before + Rev(part[n..]);
    RevKeeps(part[n..]);
  }

  lemma CallShows(all: seq<ListedDataSet>, keep: ListedDataSet -> bool, project: string, pageSize: nat, from: nat,
                  call: Call)
    requires pageSize > 0 && DistinctIds(all) && OldestFirst(all)
        && ProjectAnswers(all, keep, project, pageSize, from, call)
    ensures
      var spans := CallSpans(all, project, pageSize, from, call);
      && Chain(all, keep, pageSize, from, spans, Stop(all, call.reply.next)) && Within(all, spans)
      && multiset(call.reply.data) == ShownBag(all, KeepOf(keep, project), spans)
  {
    var cut := CutOf(all, project, pageSize, call);
    OuterCut(all, keep, project, pageSize, from, call);
    CutChain(all, keep, pageSize, from, call.inner, cut);
    CutBag(all, keep, project, pageSize, from, call.inner, cut);
    ChainWithin(all, keep, pageSize, from, CallSpans(all, project, pageSize, from, call), Stop(all, call.reply.next));
    hide Chain, ShownBag, Filter, OldestFirst, DistinctIds, ProjectAnswers, CutSpans, LastSpan, Found, KeepOf, Stop;
  }

  ghost predicate ProjectTurnWalk(all: seq<ListedDataSet>, keep: ListedDataSet -> bool, project: string,
                                  pageSize: nat, from: nat, calls: seq<Call>)
    requires pageSize > 0
    decreases |calls|
  {
    && calls != []
    && ProjectAnswers(all, keep, project, pageSize, from, calls[0])
    && if |calls| == 1 then calls[0].reply.next.None?
       else
         && calls[0].reply.next.Some?
         && ProjectTurnWalk(all, keep, project, pageSize, Stop(all, calls[0].reply.next), calls[1..])
  }

  ghost function CallReplies(calls: seq<Call>): seq<Reply> {
    if calls == [] then [] else [calls[0].reply] + CallReplies(calls[1..])
  }

  /** The spans of all inner calls of a project's walk. */
  ghost function WalkedSpans(all: seq<ListedDataSet>, project: string, pageSize: nat, from: nat,
                             calls: seq<Call>): seq<Span>
    decreases |calls|
  {
    if calls == [] then []
    else CallSpans(all, project, pageSize, from, calls[0])
         + WalkedSpans(all, project, pageSize, Stop(all, calls[0].reply.next), calls[1..])
  }

  lemma CallsStep(calls: seq<Call>)
    requires calls != []
    ensures Listed(CallReplies(calls)) == calls[0].reply.data + Listed(CallReplies(calls[1..]))
  {
    assert CallReplies(calls)[1..] == CallReplies(calls[1..]);
  }

  lemma {:induction false} ProjectWalkSpans(all: seq<ListedDataSet>, keep: ListedDataSet -> bool, project: string,
                                            pageSize: nat, from: nat, calls: seq<Call>)
    requires pageSize > 0 && DistinctIds(all) && OldestFirst(all)
        && ProjectTurnWalk(all, keep, project, pageSize, from, calls)
    ensures
      var spans := WalkedSpans(all, project, pageSize, from, calls);
      && Chain(all, keep, pageSize, from, spans, |all|) && Within(all, spans)
      && multiset(Listed(CallReplies(calls))) == ShownBag(all, KeepOf(keep, project), spans)
    decreases |calls|
  {
    var spans, stop := CallSpans(all, project, pageSize, from, calls[0]), Stop(all, calls[0].reply.next);
    CallShows(all, keep, project, pageSize, from, calls[0]);
    CallsStep(calls);
    assert calls[0].reply.next.None? ==> stop == |all|;
    hide ProjectAnswers, OldestFirst, DistinctIds, CallSpans, Chain, Stop, Listed, ShownBag, Within;
    if |calls| == 1 {
      assert WalkedSpans(all, project, pageSize, stop, calls[1..]) == [];
      assert spans + [] == spans;
      NothingListed(calls[1..]);
    } else {
      var rest := WalkedSpans(all, project, pageSize, stop, calls[1..]);
      ProjectWalkSpans(all, keep, project, pageSize, stop, calls[1..]);
      ChainAppend(all, keep, pageSize, from, spans, stop, rest, |all|);
      BagAppend(all, KeepOf(keep, project), spans, rest);
    }
  }

  lemma NothingListed(calls: seq<Call>)
    requires calls == []
    ensures Listed(CallReplies(calls)) == []
  {}

  /**
   * Over an oldest-first index a project's walk lists each of its readable datasets once and nothing else, if and
   * only if no such dataset lies between the end of what one inner call shows and the beginning of what the next
   * one does, in either direction: none is dropped by a cut for good, and none is shown again behind a cut.
   */
  lemma ProjectOldestFirstWalkIff(all: seq<ListedDataSet>, keep: ListedDataSet -> bool, project: string,
                                  pageSize: nat, calls: seq<Call>)
    requires pageSize > 0 && DistinctIds(all) && OldestFirst(all)
        && ProjectTurnWalk(all, keep, project, pageSize, 0, calls)
    ensures multiset(Listed(CallReplies(calls))) == multiset(Filter(OfProject(project), Filter(keep, all)))
       <==> Seamless(all, KeepOf(keep, project), 0, WalkedSpans(all, project, pageSize, 0, calls))
  {
    var spans := WalkedSpans(all, project, pageSize, 0, calls);
    ProjectWalkSpans(all, keep, project, pageSize, 0, calls);
    ChainTiles(all, keep, pageSize, 0, spans);
    SeamlessIff(all, KeepOf(keep, project), spans);
    FilterTwice(keep, OfProject(project), KeepOf(keep, project), all);
    hide Filter, ShownBag, Seamless, Listed, Chain, WalkedSpans;
  }

  ghost predicate NoneOvercollected(inner: seq<Turn>, pageSize: nat) {
    forall i :: 0 <= i < |inner| ==> !Overcollected(inner[i], pageSize)
  }

  lemma SeamlessCons(all: seq<ListedDataSet>, keep: ListedDataSet -> bool, from: nat, span: Span, rest: seq<Span>)
    ensures Seamless(all, keep, from, [span] + rest) <==>
      Clear(all, keep, from, span.lo) && Seamless(all, keep, span.hi, rest)
  {
    var spans := [span] + rest;
    assert forall i :: 0 <= i < |rest| ==>
        rest[i] == spans[i + 1] && EndBefore(span.hi, rest, i) == EndBefore(from, spans, i + 1);
    if Seamless(all, keep, from, spans) {
      assert Clear(all, keep, EndBefore(from, spans, 0), spans[0].lo);
      forall i | 0 <= i < |rest|
        ensures Clear(all, keep, EndBefore(span.hi, rest, i), rest[i].lo)
      {
        assert Clear(all, keep, EndBefore(from, spans, i + 1), spans[i + 1].lo);
      }
    }
    if Clear(all, keep, from, span.lo) && Seamless(all, keep, span.hi, rest) {
      forall i | 0 <= i < |spans|
        ensures Clear(all, keep, EndBefore(from, spans, i), spans[i].lo)
      {
        if i > 0 {
          assert Clear(all, keep, EndBefore(span.hi, rest, i - 1), rest[i - 1].lo);
        }
      }
    }
  }

  lemma {:induction false} SeamlessAppend(all: seq<ListedDataSet>, keep: ListedDataSet -> bool, from: nat,
                                          a: seq<Span>, b: seq<Span>)
    requires a != []
    ensures Seamless(all, keep, from, a + b) <==> Seamless(all, keep, from, a) && Seamless(all, keep, a[|a| - 1].hi, b)
    decreases |a|
  {
    assert a == [a[0]] + a[1..] && a + b == [a[0]] + (a[1..] + b);
    SeamlessCons(all, keep, from, a[0], a[1..]);
    SeamlessCons(all, keep, from, a[0], a[1..] + b);
    hide Seamless;
    if |a| == 1 {
      assert a[1..] == [] && a[1..] + b == b;
      NoSeams(all, keep, a[0].hi);
    } else {
      SeamlessAppend(all, keep, a[0].hi, a[1..], b);
    }
  }

  lemma NoSeams(all: seq<ListedDataSet>, keep: ListedDataSet -> bool, from: nat)
    ensures Seamless(all, keep, from, [])
  {}

  /** Inner calls that were not truncated follow on one another; only the outer cut can leave a seam. */
  lemma {:induction false} CutSeam(all: seq<ListedDataSet>, keep: ListedDataSet -> bool, p: ListedDataSet -> bool,
                                   pageSize: nat, from: nat, inner: seq<Turn>, cut: Option<nat>)
    requires pageSize > 0 && DistinctIds(all) && OldestFirst(all) && Inner(all, keep, pageSize, from, inner)
    requires NoneOvercollected(inner, pageSize)
    ensures
      var spans, last := CutSpans(all, pageSize, from, inner, cut), LastSpan(all, pageSize, from, inner);
      && spans != [] && spans[|spans| - 1].hi == last.hi
      && CutStop(all, inner, None) == last.hi
      && (Seamless(all, p, from, spans) <==> cut.None? || Clear(all, p, last.lo, cut.value))
    decreases |inner|
  {
    var span, stop := SpanOf(all, pageSize, from, inner[0]), Stop(all, inner[0].reply.next);
    TurnReaches(all, keep, pageSize, from, inner[0]);
    assert span.lo == from && stop == span.hi;
    assert Clear(all, p, from, span.lo);
    if |inner| == 1 {
      hide Answers, OldestFirst, DistinctIds, Reaches, Resumes, SpanOf, Stop, Clear;
      NoSeams(all, p, span.hi);
      SeamlessCons(all, p, from, if cut.Some? then Span(cut.value, span.hi) else span, []);
      assert CutSpans(all, pageSize, from, inner, cut) == [if cut.Some? then Span(cut.value, span.hi) else span] + [];
    } else {
      var rest := CutSpans(all, pageSize, stop, inner[1..], cut);
      InnerRest(all, keep, pageSize, from, inner, cut);
      InnerRest(all, keep, pageSize, from, inner, None);
      InnerFirst(all, keep, pageSize, from, inner, cut);
      assert NoneOvercollected(inner[1..], pageSize);
      hide *;
      CutSeam(all, keep, p, pageSize, stop, inner[1..], cut);
      SeamlessCons(all, p, from, span, rest);
    }
  }

  ghost predicate NoneOverfound(calls: seq<Call>, project: string, pageSize: nat) {
    forall i :: 0 <= i < |calls| ==> !Overfound(project, pageSize, calls[i])
  }

  lemma CallHead(all: seq<ListedDataSet>, keep: ListedDataSet -> bool, project: string, pageSize: nat, from: nat,
                 calls: seq<Call>)
    requires pageSize > 0 && ProjectTurnWalk(all, keep, project, pageSize, from, calls)
    ensures calls != [] && ProjectAnswers(all, keep, project, pageSize, from, calls[0])
    ensures Inner(all, keep, pageSize, from, calls[0].inner)
    ensures |calls| == 1 ==> calls[0].reply.next.None?
    ensures |calls| > 1 ==>
      && calls[0].reply.next.Some?
      && ProjectTurnWalk(all, keep, project, pageSize, Stop(all, calls[0].reply.next), calls[1..])
  {
    hide Inner, Found, Stop;
  }

  /** Of an outer call whose inner calls were not truncated only its own cut leaves a seam. */
  lemma CallSeam(all: seq<ListedDataSet>, keep: ListedDataSet -> bool, project: string, pageSize: nat, from: nat,
                 call: Call)
    requires pageSize > 0 && DistinctIds(all) && OldestFirst(all)
        && ProjectAnswers(all, keep, project, pageSize, from, call)
    requires NoneOvercollected(call.inner, pageSize)
    ensures
      var spans := CallSpans(all, project, pageSize, from, call);
      && spans != []
      && (Seamless(all, KeepOf(keep, project), from, spans) <==> !Overfound(project, pageSize, call))
      && (!Overfound(project, pageSize, call) ==> spans[|spans| - 1].hi == Stop(all, call.reply.next))
  {
    var p, cut, last := KeepOf(keep, project), CutOf(all, project, pageSize, call),
        LastSpan(all, pageSize, from, call.inner);
    OuterCut(all, keep, project, pageSize, from, call);
    CutSeam(all, keep, p, pageSize, from, call.inner, cut);
    if cut.Some? {
      KeptBetween(all, p, last.lo, cut.value);
    }
    hide Seamless, Inner, OldestFirst, DistinctIds, Filter, Overfound, CutSpans, LastSpan, Found, Clear, Stop;
  }

  lemma WalkedHead(all: seq<ListedDataSet>, project: string, pageSize: nat, from: nat, calls: seq<Call>)
    requires calls != []
    ensures WalkedSpans(all, project, pageSize, from, calls)
      == CallSpans(all, project, pageSize, from, calls[0])
         + WalkedSpans(all, project, pageSize, Stop(all, calls[0].reply.next), calls[1..])
    ensures |calls| == 1 ==>
      calls[1..] == [] && WalkedSpans(all, project, pageSize, Stop(all, calls[0].reply.next), calls[1..]) == []
    ensures forall i :: 0 <= i < |calls[1..]| ==> calls[1..][i] == calls[i + 1]
  {
    hide CallSpans, Stop;
  }

  lemma {:induction false} SeamlessUnlessOverfound(all: seq<ListedDataSet>, keep: ListedDataSet -> bool,
                                                   project: string, pageSize: nat, from: nat, calls: seq<Call>)
    requires pageSize > 0 && DistinctIds(all) && OldestFirst(all)
        && ProjectTurnWalk(all, keep, project, pageSize, from, calls)
    requires forall i :: 0 <= i < |calls| ==> NoneOvercollected(calls[i].inner, pageSize)
    ensures Seamless(all, KeepOf(keep, project), from, WalkedSpans(all, project, pageSize, from, calls))
       <==> NoneOverfound(calls, project, pageSize)
    decreases |calls|
  {
    var p, stop := KeepOf(keep, project), Stop(all, calls[0].reply.next);
    var spans, rest := CallSpans(all, project, pageSize, from, calls[0]),
        WalkedSpans(all, project, pageSize, stop, calls[1..]);
    hide *;
    WalkedHead(all, project, pageSize, from, calls);
    CallHead(all, keep, project, pageSize, from, calls);
    CallSeam(all, keep, project, pageSize, from, calls[0]);
    SeamlessAppend(all, p, from, spans, rest);
    OverfoundStep(calls, project, pageSize);
    if |calls| == 1 {
      NoSeams(all, p, spans[|spans| - 1].hi);
      OverfoundNone(project, pageSize);
    } else {
      SeamlessUnlessOverfound(all, keep, project, pageSize, stop, calls[1..]);
    }
  }

  lemma OverfoundNone(project: string, pageSize: nat)
    ensures NoneOverfound([], project, pageSize)
  {}

  lemma OverfoundStep(calls: seq<Call>, project: string, pageSize: nat)
    requires calls != []
    ensures NoneOverfound(calls, project, pageSize) <==>
      !Overfound(project, pageSize, calls[0]) && NoneOverfound(calls[1..], project, pageSize)
  {
    assert forall i :: 0 < i < |calls| ==> calls[i] == calls[1..][i - 1];
    if !NoneOverfound(calls, project, pageSize) && !Overfound(project, pageSize, calls[0]) {
      var i :| 0 <= i < |calls| && Overfound(project, pageSize, calls[i]);
      assert calls[1..][i - 1] == calls[i];
    }
  }

  /**
   * As long as no inner call collects more than a page, the project's walk is complete and free of repeats if and
   * only if no outer call found more than a page.
   */
  lemma ProjectWalkUncutIff(all: seq<ListedDataSet>, keep: ListedDataSet -> bool, project: string, pageSize: nat,
                            calls: seq<Call>)
    requires pageSize > 0 && DistinctIds(all) && OldestFirst(all)
        && ProjectTurnWalk(all, keep, project, pageSize, 0, calls)
    requires forall i :: 0 <= i < |calls| ==> NoneOvercollected(calls[i].inner, pageSize)
    ensures multiset(Listed(CallReplies(calls))) == multiset(Filter(OfProject(project), Filter(keep, all)))
       <==> NoneOverfound(calls, project, pageSize)
  {
    ProjectOldestFirstWalkIff(all, keep, project, pageSize, calls);
    SeamlessUnlessOverfound(all, keep, project, pageSize, 0, calls);
    hide *;
  }

  lemma OwnerPrefix(project: string)
    requires '#' !in project
    ensures Split(project + ['#'] + ADMIN, '#')[0] == project
  {
    hide Split, ADMIN;
    SplitJoined(project, ADMIN, '#');
    SplitPlain(project, '#');
  }

  lemma Owners(time: int, project: string)
    requires project == "p" || project == "q"
    ensures OwnedBy(At(time), project) <==> (time == 4 <==> project == "p")
  {
    OwnerPrefix("p");
    OwnerPrefix("q");
    hide Split, ADMIN;
  }

  lemma FoundInTwo(project: string, a: int, b: int)
    requires project == "p" || project == "q"
    ensures
      var of := (time: int) => if time == 4 <==> project == "p" then [At(time)] else [];
      Filter(OfProject(project), [At(a), At(b)]) == of(a) + of(b) && Filter(OfProject(project), [At(a)]) == of(a)
  {
    Owners(a, project);
    Owners(b, project);
    hide At, OwnedBy;
    FilterCons(OfProject(project), At(b), []);
    FilterCons(OfProject(project), At(a), [At(b)]);
    FilterCons(OfProject(project), At(a), []);
    assert [At(a), At(b)] == [At(a)] + [At(b)] && [At(a)] + [] == [At(a)] && [At(b)] + [] == [At(b)];
  }

  /** What the two inner calls of the walk above find of either project. */
  lemma FoundInTwoTurns(project: string)
    requires project == "p" || project == "q"
    ensures Found(project, TwoTurns()) == if project == "p" then [At(4), At(4)] else [At(3)]
    ensures Found(project, TwoTurns()[..1]) == if project == "p" then [At(4)] else [At(3)]
  {
    var turns := TwoTurns();
    FoundInTwo(project, 4, 3);
    FoundInTwo(project, 4, 4);
    FoundAppend(project, [], turns[0]);
    FoundAppend(project, [turns[0]], turns[1]);
    assert Found(project, []) == [] && turns[..1] == [] + [turns[0]] && turns == [turns[0]] + [turns[1]];
    hide At, OwnedBy, Found;
  }

  /** The call that makes these two inner calls. */
  ghost function CallFor(project: string): Call {
    Call(TwoTurns(), Reply(if project == "p" then [At(4), At(4)] else [At(3)], None))
  }

  lemma {:induction false} WalkIsInner(all: seq<ListedDataSet>, keep: ListedDataSet -> bool, pageSize: nat, from: nat,
                                       turns: seq<Turn>)
    requires pageSize > 0 && TurnWalk(all, keep, pageSize, from, turns)
    ensures Inner(all, keep, pageSize, from, turns)
    decreases |turns|
  {
    hide Answers, Stop;
    if |turns| == 1 {
    } else {
      WalkIsInner(all, keep, pageSize, Stop(all, turns[0].reply.next), turns[1..]);
    }
  }

  lemma TwoTurnsShape()
    ensures |TwoTurns()| == 2 && TwoTurns()[|TwoTurns()| - 1].reply.next == None
        && TwoTurns()[..|TwoTurns()| - 1] == TwoTurns()[..1]
  {
    hide At;
  }

  lemma CallForWalks(project: string)
    requires project == "p" || project == "q"
    ensures ProjectTurnWalk(Four(), Readable(), project, 2, 0, [CallFor(project)])
  {
    hide *;
    FoundInTwoTurns(project);
    TwoTurnsWalk();
    TwoTurnsShape();
    WalkIsInner(Four(), Readable(), 2, 0, TwoTurns());
    LastCall(Four(), Readable(), project, 2, TwoTurns(), if project == "p" then [At(4), At(4)] else [At(3)]);
    CallForIs(project);
  }

  lemma CallForIs(project: string)
    ensures CallFor(project) == Call(TwoTurns(), Reply(if project == "p" then [At(4), At(4)] else [At(3)], None))
  {
    hide At, TwoTurns;
  }

  /** A call that finds no more than a page and reaches the end of the index is a walk by itself. */
  lemma LastCall(all: seq<ListedDataSet>, keep: ListedDataSet -> bool, project: string, pageSize: nat,
                 inner: seq<Turn>, found: seq<ListedDataSet>)
    requires pageSize > 0 && Inner(all, keep, pageSize, 0, inner) && inner[|inner| - 1].reply.next.None?
    requires Found(project, inner) == found && |found| <= pageSize && |Found(project, inner[..|inner| - 1])| < pageSize
    ensures ProjectTurnWalk(all, keep, project, pageSize, 0, [Call(inner, Reply(found, None))])
  {
    hide Inner, Found;
  }

  /**
   * Over the same four datasets, oldest first, one walk misses a readable dataset of project q, because the first
   * inner call cut it off, and shows the one of project p twice, because the cut lies before it. No outer call is
   * truncated, and for project p no inner call drops anything.
   */
  lemma ProjectWalksGoWrong()
    ensures forall project :: project in {"p", "q"} ==>
        ProjectTurnWalk(Four(), Readable(), project, 2, 0, [CallFor(project)])
    ensures Listed(CallReplies([CallFor("q")])) == [At(3)]
        && Filter(OfProject("q"), Filter(Readable(), Four())) == [At(2), At(3)]
    ensures Listed(CallReplies([CallFor("p")])) == [At(4), At(4)]
        && Filter(OfProject("p"), Filter(Readable(), Four())) == [At(4)]
  {
    CallForWalks("p");
    CallForWalks("q");
    ReadableOf("p");
    ReadableOf("q");
    OneReply(CallFor("p"));
    OneReply(CallFor("q"));
    hide ProjectTurnWalk, Filter, At, Listed, CallReplies, OfProject, Readable, Four;
  }

  lemma FourReadable()
    ensures Filter(Readable(), Four()) == [At(2), At(3)] + [At(4)]
  {
    FourOldestFirst();
    assert Four()[0..4] == Four() == [At(1), At(2), At(3), At(4)];
    hide *;
  }

  lemma ReadableOf(project: string)
    requires project == "p" || project == "q"
    ensures Filter(OfProject(project), Filter(Readable(), Four())) == if project == "p" then [At(4)] else [At(2), At(3)]
  {
    hide *;
    FourReadable();
    FoundInTwo(project, 2, 3);
    FoundInTwo(project, 4, 4);
    FilterConcat(OfProject(project), [At(2), At(3)], [At(4)]);
  }

  lemma OneReply(call: Call)
    ensures Listed(CallReplies([call])) == call.reply.data
  {
    assert [call][1..] == [] && CallReplies([]) == [];
    assert CallReplies([call])[1..] == [];
  }
}
