/**
 * The dataset listing over an oldest-first index: what each call shows of the index, and when the calls of a walk
 * together show every dataset once.
 */
module OldestFirstListing {
  import opened Prelude
  import opened DatasetListing

  // ----- What a call over an oldest-first index shows -----

  function Rev(s: seq<ListedDataSet>): (r: seq<ListedDataSet>)
    ensures |r| == |s| && forall i :: 0 <= i < |s| ==> r[i] == s[|s| - 1 - i]
  {
    seq(|s|, i requires 0 <= i < |s| => s[|s| - 1 - i])
  }

  lemma RevStep(s: seq<ListedDataSet>)
    requires s != []
    ensures Rev(s) == Rev(s[1..]) + [s[0]]
  {}

  lemma {:induction false} RevKeeps(s: seq<ListedDataSet>)
    ensures multiset(Rev(s)) == multiset(s)
  {
    if s == [] {
      assert Rev(s) == [];
    } else {
      RevStep(s);
      RevKeeps(s[1..]);
      assert s == [s[0]] + s[1..];
    }
  }

  lemma {:induction false} RevFilter(keep: ListedDataSet -> bool, s: seq<ListedDataSet>)
    ensures Filter(keep, Rev(s)) == Rev(Filter(keep, s))
  {
    if s == [] {
      assert Rev(s) == [];
    } else {
      var rest := s[1..];
      RevStep(s);
      RevFilter(keep, rest);
      FilterConcat(keep, Rev(rest), [s[0]]);
      FilterCons(keep, s[0], []);
      FilterCons(keep, s[0], rest);
      assert s == [s[0]] + rest;
      hide Filter;
      assert keep(s[0]) ==> Rev([s[0]] + Filter(keep, rest)) == Rev(Filter(keep, rest)) + [s[0]];
    }
  }

  lemma {:induction false} FilterOldest(keep: ListedDataSet -> bool, s: seq<ListedDataSet>)
    requires OldestFirst(s)
    ensures OldestFirst(Filter(keep, s))
  {
    if s == [] {
    } else {
      FilterOldest(keep, s[1..]);
      FilterMembers(keep, s[1..]);
      var rest := Filter(keep, s[1..]);
      forall i | 0 <= i < |rest|
        ensures s[0].createdAt < rest[i].createdAt
      {
        assert rest[i] in s[1..];
      }
    }
  }

  /** Sorting what an oldest-first stretch yields turns it around. */
  lemma SortedIsReversed(slice: seq<ListedDataSet>, keep: ListedDataSet -> bool, sorted: seq<ListedDataSet>)
    requires OldestFirst(slice) && Newest(sorted) && multiset(sorted) == multiset(Filter(keep, slice))
    ensures sorted == Rev(Filter(keep, slice))
  {
    FilterOldest(keep, slice);
    RevKeeps(Filter(keep, slice));
    UniqueOrder(sorted, Rev(Filter(keep, slice)));
  }

  /** The place in a stretch from which on exactly the last `m` of the kept datasets lie. */
  lemma CutAt(all: seq<ListedDataSet>, keep: ListedDataSet -> bool, lo: nat, hi: nat, m: nat) returns (k: nat)
    requires lo <= hi <= |all| && 0 < m <= |Filter(keep, all[lo..hi])|
    ensures
      var found := Filter(keep, all[lo..hi]);
      && lo <= k < hi && keep(all[k]) && all[k] == found[|found| - m]
      && Filter(keep, all[k..hi]) == found[|found| - m..]
      && Filter(keep, all[lo..k]) == found[..|found| - m]
  {
    var slice, found := all[lo..hi], Filter(keep, all[lo..hi]);
    var n := |found| - m;
    var i := FilterPosition(keep, slice, n);
    k := lo + i;
    FilterStep(keep, slice, i);
    SlicePrefix(all, lo, hi, i);
    SlicePrefix(all, lo, hi, i + 1);
    FilterExtend(keep, all, lo, k, hi);
    hide Filter;
    CutParts(found, Filter(keep, all[lo..k]), Filter(keep, all[k..hi]), n, all[k]);
  }

  lemma CutParts(found: seq<ListedDataSet>, a: seq<ListedDataSet>, b: seq<ListedDataSet>, n: nat, x: ListedDataSet)
    requires found == a + b && n < |found| && found[..n + 1] == a + [x]
    ensures a == found[..n] && b == found[n..]
  {
    assert |a| == n;
  }

  /** What one call shows of the index: the kept datasets from `lo` up to `hi`. */
  datatype Span = Span(lo: nat, hi: nat)

  ghost function SpanOf(all: seq<ListedDataSet>, pageSize: nat, from: nat, turn: Turn): Span {
    var stop := Stop(all, turn.reply.next);
    Span(if Overcollected(turn, pageSize) && stop > 0 then stop - 1 else from, turn.end)
  }

  /** A call answers with its span turned around; a truncated one cuts at a kept dataset and drops some before it. */
  lemma TurnShows(all: seq<ListedDataSet>, keep: ListedDataSet -> bool, pageSize: nat, from: nat, turn: Turn)
    requires pageSize > 0 && DistinctIds(all) && OldestFirst(all) && Answers(all, keep, pageSize, from, turn)
    ensures
      var span := SpanOf(all, pageSize, from, turn);
      && from <= span.lo <= span.hi == turn.end <= |all|
      && turn.reply.data == Rev(Filter(keep, all[span.lo..span.hi]))
      && (Overcollected(turn, pageSize) ==>
            && span.lo < span.hi && keep(all[span.lo]) && Stop(all, turn.reply.next) == span.lo + 1
            && Filter(keep, all[from..span.lo]) != [])
  {
    SortedIsReversed(all[from..turn.end], keep, turn.sorted);
    hide Newest, OldestFirst, DistinctIds, Filter, Rev;
    if Overcollected(turn, pageSize) {
      CutShows(all, keep, pageSize, from, turn);
    }
  }

  /** Of more than a page, turned around, the page shown is what lies from the cut on, and its token names the cut. */
  lemma CutShows(all: seq<ListedDataSet>, keep: ListedDataSet -> bool, pageSize: nat, from: nat, turn: Turn)
    requires pageSize > 0 && DistinctIds(all) && from <= turn.end <= |all| && Overcollected(turn, pageSize)
    requires turn.sorted == Rev(Filter(keep, all[from..turn.end]))
    requires turn.reply == Reply(turn.sorted[..pageSize], Some(turn.sorted[pageSize - 1].id))
    ensures
      var span := SpanOf(all, pageSize, from, turn);
      && from <= span.lo < span.hi == turn.end && keep(all[span.lo]) && Stop(all, turn.reply.next) == span.lo + 1
      && turn.reply.data == Rev(Filter(keep, all[span.lo..span.hi]))
      && Filter(keep, all[from..span.lo]) != []
  {
    hide Filter, DistinctIds, Rev, KnownToken, Position;
    var found := Filter(keep, all[from..turn.end]);
    var k := CutAt(all, keep, from, turn.end, pageSize);
    PositionAfter(all, k);
    RevHead(found, pageSize);
    assert found[..|found| - pageSize] != [];
  }

  lemma RevHead(s: seq<ListedDataSet>, m: nat)
    requires 0 < m <= |s|
    ensures Rev(s)[m - 1] == s[|s| - m] && Rev(s)[..m] == Rev(s[|s| - m..])
  {}

  // ----- Spans that follow one another -----

  /**
   * A call that starts at `from` scans until a page's worth is kept or the index ends, and shows no more than a page.
   */
  ghost predicate Reaches(all: seq<ListedDataSet>, keep: ListedDataSet -> bool, pageSize: nat, from: nat, span: Span) {
    && from <= span.lo <= span.hi <= |all|
    && (|Filter(keep, all[from..span.hi])| >= pageSize || span.hi == |all|)
    && |Filter(keep, all[span.lo..span.hi])| <= pageSize
  }

  /** Where the next call may start: behind the span, or behind the dataset the span was cut at. */
  ghost predicate Resumes(all: seq<ListedDataSet>, keep: ListedDataSet -> bool, span: Span, next: nat) {
    next == span.hi || (span.lo < span.hi <= |all| && keep(all[span.lo]) && next == span.lo + 1)
  }

  /** The spans of calls made one after the other, the first starting at `from` and the last resuming at `to`. */
  ghost predicate Chain(all: seq<ListedDataSet>, keep: ListedDataSet -> bool, pageSize: nat, from: nat,
                        spans: seq<Span>, to: nat)
    decreases |spans|
  {
    && spans != [] && Reaches(all, keep, pageSize, from, spans[0])
    && if |spans| == 1 then Resumes(all, keep, spans[0], to)
       else exists next: nat :: Resumes(all, keep, spans[0], next) && Chain(all, keep, pageSize, next, spans[1..], to)
  }

  ghost predicate Tiles(all: seq<ListedDataSet>, spans: seq<Span>) {
    && Within(all, spans)
    && (forall i, j :: 0 <= i <= j < |spans| ==> spans[i].lo <= spans[j].lo && spans[i].hi <= spans[j].hi)
    && spans != [] && spans[|spans| - 1].hi == |all|
  }

  /** The next call reaches at least as far as the one before: it has to find a dataset that one did not show. */
  lemma NextReaches(all: seq<ListedDataSet>, keep: ListedDataSet -> bool, pageSize: nat, from: nat, span: Span,
                    next: nat, span': Span)
    requires Reaches(all, keep, pageSize, from, span) && Resumes(all, keep, span, next)
    requires Reaches(all, keep, pageSize, next, span')
    ensures span.lo <= span'.lo && span.hi <= span'.hi
  {
    if next < span.hi {
      assert all[span.lo..next] == [all[span.lo]];
      FilterCons(keep, all[span.lo], []);
      FilterExtend(keep, all, span.lo, next, span.hi);
      if span'.hi < span.hi {
        FilterExtend(keep, all, next, span'.hi, span.hi);
      }
    }
  }

  lemma {:induction false} ChainTiles(all: seq<ListedDataSet>, keep: ListedDataSet -> bool, pageSize: nat, from: nat,
                                      spans: seq<Span>)
    requires Chain(all, keep, pageSize, from, spans, |all|)
    ensures Tiles(all, spans)
    decreases |spans|
  {
    if |spans| == 1 {
    } else {
      var next: nat :| Resumes(all, keep, spans[0], next) && Chain(all, keep, pageSize, next, spans[1..], |all|);
      ChainTiles(all, keep, pageSize, next, spans[1..]);
      NextReaches(all, keep, pageSize, from, spans[0], next, spans[1]);
      hide Chain, Reaches, Resumes;
      TilesCons(all, spans);
    }
  }

  lemma ChainOne(all: seq<ListedDataSet>, keep: ListedDataSet -> bool, pageSize: nat, from: nat, span: Span, to: nat)
    requires Reaches(all, keep, pageSize, from, span) && Resumes(all, keep, span, to)
    ensures Chain(all, keep, pageSize, from, [span], to)
  {}

  lemma ChainCons(all: seq<ListedDataSet>, keep: ListedDataSet -> bool, pageSize: nat, from: nat, span: Span,
                  next: nat, rest: seq<Span>, to: nat)
    requires Reaches(all, keep, pageSize, from, span) && Resumes(all, keep, span, next)
    requires Chain(all, keep, pageSize, next, rest, to)
    ensures Chain(all, keep, pageSize, from, [span] + rest, to)
  {
    assert ([span] + rest)[1..] == rest;
  }

  lemma {:induction false} ChainAppend(all: seq<ListedDataSet>, keep: ListedDataSet -> bool, pageSize: nat, from: nat,
                                       a: seq<Span>, mid: nat, b: seq<Span>, to: nat)
    requires Chain(all, keep, pageSize, from, a, mid) && Chain(all, keep, pageSize, mid, b, to)
    ensures Chain(all, keep, pageSize, from, a + b, to)
    decreases |a|
  {
    assert a + b == [a[0]] + (a[1..] + b);
    hide Reaches, Resumes;
    if |a| == 1 {
      assert a[1..] + b == b;
      ChainCons(all, keep, pageSize, from, a[0], mid, b, to);
    } else {
      var next: nat :| Resumes(all, keep, a[0], next) && Chain(all, keep, pageSize, next, a[1..], mid);
      ChainAppend(all, keep, pageSize, next, a[1..], mid, b, to);
      ChainCons(all, keep, pageSize, from, a[0], next, a[1..] + b, to);
    }
  }

  lemma TilesCons(all: seq<ListedDataSet>, spans: seq<Span>)
    requires |spans| > 1 && Tiles(all, spans[1..])
    requires spans[0].lo <= spans[0].hi && spans[0].lo <= spans[1].lo && spans[0].hi <= spans[1].hi
    ensures Tiles(all, spans)
  {
    var rest := spans[1..];
    assert forall i :: 0 < i < |spans| ==> spans[i] == rest[i - 1];
    assert forall i :: 0 <= i < |rest| ==> rest[0].lo <= rest[i].lo && rest[0].hi <= rest[i].hi;
  }

  // ----- When the spans show everything once -----

  ghost predicate Within(all: seq<ListedDataSet>, spans: seq<Span>) {
    forall i :: 0 <= i < |spans| ==> spans[i].lo <= spans[i].hi <= |all|
  }

  ghost function ShownBag(all: seq<ListedDataSet>, keep: ListedDataSet -> bool,
                          spans: seq<Span>): multiset<ListedDataSet>
    requires Within(all, spans)
  {
    if spans == [] then multiset{}
    else multiset(Filter(keep, all[spans[0].lo..spans[0].hi])) + ShownBag(all, keep, spans[1..])
  }

  /** Neither forwards nor backwards does a kept dataset lie between the two places. */
  ghost predicate Clear(all: seq<ListedDataSet>, keep: ListedDataSet -> bool, a: nat, b: nat) {
    forall k :: 0 <= k < |all| && (a <= k < b || b <= k < a) ==> !keep(all[k])
  }

  ghost function EndBefore(from: nat, spans: seq<Span>, i: nat): nat
    requires i < |spans|
  {
    if i == 0 then from else spans[i - 1].hi
  }

  /** Each call shows on from where the one before it ended: nothing kept is left out or shown again in between. */
  ghost predicate Seamless(all: seq<ListedDataSet>, keep: ListedDataSet -> bool, from: nat, spans: seq<Span>) {
    forall i :: 0 <= i < |spans| ==> Clear(all, keep, EndBefore(from, spans, i), spans[i].lo)
  }

  lemma {:induction false} NothingKept(keep: ListedDataSet -> bool, s: seq<ListedDataSet>)
    requires forall i :: 0 <= i < |s| ==> !keep(s[i])
    ensures Filter(keep, s) == []
  {
    if s == [] {
    } else {
      NothingKept(keep, s[1..]);
    }
  }

  lemma ClearSame(all: seq<ListedDataSet>, keep: ListedDataSet -> bool, a: nat, b: nat)
    requires a <= |all| && b <= |all| && Clear(all, keep, a, b)
    ensures Filter(keep, all[a..]) == Filter(keep, all[b..])
  {
    var lo, hi := Min(a, b), if a <= b then b else a;
    NothingKept(keep, all[lo..hi]);
    FilterExtend(keep, all, lo, hi, |all|);
    assert all[lo..|all|] == all[lo..] && all[hi..|all|] == all[hi..];
  }

  lemma {:induction false} SeamlessShows(all: seq<ListedDataSet>, keep: ListedDataSet -> bool, from: nat,
                                         spans: seq<Span>)
    requires Tiles(all, spans) && from <= |all| && Seamless(all, keep, from, spans)
    ensures ShownBag(all, keep, spans) == multiset(Filter(keep, all[from..]))
    decreases |spans|
  {
    var lo, hi := spans[0].lo, spans[0].hi;
    assert Clear(all, keep, EndBefore(from, spans, 0), lo);
    ClearSame(all, keep, from, lo);
    FilterExtend(keep, all, lo, hi, |all|);
    assert all[lo..|all|] == all[lo..] && all[hi..|all|] == all[hi..];
    assert all[|all|..] == [] && Filter(keep, []) == [];
    assert |spans| == 1 ==> hi == |all|;
    hide Filter, Clear;
    if |spans| == 1 {
      assert ShownBag(all, keep, spans[1..]) == multiset{};
    } else {
      SeamlessRest(all, keep, from, spans);
      SeamlessShows(all, keep, hi, spans[1..]);
    }
  }

  lemma SeamlessRest(all: seq<ListedDataSet>, keep: ListedDataSet -> bool, from: nat, spans: seq<Span>)
    requires |spans| > 1 && Tiles(all, spans)
    ensures Tiles(all, spans[1..])
    ensures Seamless(all, keep, from, spans) <==>
      Clear(all, keep, from, spans[0].lo) && Seamless(all, keep, spans[0].hi, spans[1..])
  {
    var rest := spans[1..];
    assert forall i :: 0 < i < |spans| ==> spans[i] == rest[i - 1];
    assert forall i :: 0 <= i < |rest| ==> EndBefore(spans[0].hi, rest, i) == EndBefore(from, spans, i + 1);
    if Seamless(all, keep, from, spans) {
      assert Clear(all, keep, EndBefore(from, spans, 0), spans[0].lo);
      forall i | 0 <= i < |rest|
        ensures Clear(all, keep, EndBefore(spans[0].hi, rest, i), rest[i].lo)
      {
        assert Clear(all, keep, EndBefore(from, spans, i + 1), spans[i + 1].lo);
      }
    }
    if Clear(all, keep, from, spans[0].lo) && Seamless(all, keep, spans[0].hi, rest) {
      forall i | 0 <= i < |spans|
        ensures Clear(all, keep, EndBefore(from, spans, i), spans[i].lo)
      {
        if i > 0 {
          assert Clear(all, keep, EndBefore(spans[0].hi, rest, i - 1), rest[i - 1].lo);
        }
      }
    }
  }

  ghost predicate In(span: Span, k: nat) {
    span.lo <= k < span.hi
  }

  /** A kept dataset is shown by exactly the spans it lies in. */
  lemma ShownIn(all: seq<ListedDataSet>, keep: ListedDataSet -> bool, span: Span, k: nat)
    requires DistinctIds(all) && span.lo <= span.hi <= |all| && k < |all| && keep(all[k])
    ensures multiset(Filter(keep, all[span.lo..span.hi]))[all[k]] == if In(span, k) then 1 else 0
  {
    var slice := all[span.lo..span.hi];
    assert Distinct(slice);
    FilterDistinct(keep, slice);
    FilterMembers(keep, slice);
    DistinctOnce(Filter(keep, slice), all[k]);
    assert all[k] in slice <==> In(span, k) by {
      if In(span, k) {
        assert slice[k - span.lo] == all[k];
      }
    }
    assert all[k] in multiset(Filter(keep, slice)) <==> all[k] in Filter(keep, slice);
  }

  lemma {:induction false} DistinctOnce(s: seq<ListedDataSet>, x: ListedDataSet)
    requires Distinct(s)
    ensures multiset(s)[x] <= 1
  {
    if s == [] {
    } else {
      DistinctOnce(s[1..], x);
      assert s == [s[0]] + s[1..];
      assert s[0] !in s[1..];
    }
  }

  lemma {:induction false} ShownNowhere(all: seq<ListedDataSet>, keep: ListedDataSet -> bool, spans: seq<Span>, k: nat)
    requires DistinctIds(all) && k < |all| && keep(all[k])
    requires Within(all, spans) && forall i :: 0 <= i < |spans| ==> !In(spans[i], k)
    ensures ShownBag(all, keep, spans)[all[k]] == 0
  {
    if spans == [] {
    } else {
      ShownIn(all, keep, spans[0], k);
      ShownNowhere(all, keep, spans[1..], k);
    }
  }

  lemma {:induction false} ShownTwice(all: seq<ListedDataSet>, keep: ListedDataSet -> bool, spans: seq<Span>, i: nat,
                                      j: nat, k: nat)
    requires DistinctIds(all) && k < |all| && keep(all[k]) && i <= j < |spans|
    requires Within(all, spans) && In(spans[i], k) && In(spans[j], k)
    ensures ShownBag(all, keep, spans)[all[k]] >= if i < j then 2 else 1
  {
    ShownIn(all, keep, spans[0], k);
    if j == 0 {
    } else if i == 0 {
      ShownTwice(all, keep, spans[1..], j - 1, j - 1, k);
    } else {
      ShownTwice(all, keep, spans[1..], i - 1, j - 1, k);
    }
  }

  /** At a seam that is not clear a kept dataset is lost or shown twice. */
  lemma SeamShows(all: seq<ListedDataSet>, keep: ListedDataSet -> bool, spans: seq<Span>, i: nat, k: nat)
    requires DistinctIds(all) && Tiles(all, spans) && i < |spans| && k < |all| && keep(all[k])
    requires
      var end := EndBefore(0, spans, i);
      end <= k < spans[i].lo || spans[i].lo <= k < end
    ensures ShownBag(all, keep, spans)[all[k]] != 1
  {
    if EndBefore(0, spans, i) <= k {
      forall j | 0 <= j < |spans|
        ensures !In(spans[j], k)
      {
        if j < i {
          assert spans[j].hi <= spans[i - 1].hi;
        } else {
          assert spans[i].lo <= spans[j].lo;
        }
      }
      ShownNowhere(all, keep, spans, k);
    } else {
      assert spans[i - 1].lo <= spans[i].lo && spans[i - 1].hi <= spans[i].hi;
      ShownTwice(all, keep, spans, i - 1, i, k);
    }
  }

  lemma SomeSeam(all: seq<ListedDataSet>, keep: ListedDataSet -> bool, spans: seq<Span>) returns (i: nat, k: nat)
    requires !Seamless(all, keep, 0, spans)
    ensures i < |spans| && k < |all| && keep(all[k])
    ensures
      var end := EndBefore(0, spans, i);
      end <= k < spans[i].lo || spans[i].lo <= k < end
  {
    i :| 0 <= i < |spans| && !Clear(all, keep, EndBefore(0, spans, i), spans[i].lo);
    var end, lo := EndBefore(0, spans, i), spans[i].lo;
    k :| 0 <= k < |all| && (end <= k < lo || lo <= k < end) && keep(all[k]);
  }

  lemma ShownOnce(all: seq<ListedDataSet>, keep: ListedDataSet -> bool, k: nat)
    requires DistinctIds(all) && k < |all| && keep(all[k])
    ensures multiset(Filter(keep, all))[all[k]] == 1
  {
    ShownIn(all, keep, Span(0, |all|), k);
    assert all[0..|all|] == all && In(Span(0, |all|), k);
    hide Filter;
  }

  /** Spans that tile the index show every kept dataset exactly once if and only if they are seamless. */
  lemma SeamlessIff(all: seq<ListedDataSet>, keep: ListedDataSet -> bool, spans: seq<Span>)
    requires DistinctIds(all) && Tiles(all, spans)
    ensures ShownBag(all, keep, spans) == multiset(Filter(keep, all)) <==> Seamless(all, keep, 0, spans)
  {
    assert all[0..] == all;
    if Seamless(all, keep, 0, spans) {
      SeamlessShows(all, keep, 0, spans);
    } else {
      var i, k := SomeSeam(all, keep, spans);
      assert all[0..|all|] == all;
      hide *;
      SeamShows(all, keep, spans, i, k);
      ShownOnce(all, keep, k);
    }
  }

  // ----- Walking all pages, oldest first -----

  /** Over an oldest-first index no later call brings back what a truncated call dropped. */
  lemma LostForever(all: seq<ListedDataSet>, keep: ListedDataSet -> bool, pageSize: nat, from: nat, turns: seq<Turn>)
    returns (k: nat)
    requires pageSize > 0 && DistinctIds(all) && OldestFirst(all)
    requires TurnWalk(all, keep, pageSize, from, turns) && Overcollected(turns[0], pageSize)
    ensures from <= k < |all| && keep(all[k]) && all[k] !in Listed(RepliesOf(turns))
  {
    k := TruncationDrops(all, keep, pageSize, from, turns[0]);
    ProgressOf(all, keep, pageSize, from, turns[0]);
    assert RepliesOf(turns)[1..] == RepliesOf(turns[1..]);
    hide Answers, DistinctIds, OldestFirst, Position;
    NothingEarlier(all, keep, pageSize, Stop(all, turns[0].reply.next), turns[1..], k);
  }

  /** A truncated call drops a readable dataset it collected and continues behind it. */
  lemma TruncationDrops(all: seq<ListedDataSet>, keep: ListedDataSet -> bool, pageSize: nat, from: nat, turn: Turn)
    returns (k: nat)
    requires pageSize > 0 && DistinctIds(all) && OldestFirst(all)
    requires Answers(all, keep, pageSize, from, turn) && Overcollected(turn, pageSize)
    ensures from <= k < Stop(all, turn.reply.next) && k < |all| && keep(all[k]) && all[k] !in turn.reply.data
  {
    var span := SpanOf(all, pageSize, from, turn);
    TurnShows(all, keep, pageSize, from, turn);
    KeptBetween(all, keep, from, span.lo);
    k :| 0 <= k < |all| && from <= k < span.lo && keep(all[k]);
    FilterMembers(keep, all[span.lo..span.hi]);
    hide Answers, OldestFirst, Filter, SpanOf, Stop, Overcollected;
    forall x | x in turn.reply.data
      ensures x != all[k]
    {
      var i :| 0 <= i < |turn.reply.data| && turn.reply.data[i] == x;
      assert x in Filter(keep, all[span.lo..span.hi]);
    }
  }

  ghost function SpansOf(all: seq<ListedDataSet>, pageSize: nat, from: nat, turns: seq<Turn>): seq<Span>
    decreases |turns|
  {
    if turns == [] then []
    else [SpanOf(all, pageSize, from, turns[0])] + SpansOf(all, pageSize, Stop(all, turns[0].reply.next), turns[1..])
  }

  /** A call's span reaches as far as it must, and its token resumes behind it or behind the cut. */
  lemma TurnReaches(all: seq<ListedDataSet>, keep: ListedDataSet -> bool, pageSize: nat, from: nat, turn: Turn)
    requires pageSize > 0 && DistinctIds(all) && OldestFirst(all) && Answers(all, keep, pageSize, from, turn)
    ensures
      var span := SpanOf(all, pageSize, from, turn);
      && Reaches(all, keep, pageSize, from, span)
      && Resumes(all, keep, span, Stop(all, turn.reply.next))
      && (!Overcollected(turn, pageSize) ==> Stop(all, turn.reply.next) == span.hi)
      && (turn.reply.next.None? ==> span.hi == |all|)
  {
    TurnShows(all, keep, pageSize, from, turn);
    SameLength(turn.sorted, Filter(keep, all[from..turn.end]));
    if turn.reply.next.Some? {
      ProgressOf(all, keep, pageSize, from, turn);
    }
    hide Filter, OldestFirst, DistinctIds, Newest, Position;
  }

  lemma {:induction false} WalkChains(all: seq<ListedDataSet>, keep: ListedDataSet -> bool, pageSize: nat, from: nat,
                                      turns: seq<Turn>)
    requires pageSize > 0 && DistinctIds(all) && OldestFirst(all) && TurnWalk(all, keep, pageSize, from, turns)
    ensures Chain(all, keep, pageSize, from, SpansOf(all, pageSize, from, turns), |all|)
    ensures Tiles(all, SpansOf(all, pageSize, from, turns))
    decreases |turns|
  {
    var span, stop := SpanOf(all, pageSize, from, turns[0]), Stop(all, turns[0].reply.next);
    TurnReaches(all, keep, pageSize, from, turns[0]);
    assert turns[0].reply.next.None? ==> stop == |all|;
    hide Answers, OldestFirst, DistinctIds, Reaches, Resumes, SpanOf, Stop, Chain, Tiles;
    if |turns| == 1 {
      assert SpansOf(all, pageSize, from, turns) == [span];
      ChainOne(all, keep, pageSize, from, span, |all|);
    } else {
      WalkChains(all, keep, pageSize, stop, turns[1..]);
      ChainCons(all, keep, pageSize, from, span, stop, SpansOf(all, pageSize, stop, turns[1..]), |all|);
    }
    ChainTiles(all, keep, pageSize, from, SpansOf(all, pageSize, from, turns));
  }

  lemma {:induction false} WalkSpans(all: seq<ListedDataSet>, keep: ListedDataSet -> bool, pageSize: nat, from: nat,
                                     turns: seq<Turn>)
    requires pageSize > 0 && DistinctIds(all) && OldestFirst(all) && TurnWalk(all, keep, pageSize, from, turns)
    ensures Tiles(all, SpansOf(all, pageSize, from, turns))
    ensures multiset(Listed(RepliesOf(turns))) == ShownBag(all, keep, SpansOf(all, pageSize, from, turns))
    decreases |turns|
  {
    var spans, stop := SpansOf(all, pageSize, from, turns), Stop(all, turns[0].reply.next);
    WalkChains(all, keep, pageSize, from, turns);
    TurnShows(all, keep, pageSize, from, turns[0]);
    RevKeeps(Filter(keep, all[spans[0].lo..spans[0].hi]));
    ListedStep(turns, pageSize);
    hide Answers, OldestFirst, DistinctIds, Filter, Rev, SpanOf, Stop, Chain;
    assert spans[1..] == SpansOf(all, pageSize, stop, turns[1..]);
    if |turns| == 1 {
      assert RepliesOf(turns[1..]) == [] && spans[1..] == [];
    } else {
      WalkSpans(all, keep, pageSize, stop, turns[1..]);
    }
    hide Listed, RepliesOf, SpansOf, TurnWalk;
  }

  /** The first truncated call of a walk leaves a seam; a walk without truncated calls has none. */
  lemma {:induction false} SeamlessUnlessCut(all: seq<ListedDataSet>, keep: ListedDataSet -> bool, pageSize: nat,
                                             from: nat, turns: seq<Turn>)
    requires pageSize > 0 && DistinctIds(all) && OldestFirst(all) && TurnWalk(all, keep, pageSize, from, turns)
    ensures Seamless(all, keep, from, SpansOf(all, pageSize, from, turns)) <==> !SomeOvercollected(turns, pageSize)
    decreases |turns|
  {
    var spans, stop := SpansOf(all, pageSize, from, turns), Stop(all, turns[0].reply.next);
    WalkChains(all, keep, pageSize, from, turns);
    TurnShows(all, keep, pageSize, from, turns[0]);
    TurnReaches(all, keep, pageSize, from, turns[0]);
    ListedStep(turns, pageSize);
    FirstSpan(all, pageSize, from, turns);
    if Overcollected(turns[0], pageSize) {
      hide *;
      CutIsSeam(all, keep, from, spans);
    } else if |turns| == 1 {
      hide *;
      OneSpanSeamless(all, keep, from, spans);
    } else {
      SeamlessUnlessCut(all, keep, pageSize, stop, turns[1..]);
      UncutSpan(all, pageSize, from, turns);
      hide *;
      SeamlessRest(all, keep, from, spans);
      NothingBetween(all, keep, from);
    }
  }

  lemma FirstSpan(all: seq<ListedDataSet>, pageSize: nat, from: nat, turns: seq<Turn>)
    requires turns != []
    ensures
      var spans := SpansOf(all, pageSize, from, turns);
      && spans != [] && (|spans| > 1 <==> |turns| > 1) && spans[0] == SpanOf(all, pageSize, from, turns[0])
      && spans[1..] == SpansOf(all, pageSize, Stop(all, turns[0].reply.next), turns[1..])
  {
    var rest := SpansOf(all, pageSize, Stop(all, turns[0].reply.next), turns[1..]);
    assert rest == [] <==> |turns| == 1;
    hide SpanOf, Stop;
  }

  lemma UncutSpan(all: seq<ListedDataSet>, pageSize: nat, from: nat, turns: seq<Turn>)
    requires turns != [] && !Overcollected(turns[0], pageSize)
    ensures SpanOf(all, pageSize, from, turns[0]) == Span(from, turns[0].end)
  {}

  lemma NothingBetween(all: seq<ListedDataSet>, keep: ListedDataSet -> bool, a: nat)
    ensures Clear(all, keep, a, a)
  {}

  lemma CutIsSeam(all: seq<ListedDataSet>, keep: ListedDataSet -> bool, from: nat, spans: seq<Span>)
    requires spans != [] && from <= spans[0].lo <= |all| && Filter(keep, all[from..spans[0].lo]) != []
    ensures !Seamless(all, keep, from, spans)
  {
    KeptBetween(all, keep, from, spans[0].lo);
    hide Clear;
    assert !Clear(all, keep, EndBefore(from, spans, 0), spans[0].lo);
  }

  lemma OneSpanSeamless(all: seq<ListedDataSet>, keep: ListedDataSet -> bool, from: nat, spans: seq<Span>)
    requires |spans| == 1 && spans[0].lo == from
    ensures Seamless(all, keep, from, spans)
  {}

  lemma KeptBetween(all: seq<ListedDataSet>, keep: ListedDataSet -> bool, a: nat, b: nat)
    requires a <= b <= |all| && Filter(keep, all[a..b]) != []
    ensures !Clear(all, keep, a, b)
  {
    FilterMembers(keep, all[a..b]);
    var x := Filter(keep, all[a..b])[0];
    assert x in Filter(keep, all[a..b]);
    var k :| a <= k < b && all[k] == x;
  }

  lemma ListedStep(turns: seq<Turn>, pageSize: nat)
    requires turns != []
    ensures Listed(RepliesOf(turns)) == turns[0].reply.data + Listed(RepliesOf(turns[1..]))
    ensures SomeOvercollected(turns, pageSize)
        <==> Overcollected(turns[0], pageSize) || SomeOvercollected(turns[1..], pageSize)
  {
    assert RepliesOf(turns)[1..] == RepliesOf(turns[1..]);
    assert forall i :: 0 <= i < |turns[1..]| ==> turns[1..][i] == turns[i + 1];
    if SomeOvercollected(turns, pageSize) && !Overcollected(turns[0], pageSize) {
      var i :| 0 <= i < |turns| && Overcollected(turns[i], pageSize);
      assert turns[1..][i - 1] == turns[i];
    }
  }

  /**
   * Over an oldest-first index, which is what the query asks for, a walk lists every readable dataset once and
   * nothing else exactly when no call on the way collected more than a page.
   */
  lemma OldestFirstWalkIff(all: seq<ListedDataSet>, keep: ListedDataSet -> bool, pageSize: nat, turns: seq<Turn>)
    requires pageSize > 0 && DistinctIds(all) && OldestFirst(all) && TurnWalk(all, keep, pageSize, 0, turns)
    ensures multiset(Listed(RepliesOf(turns))) == multiset(Filter(keep, all)) <==> !SomeOvercollected(turns, pageSize)
  {
    WalkSpans(all, keep, pageSize, 0, turns);
    SeamlessUnlessCut(all, keep, pageSize, 0, turns);
    SeamlessIff(all, keep, SpansOf(all, pageSize, 0, turns));
  }

  const ADMIN: string := "ProjectAdmin"

  /** Project p owns the newest of the datasets below, project q the others. */
  function At(time: int): ListedDataSet {
    ListedDataSet(seq(if time < 0 then 0 else time, _ => 'd'), time,
        Some((if time == 4 then "p" else "q") + ['#'] + ADMIN))
  }

  function Readable(): ListedDataSet -> bool {
    (d: ListedDataSet) => d.createdAt > 1
  }

  function TwoTurns(): seq<Turn> {
    [Turn(4, [At(4), At(3), At(2)], Reply([At(4), At(3)], Some(At(3).id))), Turn(4, [At(4)], Reply([At(4)], None))]
  }

  lemma FourOldestFirst()
    ensures var all := [At(1), At(2), At(3), At(4)];
      && DistinctIds(all) && OldestFirst(all)
      && Filter(Readable(), all[0..4]) == [At(2), At(3), At(4)] && Filter(Readable(), all[3..4]) == [At(4)]
  {
    var all, keep := [At(1), At(2), At(3), At(4)], Readable();
    assert forall i :: 0 <= i < 4 ==> |all[i].id| == i + 1;
    FilterCons(keep, At(4), []);
    FilterCons(keep, At(3), [At(4)]);
    FilterCons(keep, At(2), [At(3), At(4)]);
    FilterCons(keep, At(1), [At(2), At(3), At(4)]);
    assert [At(4)] + [] == [At(4)] && [At(3)] + [At(4)] == [At(3), At(4)];
    assert [At(2)] + [At(3), At(4)] == [At(2), At(3), At(4)] && [At(1)] + [At(2), At(3), At(4)] == all;
    assert all[0..4] == all && all[3..4] == [At(4)];
  }

  function Four(): seq<ListedDataSet> {
    [At(1), At(2), At(3), At(4)]
  }

  lemma Reversed(x: ListedDataSet, y: ListedDataSet, z: ListedDataSet)
    ensures multiset([z, y, x]) == multiset([x, y, z])
  {
    assert [z, y, x] == [z] + [y] + [x] && [x, y, z] == [x] + [y] + [z];
  }

  /** The second page of the first call, and the only one of the second, are asked for with less than two collected. */
  lemma FourPage()
    ensures LastPage(Four(), Readable(), 2, 0, 4) && LastPage(Four(), Readable(), 2, 3, 4)
  {
    FilterCons(Readable(), At(2), []);
    FilterCons(Readable(), At(1), [At(2)]);
    assert Four()[0..2] == [At(1)] + [At(2)] && [At(2)] == [At(2)] + [] && Four()[3..3] == [];
    LastPageFrom(Four(), Readable(), 2, 0, 2, 4);
    LastPageFrom(Four(), Readable(), 2, 3, 3, 4);
  }

  lemma FirstTurn()
    ensures Answers(Four(), Readable(), 2, 0, TwoTurns()[0])
  {
    FourOldestFirst();
    FourPage();
    hide Filter, DistinctIds, OldestFirst, Readable, LastPage;
    Reversed(At(2), At(3), At(4));
    assert At(2).createdAt < At(3).createdAt < At(4).createdAt;
    hide At;
    assert [At(4), At(3), At(2)][..2] == [At(4), At(3)];
  }

  lemma SecondTurn()
    ensures Answers(Four(), Readable(), 2, 3, TwoTurns()[1])
  {
    FourOldestFirst();
    FourPage();
    hide Filter, DistinctIds, OldestFirst, LastPage;
  }

  lemma TwoTurnsWalk()
    ensures TurnWalk(Four(), Readable(), 2, 0, TwoTurns())
  {
    FirstTurn();
    SecondTurn();
    FourOldestFirst();
    PositionAfter(Four(), 2);
    var turns := TwoTurns();
    assert Stop(Four(), turns[0].reply.next) == 3;
    hide Answers, Filter, DistinctIds, OldestFirst, Position, At;
    assert turns[1..] == [turns[1]];
    assert TurnWalk(Four(), Readable(), 2, 3, [turns[1]]);
  }

  /**
   * Four datasets, oldest first, of which the user may read all but the first: with pages of two the walk below
   * loses one dataset and repeats another.
   */
  lemma OldestFirstLoses()
    ensures DistinctIds(Four()) && OldestFirst(Four()) && TurnWalk(Four(), Readable(), 2, 0, TwoTurns())
    ensures multiset(Listed(RepliesOf(TwoTurns()))) != multiset(Filter(Readable(), Four()))
  {
    FourOldestFirst();
    TwoTurnsWalk();
    assert Overcollected(TwoTurns()[0], 2);
    hide Filter, Answers, TurnWalk, Listed, RepliesOf;
    OldestFirstWalkIff(Four(), Readable(), 2, TwoTurns());
  }
}
