/** Which stretches of the index a call of the dataset listing can scan, counted in readable datasets. */
module ListingPages {
  import opened Prelude
  import opened DatasetListing

  // ----- Counting readable datasets -----

  /** How many readable datasets the index holds before place `b`. */
  ghost function Before(all: seq<ListedDataSet>, keep: ListedDataSet -> bool, b: nat): nat
    requires b <= |all|
  {
    |Filter(keep, all[..b])|
  }

  lemma CountBetween(all: seq<ListedDataSet>, keep: ListedDataSet -> bool, a: nat, b: nat)
    requires a <= b <= |all|
    ensures |Filter(keep, all[a..b])| == Before(all, keep, b) - Before(all, keep, a)
  {
    FilterExtend(keep, all, 0, a, b);
    assert all[0..a] == all[..a] && all[0..b] == all[..b];
  }

  lemma CountStep(all: seq<ListedDataSet>, keep: ListedDataSet -> bool, i: nat)
    requires i < |all|
    ensures Before(all, keep, i + 1) == Before(all, keep, i) + if keep(all[i]) then 1 else 0
  {
    FilterStep(keep, all, i);
  }

  lemma {:induction false} CountGrows(all: seq<ListedDataSet>, keep: ListedDataSet -> bool, a: nat, b: nat)
    requires a <= b <= |all|
    ensures Before(all, keep, a) <= Before(all, keep, b) <= Before(all, keep, a) + (b - a)
    decreases b - a
  {
    hide Before;
    if a == b {
    } else {
      CountStep(all, keep, b - 1);
      CountGrows(all, keep, a, b - 1);
    }
  }

  /** Fewer readable datasets lie before a place than before another exactly if it comes first, by a readable one. */
  lemma CountLess(all: seq<ListedDataSet>, keep: ListedDataSet -> bool, i: nat, b: nat)
    requires i < |all| && b <= |all| && keep(all[i])
    ensures Before(all, keep, i) < Before(all, keep, b) <==> i < b
  {
    CountStep(all, keep, i);
    if i < b {
      CountGrows(all, keep, i + 1, b);
    } else {
      CountGrows(all, keep, b, i);
    }
  }

  /** The place of the readable dataset with exactly `n` readable ones before it. */
  lemma Nth(all: seq<ListedDataSet>, keep: ListedDataSet -> bool, n: nat) returns (i: nat)
    requires n < Before(all, keep, |all|)
    ensures i < |all| && keep(all[i]) && Before(all, keep, i) == n
  {
    assert all[..|all|] == all;
    i := FilterPosition(keep, all, n);
    CountStep(all, keep, i);
  }

  // ----- The pages of one call -----

  /** The page is asked for while less than a page's worth is collected, and is empty only at the end of the index. */
  ghost predicate PageFits(all: seq<ListedDataSet>, keep: ListedDataSet -> bool, pageSize: nat, from: nat, at: nat,
                           end: nat) {
    && from <= at <= end <= |all| && end <= at + pageSize && (at < |all| ==> at < end)
    && |Filter(keep, all[from..at])| < pageSize
  }

  ghost function PageStart(from: nat, ends: seq<nat>, i: nat): nat
    requires i < |ends|
  {
    if i == 0 then from else ends[i - 1]
  }

  /** Where the pages end that a call starting at `from` asks for, one after the other. */
  ghost predicate Paged(all: seq<ListedDataSet>, keep: ListedDataSet -> bool, pageSize: nat, from: nat,
                        ends: seq<nat>) {
    ends != [] && forall i :: 0 <= i < |ends| ==>
      PageFits(all, keep, pageSize, from, PageStart(from, ends, i), ends[i])
  }

  /** The places where a call's last page can end, over every paging the database may choose. */
  lemma PagedIff(all: seq<ListedDataSet>, keep: ListedDataSet -> bool, pageSize: nat, from: nat, end: nat)
    requires pageSize > 0 && from <= |all|
    ensures
      (exists ends :: Paged(all, keep, pageSize, from, ends) && ends[|ends| - 1] == end)
      <==> LastPage(all, keep, pageSize, from, end) && (from < |all| ==> from < end)
  {
    if ends :| Paged(all, keep, pageSize, from, ends) && ends[|ends| - 1] == end {
      var at := PageStart(from, ends, |ends| - 1);
      assert PageFits(all, keep, pageSize, from, at, end);
      LastPageFrom(all, keep, pageSize, from, at, end);
    }
    if LastPage(all, keep, pageSize, from, end) && (from < |all| ==> from < end) {
      var ends := PagesTo(all, keep, pageSize, from, end);
    }
  }

  lemma PagesTo(all: seq<ListedDataSet>, keep: ListedDataSet -> bool, pageSize: nat, from: nat, end: nat)
    returns (ends: seq<nat>)
    requires pageSize > 0 && LastPage(all, keep, pageSize, from, end) && (from < |all| ==> from < end)
    ensures Paged(all, keep, pageSize, from, ends) && ends[|ends| - 1] == end
  {
    var m :| from <= m <= end <= |all| && end <= m + pageSize && |Filter(keep, all[from..m])| < pageSize;
    var last := if m == end && from < end then end - 1 else m;
    CountWithin(all, keep, from, last, m);
    assert PageFits(all, keep, pageSize, from, last, end);
    hide Filter, PageFits, LastPage;
    if last == from {
      ends := [end];
    } else {
      var front := UnitPages(all, keep, pageSize, from, last);
      ends := OnePageMore(all, keep, pageSize, from, front, end);
    }
  }

  /** Pages of one dataset each lead up to any place, as long as less than a page's worth lies before it. */
  lemma {:induction false} UnitPages(all: seq<ListedDataSet>, keep: ListedDataSet -> bool, pageSize: nat, from: nat,
                                     m: nat) returns (ends: seq<nat>)
    requires from < m <= |all| && 0 < pageSize && |Filter(keep, all[from..m])| < pageSize
    ensures Paged(all, keep, pageSize, from, ends) && ends[|ends| - 1] == m
    decreases m
  {
    CountWithin(all, keep, from, m - 1, m);
    assert PageFits(all, keep, pageSize, from, m - 1, m);
    hide Filter, PageFits;
    if m == from + 1 {
      ends := [m];
    } else {
      var front := UnitPages(all, keep, pageSize, from, m - 1);
      ends := OnePageMore(all, keep, pageSize, from, front, m);
    }
  }

  lemma OnePageMore(all: seq<ListedDataSet>, keep: ListedDataSet -> bool, pageSize: nat, from: nat, front: seq<nat>,
                    end: nat) returns (ends: seq<nat>)
    requires Paged(all, keep, pageSize, from, front)
    requires PageFits(all, keep, pageSize, from, front[|front| - 1], end)
    ensures ends == front + [end] && Paged(all, keep, pageSize, from, ends)
  {
    hide PageFits;
    ends := front + [end];
    forall i | 0 <= i < |ends|
      ensures PageFits(all, keep, pageSize, from, PageStart(from, ends, i), ends[i])
    {
      if i < |front| {
        assert PageStart(from, ends, i) == PageStart(from, front, i);
      }
    }
  }

  lemma CountWithin(all: seq<ListedDataSet>, keep: ListedDataSet -> bool, from: nat, at: nat, m: nat)
    requires from <= at <= m <= |all|
    ensures |Filter(keep, all[from..at])| <= |Filter(keep, all[from..m])|
  {
    CountBetween(all, keep, from, at);
    CountBetween(all, keep, from, m);
    CountGrows(all, keep, at, m);
  }
}
