/** Vocabulary shared by every component: results, filtering, and the paging contract of the database. */
module Prelude {

  datatype Option<+T> = None | Some(value: T)

  datatype Result<+T, +E> = Success(value: T) | Failure(error: E)

  function Min(a: nat, b: nat): nat {
    if a <= b then a else b
  }

  ghost predicate Distinct<T>(s: seq<T>) {
    forall i, j :: 0 <= i < j < |s| ==> s[i] != s[j]
  }

  function Filter<T(!new)>(keep: T -> bool, s: seq<T>): (r: seq<T>)
    ensures |r| <= |s|
  {
    if s == [] then [] else (if keep(s[0]) then [s[0]] else []) + Filter(keep, s[1..])
  }

  lemma {:induction false} FilterMembers<T(!new)>(keep: T -> bool, s: seq<T>)
    ensures forall x :: x in Filter(keep, s) <==> x in s && keep(x)
  {
    if s == [] {
    } else {
      FilterMembers(keep, s[1..]);
      assert s == [s[0]] + s[1..];
    }
  }

  lemma FilterCons<T(!new)>(keep: T -> bool, x: T, rest: seq<T>)
    ensures Filter(keep, [x] + rest) == (if keep(x) then [x] else []) + Filter(keep, rest)
  {
    assert ([x] + rest)[1..] == rest;
  }

  lemma Associative<T>(a: seq<T>, b: seq<T>, c: seq<T>)
    ensures (a + b) + c == a + (b + c)
  {}

  lemma {:induction false} FilterConcat<T(!new)>(keep: T -> bool, a: seq<T>, b: seq<T>)
    ensures Filter(keep, a + b) == Filter(keep, a) + Filter(keep, b)
  {
    if a == [] {
      assert a + b == b;
    } else {
      var x, rest := a[0], a[1..];
      FilterConcat(keep, rest, b);
      FilterCons(keep, x, rest);
      FilterCons(keep, x, rest + b);
      hide Filter;
      assert a == [x] + rest && a + b == [x] + (rest + b);
      Associative(if keep(x) then [x] else [], Filter(keep, rest), Filter(keep, b));
    }
  }

  /** Scanning on from `i` to `j` appends exactly what the stretch contributes. */
  lemma FilterExtend<T(!new)>(keep: T -> bool, s: seq<T>, lo: nat, i: nat, j: nat)
    requires lo <= i <= j <= |s|
    ensures Filter(keep, s[lo..j]) == Filter(keep, s[lo..i]) + Filter(keep, s[i..j])
  {
    assert s[lo..j] == s[lo..i] + s[i..j];
    FilterConcat(keep, s[lo..i], s[i..j]);
  }

  lemma {:induction false} FilterDistinct<T(!new)>(keep: T -> bool, s: seq<T>)
    requires Distinct(s)
    ensures Distinct(Filter(keep, s))
  {
    if s == [] {
    } else {
      FilterDistinct(keep, s[1..]);
      FilterMembers(keep, s[1..]);
      assert s[0] !in s[1..];
    }
  }

  /** Filtering twice is filtering by both conditions. */
  lemma {:induction false} FilterTwice<T(!new)>(p: T -> bool, q: T -> bool, both: T -> bool, s: seq<T>)
    requires forall x :: both(x) <==> p(x) && q(x)
    ensures Filter(q, Filter(p, s)) == Filter(both, s)
  {
    if s == [] {
    } else {
      var x, rest := s[0], s[1..];
      assert s == [x] + rest;
      FilterTwice(p, q, both, rest);
      FilterCons(p, x, rest);
      FilterCons(both, x, rest);
      FilterCons(q, x, Filter(p, rest));
      if !p(x) {
        assert Filter(p, s) == Filter(p, rest);
        assert Filter(both, s) == Filter(both, rest);
      }
    }
  }

  lemma SlicePrefix<T>(s: seq<T>, from: nat, to: nat, n: nat)
    requires from <= to <= |s| && n <= to - from
    ensures s[from..to][..n] == s[from..from + n]
  {}

  lemma FilterStep<T(!new)>(keep: T -> bool, s: seq<T>, i: nat)
    requires i < |s|
    ensures Filter(keep, s[..i + 1]) == Filter(keep, s[..i]) + if keep(s[i]) then [s[i]] else []
  {
    assert s[..i + 1] == s[..i] + [s[i]];
    FilterConcat(keep, s[..i], [s[i]]);
  }

  /** The position of an element kept by a filter: what was kept before it is the filter of what came before it. */
  lemma FilterPosition<T(!new)>(keep: T -> bool, s: seq<T>, k: nat) returns (i: nat)
    requires k < |Filter(keep, s)|
    ensures i < |s| && s[i] == Filter(keep, s)[k] && keep(s[i])
    ensures Filter(keep, s[..i + 1]) == Filter(keep, s)[..k + 1]
  {
    i := |s| - 1;
    assert s[..i + 1] == s && Filter(keep, s[..0]) == [];
    hide Filter;
    FilterStep(keep, s, i);
    while !keep(s[i]) || |Filter(keep, s[..i])| != k
      invariant 0 <= i < |s|
      invariant Filter(keep, s[..i + 1]) <= Filter(keep, s)
      invariant k < |Filter(keep, s[..i + 1])|
      decreases i
    {
      FilterStep(keep, s, i);
      i := i - 1;
      FilterStep(keep, s, i);
    }
    FilterStep(keep, s, i);
  }

  /** Applies a partial reader to every element, in order. */
  function Collect<A, B>(read: A -> Option<B>, s: seq<A>): seq<B> {
    if s == [] then []
    else (if read(s[0]).Some? then [read(s[0]).value] else []) + Collect(read, s[1..])
  }

  lemma {:induction false} CollectConcat<A, B>(read: A -> Option<B>, a: seq<A>, b: seq<A>)
    ensures Collect(read, a + b) == Collect(read, a) + Collect(read, b)
  {
    if a == [] {
      assert a + b == b;
    } else {
      CollectConcat(read, a[1..], b);
      assert (a + b)[1..] == a[1..] + b;
    }
  }

  lemma {:induction false} CollectEach<A, B>(read: A -> Option<B>, s: seq<A>)
    requires forall i :: 0 <= i < |s| ==> read(s[i]).Some?
    ensures |Collect(read, s)| == |s|
    ensures forall i :: 0 <= i < |s| ==> Collect(read, s)[i] == read(s[i]).value
  {
    if s == [] {
    } else {
      CollectEach(read, s[1..]);
    }
  }

  /**
   * The contract of one paged query over the listing `all`, resumed at position `start`: a contiguous run of at
   * most `limit` entries, at least `least` of them while that many remain, and a token that is absent only once
   * the listing is exhausted. A token may still be present after the last entry; resuming there gives an empty
   * page without one.
   */
  ghost predicate PageOf<T>(all: seq<T>, start: nat, limit: nat, least: nat, page: seq<T>, next: Option<nat>) {
    var from := Min(start, |all|);
    && from + |page| <= |all|
    && page == all[from..from + |page|]
    && |page| <= limit
    && |page| >= Min(Min(least, limit), |all| - from)
    && (next.None? ==> from + |page| == |all|)
    && (next.Some? ==> page != [] && next.value == from + |page|)
  }

  /** Serves one page: any run the contract permits. */
  method TakePage<T>(all: seq<T>, start: nat, limit: nat, least: nat) returns (page: seq<T>, next: Option<nat>)
    requires limit > 0 && least > 0
    ensures PageOf(all, start, limit, least, page, next)
  {
    var from := Min(start, |all|);
    var size: nat := Min(limit, |all| - from);
    if * {
      var cut: nat :| Min(Min(least, limit), |all| - from) <= cut <= size;
      size := cut;
    }
    page := all[from..from + size];
    next := None;
    if from + size < |all| {
      next := Some(from + size);
    } else if * {
      next := if size > 0 then Some(from + size) else None;
    }
  }

  /** The parts put together in order. */
  ghost function Joined<T>(parts: seq<seq<T>>): seq<T> {
    if parts == [] then [] else Joined(parts[..|parts| - 1]) + parts[|parts| - 1]
  }

  lemma {:induction false} JoinedCons<T>(first: seq<T>, rest: seq<seq<T>>)
    ensures Joined([first] + rest) == first + Joined(rest)
  {
    var parts := [first] + rest;
    if rest == [] {
      assert parts[..0] == [] && Joined(parts[..0]) == [];
    } else {
      assert parts[..|parts| - 1] == [first] + rest[..|rest| - 1];
      JoinedCons(first, rest[..|rest| - 1]);
    }
  }
}
