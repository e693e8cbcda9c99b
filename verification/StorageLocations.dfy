/** Dataset rows and the reference count kept for every storage location they live in. */
module StorageLocations {
  import opened Prelude

  datatype StoredDataSet = StoredDataSet(name: string, storageName: string)

  datatype MetadataError = DataSetExists | NothingDeleted

  datatype Rows = Rows(datasets: map<string, StoredDataSet>, counts: map<string, int>)

  ghost function StoredAt(datasets: map<string, StoredDataSet>, storageName: string): set<string> {
    set d | d in datasets && datasets[d].storageName == storageName
  }

  ghost predicate UniqueNames(datasets: map<string, StoredDataSet>) {
    forall d, e :: d in datasets && e in datasets && datasets[d].name == datasets[e].name ==> d == e
  }

  /** Each location's count is the number of datasets stored there, and it has a row exactly when there is one. */
  ghost predicate Counted(rows: Rows) {
    forall s :: CountedAt(rows, s)
  }

  ghost predicate CountedAt(rows: Rows, s: string) {
    var stored := StoredAt(rows.datasets, s);
    && (s in rows.counts <==> stored != {})
    && (s in rows.counts ==> rows.counts[s] == |stored|)
  }

  ghost predicate Inv(rows: Rows) {
    UniqueNames(rows.datasets) && Counted(rows)
  }

  predicate NameInUse(datasets: map<string, StoredDataSet>, name: string) {
    exists d :: d in datasets && datasets[d].name == name
  }

  /** The counters once `delta` is added to one of them: a row that falls below one is dropped. */
  function Recounted(counts: map<string, int>, storageName: string, delta: int): map<string, int> {
    var count := (if storageName in counts then counts[storageName] else 0) + delta;
    if count < 1 then counts - {storageName} else counts[storageName := count]
  }

  function CountOf(counts: map<string, int>, storageName: string): int {
    if storageName in counts then counts[storageName] else 0
  }

  /** One location's count has moved by `delta` and every other is what it was. */
  ghost predicate Moved(before: map<string, int>, after: map<string, int>, storageName: string, delta: int) {
    forall s :: CountOf(after, s) == CountOf(before, s) + if s == storageName then delta else 0
  }

  function Added(rows: Rows, id: string, dataset: StoredDataSet): Rows {
    if NameInUse(rows.datasets, dataset.name) then rows
    else Rows(rows.datasets[id := dataset], Recounted(rows.counts, dataset.storageName, 1))
  }

  function Updated(rows: Rows, id: string, dataset: StoredDataSet): Rows {
    rows.(datasets := rows.datasets[id := dataset])
  }

  function Removed(rows: Rows, id: string): Rows {
    if id !in rows.datasets then rows
    else Rows(rows.datasets - {id}, Recounted(rows.counts, rows.datasets[id].storageName, -1))
  }

  class MetadataTable {
    var datasets: map<string, StoredDataSet>
    var counts: map<string, int>

    function Contents(): Rows
      reads this
    {
      Rows(datasets, counts)
    }

    constructor ()
      ensures Contents() == Rows(map[], map[]) && Inv(Contents())
    {
      datasets, counts := map[], map[];
    }

    /** Adds a dataset under a freshly generated id; its name must not be in use. */
    method AddDataSet(id: string, dataset: StoredDataSet) returns (r: Result<string, MetadataError>)
      requires id !in datasets && Inv(Contents())
      modifies this
      ensures r == if exists d :: d in old(datasets) && old(datasets)[d].name == dataset.name
        then Failure(DataSetExists) else Success(id)
      ensures r.Success? ==> datasets == old(datasets)[id := dataset]
      ensures r.Success? ==> Moved(old(counts), counts, dataset.storageName, 1)
      ensures r.Failure? ==> datasets == old(datasets) && counts == old(counts)
      ensures Contents() == Added(old(Contents()), id, dataset) && Inv(Contents())
    {
      AddKeeps(Contents(), id, dataset);
      AddMoves(Contents(), id, dataset);
      if NameInUse(datasets, dataset.name) {
        return Failure(DataSetExists);
      }
      datasets := datasets[id := dataset];
      StoreLocation(dataset.storageName, 1);
      r := Success(id);
    }

    /** Removes a dataset. Deleting an absent row gives nothing back, and reading its location then fails. */
    method RemoveDataSet(id: string) returns (r: Result<StoredDataSet, MetadataError>)
      requires Inv(Contents())
      modifies this
      ensures r == if id in old(datasets) then Success(old(datasets)[id]) else Failure(NothingDeleted)
      ensures r.Success? ==> datasets == old(datasets) - {id}
      ensures r.Success? ==> Moved(old(counts), counts, r.value.storageName, -1)
      ensures r.Failure? ==> datasets == old(datasets) && counts == old(counts)
      ensures Contents() == Removed(old(Contents()), id) && Inv(Contents())
    {
      RemoveKeeps(Contents(), id);
      RemoveMoves(Contents(), id);
      if id !in datasets {
        return Failure(NothingDeleted);
      }
      var removed := datasets[id];
      datasets := datasets - {id};
      StoreLocation(removed.storageName, -1);
      r := Success(removed);
    }

    /** Writes a dataset's row as given, without looking at names or counters. */
    method UpdateDataSet(id: string, dataset: StoredDataSet)
      modifies this
      ensures datasets == old(datasets)[id := dataset] && counts == old(counts)
      ensures old(Counted(Contents())) ==>
        (Counted(Contents()) <==> id in old(datasets) && old(datasets)[id].storageName == dataset.storageName)
    {
      if Counted(Contents()) {
        UpdateKeepsCountsIff(Contents(), id, dataset);
      }
      datasets := datasets[id := dataset];
    }

    /** Moves a location's counter, creating it if needed, and then deletes the row if it fell below one. */
    method StoreLocation(storageName: string, delta: int)
      modifies this`counts
      ensures counts == Recounted(old(counts), storageName, delta)
    {
      counts := counts[storageName := (if storageName in counts then counts[storageName] else 0) + delta];
      if counts[storageName] < 1 {
        counts := counts - {storageName};
      }
    }
  }

  lemma AddMoves(rows: Rows, id: string, dataset: StoredDataSet)
    requires Inv(rows)
    ensures Moved(rows.counts, Recounted(rows.counts, dataset.storageName, 1), dataset.storageName, 1)
  {
    assert CountedAt(rows, dataset.storageName);
  }

  lemma RemoveMoves(rows: Rows, id: string)
    requires Inv(rows)
    ensures id in rows.datasets ==>
      var s := rows.datasets[id].storageName;
      Moved(rows.counts, Recounted(rows.counts, s, -1), s, -1)
  {
    if id in rows.datasets {
      var s := rows.datasets[id].storageName;
      assert CountedAt(rows, s) && id in StoredAt(rows.datasets, s);
    }
  }

  lemma AddKeeps(rows: Rows, id: string, dataset: StoredDataSet)
    requires Inv(rows) && id !in rows.datasets
    ensures Inv(Added(rows, id, dataset))
  {
    if !NameInUse(rows.datasets, dataset.name) {
      forall t
        ensures CountedAt(Added(rows, id, dataset), t)
      {
        CountAfterAdd(rows, id, dataset, t);
      }
    }
  }

  lemma CountAfterAdd(rows: Rows, id: string, dataset: StoredDataSet, t: string)
    requires CountedAt(rows, t) && id !in rows.datasets && !NameInUse(rows.datasets, dataset.name)
    ensures CountedAt(Added(rows, id, dataset), t)
  {
    var before, after := StoredAt(rows.datasets, t), StoredAt(rows.datasets[id := dataset], t);
    assert after == if t == dataset.storageName then before + {id} else before;
    assert id !in before;
    hide NameInUse, StoredAt;
    if t == dataset.storageName {
      assert |after| == |before| + 1;
      assert Recounted(rows.counts, t, 1) == rows.counts[t := |after|];
    } else {
      assert after == before;
    }
  }

  lemma RemoveKeeps(rows: Rows, id: string)
    requires Inv(rows)
    ensures Inv(Removed(rows, id))
  {
    if id in rows.datasets {
      forall t
        ensures CountedAt(Removed(rows, id), t)
      {
        assert CountedAt(rows, t);
        CountAfterRemove(rows, id, t);
      }
    }
  }

  lemma CountAfterRemove(rows: Rows, id: string, t: string)
    requires CountedAt(rows, t) && id in rows.datasets
    ensures CountedAt(Removed(rows, id), t)
  {
    var before, after := StoredAt(rows.datasets, t), StoredAt(rows.datasets - {id}, t);
    if t == rows.datasets[id].storageName {
      assert id in before;
      assert after == before - {id};
      assert |after| == |before| - 1;
      if |before| == 1 {
        assert after == {};
      }
    } else {
      assert after == before;
    }
  }

  datatype Op = Add(id: string, dataset: StoredDataSet) | Remove(id: string)

  ghost predicate Step(before: Rows, op: Op, after: Rows) {
    match op
    case Add(id, dataset) => id !in before.datasets && after == Added(before, id, dataset)
    case Remove(id) => after == Removed(before, id)
  }

  /** A run of the two operations from the empty table; ids of additions are fresh. */
  ghost predicate Run(trace: seq<Rows>, ops: seq<Op>) {
    && |trace| == |ops| + 1 && trace[0] == Rows(map[], map[])
    && forall i :: 0 <= i < |ops| ==> Step(trace[i], ops[i], trace[i + 1])
  }

  /** Every state of a run has exact counts, rows only where something is stored, and unique names. */
  lemma {:induction false} RunCounts(trace: seq<Rows>, ops: seq<Op>, n: nat)
    requires Run(trace, ops) && n < |trace|
    ensures Inv(trace[n])
  {
    if n == 0 {
    } else {
      RunCounts(trace, ops, n - 1);
      assert Step(trace[n - 1], ops[n - 1], trace[n]);
      match ops[n - 1]
      case Add(id, dataset) => AddKeeps(trace[n - 1], id, dataset);
      case Remove(id) => RemoveKeeps(trace[n - 1], id);
    }
  }

  /** The `i`-th of the first `n` operations adds the dataset, its name is free then, and nothing removes it since. */
  ghost predicate LastsFrom(trace: seq<Rows>, ops: seq<Op>, n: nat, i: nat, id: string, dataset: StoredDataSet)
    requires n <= |ops| < |trace|
  {
    && i < n && ops[i] == Add(id, dataset)
    && (forall d :: d in trace[i].datasets ==> trace[i].datasets[d].name != dataset.name)
    && forall j :: i < j < n ==> ops[j] != Remove(id)
  }

  /** What is held after a run is exactly what was added under a free name and not removed since. */
  lemma {:induction false} RunHolds(trace: seq<Rows>, ops: seq<Op>, n: nat, id: string, dataset: StoredDataSet)
    requires Run(trace, ops) && n <= |ops|
    ensures id in trace[n].datasets && trace[n].datasets[id] == dataset
       <==> exists i: nat :: LastsFrom(trace, ops, n, i, id, dataset)
    decreases n
  {
    if n == 0 {
    } else {
      var m := n - 1;
      RunHolds(trace, ops, m, id, dataset);
      assert Step(trace[m], ops[m], trace[n]);
      if ops[m] != Remove(id) {
        forall i: nat | LastsFrom(trace, ops, m, i, id, dataset)
          ensures LastsFrom(trace, ops, n, i, id, dataset)
        {}
      }
      if ops[m] == Add(id, dataset) && !NameInUse(trace[m].datasets, dataset.name) {
        assert LastsFrom(trace, ops, n, m, id, dataset);
      }
      forall i: nat | LastsFrom(trace, ops, n, i, id, dataset) && i < m
        ensures LastsFrom(trace, ops, m, i, id, dataset)
      {}
    }
  }

  /** Removing the dataset that was just added restores every row and every counter. */
  lemma RemoveUndoesAdd(rows: Rows, id: string, dataset: StoredDataSet)
    requires Inv(rows) && id !in rows.datasets && !NameInUse(rows.datasets, dataset.name)
    ensures Removed(Added(rows, id, dataset), id) == rows
  {
    var s, after := dataset.storageName, Added(rows, id, dataset);
    assert after.datasets - {id} == rows.datasets;
    assert CountedAt(rows, s);
    assert Recounted(after.counts, s, -1) == rows.counts;
  }

  /** Rewriting a dataset's row keeps the counters right exactly when the row exists and stays where it is. */
  lemma UpdateKeepsCountsIff(rows: Rows, id: string, dataset: StoredDataSet)
    requires Counted(rows)
    ensures Counted(Updated(rows, id, dataset))
      <==> id in rows.datasets && rows.datasets[id].storageName == dataset.storageName
  {
    var s, after := dataset.storageName, Updated(rows, id, dataset);
    assert CountedAt(rows, s);
    if id in rows.datasets && rows.datasets[id].storageName == s {
      forall t
        ensures CountedAt(after, t)
      {
        assert CountedAt(rows, t);
        assert StoredAt(after.datasets, t) == StoredAt(rows.datasets, t);
      }
    } else {
      assert id !in StoredAt(rows.datasets, s);
      assert StoredAt(after.datasets, s) == StoredAt(rows.datasets, s) + {id};
      assert !CountedAt(after, s);
    }
  }
}
