/** What sharing means for the dataset listing: a user is listed what the projects of the user's groups may see. */
module ListingShared {
  import opened Prelude
  import opened PermissionKeys
  import opened Authorization
  import opened AccessLevels
  import opened DatasetGrants
  import opened DatasetListing
  import OldestFirstIndex
  import DatasetSharing
  import opened SharingConditions

  /** One of the groups is a role of the project that owns the dataset, or of one it is shared with at any level. */
  ghost predicate OwnsOrShares(s: DatasetSharing.State, d: string, groups: seq<string>)
    requires d in s.datasets
  {
    exists p, kind :: RoleName(p, kind) in groups && MaySee(s, d, p)
  }

  /** In every state of every run a user may read exactly what the user's groups own or share. */
  lemma MayReadIffShared(trace: seq<DatasetSharing.State>, ops: seq<DatasetSharing.Op>, i: nat, d: string,
                         reader: Reader)
    requires DatasetSharing.Run(trace, ops) && i < |trace| && d in trace[i].datasets
    requires forall k :: k in trace[0].perms && k.subjectType == "Dataset" ==> k.subjectId != WILDCARD
    requires AdmitsUnconditional(reader.matches)
    ensures MayRead(trace[i].perms, reader, d) <==> OwnsOrShares(trace[i], d, reader.groups)
  {
    DatasetSharing.AuthorizedIffShared(trace, ops, i, d, reader.userId, reader.groups, ReadOnly, reader.matches);
    hide DatasetSharing.Run, Grants, Identities, RoleName, RoleParts;
    if g :| g in reader.groups && DatasetSharing.Entitled(trace[i], d, g, ReadOnly) {
      var p, kind := RoleParts(g).value.0, RoleParts(g).value.1;
      RoleNameIsRead(g, p, kind);
      assert RoleName(p, kind) in reader.groups;
    }
    if p, kind :| RoleName(p, kind) in reader.groups && MaySee(trace[i], d, p) {
      RoleNameIsRead(RoleName(p, kind), p, kind);
      assert DatasetSharing.Entitled(trace[i], d, RoleName(p, kind), ReadOnly);
    }
  }

  /** Over a newest-first index a walk lists exactly what the user's groups own or share, once each. */
  lemma ListsWhatIsShared(trace: seq<DatasetSharing.State>, ops: seq<DatasetSharing.Op>, i: nat,
                          all: seq<ListedDataSet>, reader: Reader, keep: ListedDataSet -> bool, pageSize: nat,
                          turns: seq<Turn>)
    requires DatasetSharing.Run(trace, ops) && i < |trace| && forall d :: d in all ==> d.id in trace[i].datasets
    requires forall k :: k in trace[0].perms && k.subjectType == "Dataset" ==> k.subjectId != WILDCARD
    requires AdmitsUnconditional(reader.matches)
    requires pageSize > 0 && DistinctIds(all) && NewestFirst(all)
    requires forall d :: keep(d) <==> MayRead(trace[i].perms, reader, d.id)
    requires TurnWalk(all, keep, pageSize, 0, turns)
    ensures Distinct(Listed(RepliesOf(turns)))
    ensures forall d :: d in Listed(RepliesOf(turns)) <==> d in all && OwnsOrShares(trace[i], d.id, reader.groups)
  {
    ListsWhatIsAuthorized(all, trace[i].perms, reader, keep, pageSize, turns);
    forall d | d in all
      ensures MayRead(trace[i].perms, reader, d.id) <==> OwnsOrShares(trace[i], d.id, reader.groups)
    {
      MayReadIffShared(trace, ops, i, d.id, reader);
    }
    hide Grants, OwnsOrShares, Listed, RepliesOf, TurnWalk, DatasetSharing.Run;
  }

  /** The walk lists exactly what the groups own or share, each once. */
  ghost predicate ListsShared(all: seq<ListedDataSet>, s: DatasetSharing.State, groups: seq<string>, turns: seq<Turn>)
    requires forall d :: d in all ==> d.id in s.datasets
  {
    var listed := Listed(RepliesOf(turns));
    Distinct(listed) && forall d :: d in listed <==> d in all && OwnsOrShares(s, d.id, groups)
  }

  /** Over an oldest-first index every walk does, exactly if no end of a page splits two of those datasets. */
  lemma ListsWhatIsSharedIff(trace: seq<DatasetSharing.State>, ops: seq<DatasetSharing.Op>, i: nat,
                             all: seq<ListedDataSet>, reader: Reader, keep: ListedDataSet -> bool, pageSize: nat)
    requires DatasetSharing.Run(trace, ops) && i < |trace| && forall d :: d in all ==> d.id in trace[i].datasets
    requires forall k :: k in trace[0].perms && k.subjectType == "Dataset" ==> k.subjectId != WILDCARD
    requires AdmitsUnconditional(reader.matches)
    requires pageSize > 0 && DistinctIds(all) && OldestFirst(all)
    requires forall d :: keep(d) <==> MayRead(trace[i].perms, reader, d.id)
    ensures
      (forall turns :: TurnWalk(all, keep, pageSize, 0, turns) ==> ListsShared(all, trace[i], reader.groups, turns))
      <==> !OldestFirstIndex.SomeSplit(all, keep, pageSize)
  {
    OldestFirstIndex.ListsWhatIsAuthorizedIff(all, trace[i].perms, reader, keep, pageSize);
    forall d | d in all
      ensures MayRead(trace[i].perms, reader, d.id) <==> OwnsOrShares(trace[i], d.id, reader.groups)
    {
      MayReadIffShared(trace, ops, i, d.id, reader);
    }
    hide MayRead, OwnsOrShares, Listed, RepliesOf, TurnWalk, DatasetSharing.Run, Distinct, OldestFirstIndex.SomeSplit;
    forall turns
      ensures ListsShared(all, trace[i], reader.groups, turns)
         <==> OldestFirstIndex.ListsReadable(all, trace[i].perms, reader, turns)
    {}
  }
}
