/**
 * Sharing datasets between projects. Each operation is several writes over four subject types and an association
 * table; the invariant ties them together in every state the operations can reach.
 */
module DatasetSharing {
  import opened Prelude
  import opened PermissionKeys
  import opened PermissionStore
  import opened Authorization
  import opened AccessLevels
  import opened DatasetReading
  import opened DatasetGrants

  // ----- States -----

  datatype DataSet = DataSet(name: string, owner: string, externalEndpoints: seq<string>)

  /**
   * What the operations read and write. `granted` records the datasets whose owner's permissions were created:
   * provisioning stores the dataset first, so a failed permission write leaves one without.
   */
  datatype State = State(
    perms: Perms,
    datasets: map<string, DataSet>,
    granted: set<string>,
    assoc: map<(string, string), Level>)

  predicate OwnerHas(kind: Kind, subjectType: string, action: Action) {
    || (subjectType == DATASET_SUBJECT && action in {READ, UPDATE})
    || (subjectType == SWB_DATASET && (action == READ || (kind == Admin && action in {UPDATE, DELETE})))
    || (subjectType == SWB_DATASET_ACCESS_LEVEL && kind == Admin && action in {READ, UPDATE, DELETE})
    || (subjectType == SWB_DATASET_UPLOAD && action == READ)
  }

  predicate ShareHas(level: Level, subjectType: string, action: Action) {
    || (subjectType == DATASET_SUBJECT && (action == READ || (action == UPDATE && level == ReadWrite)))
    || (subjectType == SWB_DATASET && action == READ)
    || (subjectType == SWB_DATASET_UPLOAD && action == READ && level == ReadWrite)
  }

  /** What a role of a project is due on a dataset. */
  ghost predicate RoleDue(s: State, d: string, project: string, kind: Kind, subjectType: string, action: Action)
    requires d in s.datasets
  {
    if s.datasets[d].owner == RoleName(project, Admin) then d in s.granted && OwnerHas(kind, subjectType, action)
    else (d, project) in s.assoc && ShareHas(s.assoc[(d, project)], subjectType, action)
  }

  ghost predicate Due(s: State, k: PermKey)
    requires k.subjectId in s.datasets
  {
    && k.effect == ALLOW && k.identity.kind == GROUP
    && RoleParts(k.identity.id).Some?
    && RoleDue(s, k.subjectId, RoleParts(k.identity.id).value.0, RoleParts(k.identity.id).value.1, k.subjectType,
        k.action)
  }

  /** A dataset is owned by the admin role of a project with a plain id. */
  ghost predicate Owned(d: string, dataset: DataSet) {
    && PlainId(d) && d != WILDCARD
    && RoleParts(dataset.owner).Some?
    && RoleParts(dataset.owner).value.1 == Admin
    && PlainId(RoleParts(dataset.owner).value.0)
  }

  /** Every permission on a known dataset is due, and everything due is held. */
  ghost predicate Inv(s: State) {
    && (forall d :: d in s.datasets ==> Owned(d, s.datasets[d]))
    && (forall d, p :: (d, p) in s.assoc ==> d in s.datasets && s.datasets[d].owner != RoleName(p, Admin) && PlainId(p))
    && (forall k: PermKey :: k.subjectId in s.datasets ==> (k in s.perms <==> Due(s, k)))
    && s.granted <= s.datasets.Keys
  }

  function Roles(project: string): seq<string> {
    [RoleName(project, Admin), RoleName(project, Researcher)]
  }

  function ProjectCondition(project: string): Payload {
    Payload(Some("{\"projectId\":{\"$eq\":\"" + project + "\"}}"), None, None)
  }

  function Unconditional(): Payload {
    Payload(None, None, None)
  }

  ghost function SwbRead(d: string, p: string): Perms {
    Grant(SWB_DATASET, d, Roles(p), [READ], ProjectCondition(p))
  }

  ghost function Upload(d: string, p: string): Perms {
    Grant(SWB_DATASET_UPLOAD, d, Roles(p), [READ], ProjectCondition(p))
  }

  function LevelActions(level: Level): seq<Action> {
    if level == ReadWrite then [READ, UPDATE] else [READ]
  }

  ghost function DataAccess(d: string, p: string, level: Level): Perms {
    Grant(DATASET_SUBJECT, d, Roles(p), LevelActions(level), Describe(level, d))
  }

  /** Everything one share creates. */
  ghost function ShareGrant(d: string, p: string, level: Level): Perms {
    SwbRead(d, p) + DataAccess(d, p, level) + if level == ReadWrite then Upload(d, p) else map[]
  }

  ghost function Shared(s: State, d: string, p: string, level: Level): State {
    s.(perms := s.perms + ShareGrant(d, p, level), assoc := s.assoc[(d, p) := level])
  }

  /** Unsharing always asks for the read-write permissions to go. */
  ghost function Unshared(s: State, d: string, p: string): State {
    s.(perms := s.perms - ShareGrant(d, p, ReadWrite).Keys, assoc := s.assoc - {(d, p)})
  }

  /** Everything provisioning creates for the owner. */
  ghost function OwnerGrant(d: string, p: string): Perms {
    DataAccess(d, p, ReadWrite)
    + Grant(SWB_DATASET, d, [RoleName(p, Admin)], [READ, UPDATE, DELETE], ProjectCondition(p))
    + Grant(SWB_DATASET, d, [RoleName(p, Researcher)], [READ], ProjectCondition(p))
    + Grant(SWB_DATASET_ACCESS_LEVEL, d, [RoleName(p, Admin)], [READ, UPDATE, DELETE], Unconditional())
    + Upload(d, p)
  }

  ghost function Stored(s: State, d: string, dataset: DataSet): State {
    s.(datasets := s.datasets[d := dataset])
  }

  ghost function Provisioned(s: State, d: string, p: string, dataset: DataSet): State {
    s.(perms := s.perms + OwnerGrant(d, p), datasets := s.datasets[d := dataset], granted := s.granted + {d})
  }

  ghost function Removed(s: State, d: string, p: string): State {
    s.(perms := Without(s.perms, DATASET_SUBJECT, d) - OwnerGrant(d, p).Keys,
       datasets := s.datasets - {d}, granted := s.granted - {d})
  }

  /** No permission and no association mentions this id; a freshly generated id is like that. */
  ghost predicate Unmentioned(s: State, d: string) {
    && d !in s.datasets && d !in s.granted
    && (forall k :: k in s.perms ==> k.subjectId != d)
    && (forall p :: (d, p) !in s.assoc)
  }

  lemma InRoles(role: string, p: string)
    ensures role in Roles(p) <==> RoleParts(role).Some? && RoleParts(role).value.0 == p
    ensures forall kind :: role == RoleName(p, kind) <==> RoleParts(role) == Some((p, kind))
  {
    RoleNameIsRead(role, p, Admin);
    RoleNameIsRead(role, p, Researcher);
    forall kind
      ensures role == RoleName(p, kind) <==> RoleParts(role) == Some((p, kind))
    {
      RoleNameIsRead(role, p, kind);
    }
  }

  lemma SameRole(p: string, q: string)
    ensures RoleName(p, Admin) == RoleName(q, Admin) <==> p == q
  {
    RoleNameIsRead(RoleName(p, Admin), p, Admin);
    RoleNameIsRead(RoleName(p, Admin), q, Admin);
  }

  ghost predicate SharersKey(k: PermKey, d: string, p: string, level: Level) {
    && k.subjectId == d && k.effect == ALLOW && k.identity.kind == GROUP
    && RoleParts(k.identity.id).Some? && RoleParts(k.identity.id).value.0 == p
    && ShareHas(level, k.subjectType, k.action)
  }

  lemma ShareGrantKeys(d: string, p: string, level: Level)
    ensures forall k :: k in ShareGrant(d, p, level) <==> SharersKey(k, d, p, level)
  {
    forall k: PermKey {
      ShareGrantKey(k, d, p, level);
    }
  }

  lemma ShareGrantKey(k: PermKey, d: string, p: string, level: Level)
    ensures k in ShareGrant(d, p, level) <==> SharersKey(k, d, p, level)
  {
    GrantKeys(SWB_DATASET, d, Roles(p), [READ], ProjectCondition(p));
    GrantKeys(SWB_DATASET_UPLOAD, d, Roles(p), [READ], ProjectCondition(p));
    GrantKeys(DATASET_SUBJECT, d, Roles(p), LevelActions(level), Describe(level, d));
    InRoles(k.identity.id, p);
    hide Grant, Roles, RoleName, RoleParts;
  }

  ghost predicate OwnersKey(k: PermKey, d: string, p: string) {
    && k.subjectId == d && k.effect == ALLOW && k.identity.kind == GROUP
    && RoleParts(k.identity.id).Some? && RoleParts(k.identity.id).value.0 == p
    && OwnerHas(RoleParts(k.identity.id).value.1, k.subjectType, k.action)
  }

  lemma OwnerGrantKey(k: PermKey, d: string, p: string)
    ensures k in OwnerGrant(d, p) <==> OwnersKey(k, d, p)
  {
    GrantKeys(DATASET_SUBJECT, d, Roles(p), [READ, UPDATE], Describe(ReadWrite, d));
    GrantKeys(SWB_DATASET, d, [RoleName(p, Admin)], [READ, UPDATE, DELETE], ProjectCondition(p));
    GrantKeys(SWB_DATASET, d, [RoleName(p, Researcher)], [READ], ProjectCondition(p));
    GrantKeys(SWB_DATASET_ACCESS_LEVEL, d, [RoleName(p, Admin)], [READ, UPDATE, DELETE], Unconditional());
    GrantKeys(SWB_DATASET_UPLOAD, d, Roles(p), [READ], ProjectCondition(p));
    OwnersKeyCases(k, d, p);
    hide InGrant, Grant, Roles, RoleName, OwnersKey;
  }

  lemma OwnersKeyCases(k: PermKey, d: string, p: string)
    ensures OwnersKey(k, d, p) <==>
      || InGrant(k, DATASET_SUBJECT, d, Roles(p), [READ, UPDATE])
      || InGrant(k, SWB_DATASET, d, [RoleName(p, Admin)], [READ, UPDATE, DELETE])
      || InGrant(k, SWB_DATASET, d, [RoleName(p, Researcher)], [READ])
      || InGrant(k, SWB_DATASET_ACCESS_LEVEL, d, [RoleName(p, Admin)], [READ, UPDATE, DELETE])
      || InGrant(k, SWB_DATASET_UPLOAD, d, Roles(p), [READ])
  {
    InRoles(k.identity.id, p);
    hide RoleParts, RoleName, Roles;
    if RoleParts(k.identity.id).Some? && RoleParts(k.identity.id).value.0 == p {
      var kind := RoleParts(k.identity.id).value.1;
      assert kind.Admin? || kind.Researcher?;
      assert k.identity.id == RoleName(p, kind);
    }
  }

  lemma OwnerGrantKeys(d: string, p: string)
    ensures forall k :: k in OwnerGrant(d, p) <==> OwnersKey(k, d, p)
  {
    forall k {
      OwnerGrantKey(k, d, p);
    }
  }

  // ----- Every operation keeps the invariant -----

  /** Sharing with an unassociated project finds none of its keys taken, and keeps the invariant. */
  lemma ShareKeeps(s: State, d: string, p: string, level: Level)
    requires Inv(s) && d in s.datasets && s.datasets[d].owner != RoleName(p, Admin) && PlainId(p)
    requires (d, p) !in s.assoc
    ensures ShareGrant(d, p, level).Keys !! s.perms.Keys
    ensures Inv(Shared(s, d, p, level))
  {
    var s' := Shared(s, d, p, level);
    forall k: PermKey | k.subjectId in s.datasets
      ensures k in s'.perms <==> Due(s', k)
    {
      ShareKeepsKey(s, d, p, level, k);
    }
    forall k | k in ShareGrant(d, p, level)
      ensures k !in s.perms
    {
      ShareGrantKeys(d, p, level);
      assert k in s.perms <==> Due(s, k);
    }
  }

  lemma ShareKeepsKey(s: State, d: string, p: string, level: Level, k: PermKey)
    requires Inv(s) && d in s.datasets && s.datasets[d].owner != RoleName(p, Admin)
    requires (d, p) !in s.assoc && k.subjectId in s.datasets
    ensures k in Shared(s, d, p, level).perms <==> Due(Shared(s, d, p, level), k)
  {
    ShareGrantKeys(d, p, level);
    hide RoleParts, RoleName, ShareGrant, ShareHas, OwnerHas;
    assert k in s.perms <==> Due(s, k);
    assert k in ShareGrant(d, p, level) <==> SharersKey(k, d, p, level);
  }

  lemma UnshareKeeps(s: State, d: string, p: string)
    requires Inv(s) && d in s.datasets && s.datasets[d].owner != RoleName(p, Admin)
    ensures Inv(Unshared(s, d, p))
  {
    ShareGrantKeys(d, p, ReadWrite);
    hide ShareGrant, RoleName, RoleParts, OwnerHas;
    var s' := Unshared(s, d, p);
    forall k: PermKey | k.subjectId in s.datasets
      ensures k in s'.perms <==> Due(s', k)
    {
      assert k in s.perms <==> Due(s, k);
    }
  }

  lemma ProvisionKeeps(s: State, d: string, p: string, dataset: DataSet)
    requires Inv(s) && Unmentioned(s, d) && PlainId(d) && d != WILDCARD && PlainId(p)
    requires dataset.owner == RoleName(p, Admin)
    ensures OwnerGrant(d, p).Keys !! s.perms.Keys
    ensures Inv(Stored(s, d, dataset))
    ensures Inv(Provisioned(s, d, p, dataset))
  {
    OwnerGrantKeys(d, p);
    RoleNameIsRead(dataset.owner, p, Admin);
    hide OwnerGrant, RoleName, RoleParts, OwnerHas, ShareHas;
    forall k: PermKey | k.subjectId in s.datasets || k.subjectId == d
      ensures k in Provisioned(s, d, p, dataset).perms <==> Due(Provisioned(s, d, p, dataset), k)
      ensures k in s.perms <==> Due(Stored(s, d, dataset), k)
    {
      assert k.subjectId != d ==> (k in s.perms <==> Due(s, k));
      if RoleParts(k.identity.id).Some? {
        SameRole(RoleParts(k.identity.id).value.0, p);
      }
    }
  }

  /** Removing an unshared dataset leaves no trace of it and keeps the invariant. */
  lemma RemoveKeeps(s: State, d: string, p: string)
    requires Inv(s) && d in s.datasets && s.datasets[d].owner == RoleName(p, Admin)
    requires forall q :: (d, q) !in s.assoc
    ensures Inv(Removed(s, d, p)) && Unmentioned(Removed(s, d, p), d)
    ensures forall k :: k in s.perms && k.subjectId != d ==>
        k in Removed(s, d, p).perms && Removed(s, d, p).perms[k] == s.perms[k]
  {
    OwnerGrantKeys(d, p);
    hide OwnerGrant, RoleName, RoleParts, OwnerHas, ShareHas;
    var s' := Removed(s, d, p);
    forall k | k in s.perms && k.subjectId == d
      ensures k !in s'.perms
    {
      assert Due(s, k);
      SameRole(RoleParts(k.identity.id).value.0, p);
    }
    forall k: PermKey | k.subjectId in s'.datasets
      ensures k in s'.perms <==> Due(s', k)
    {
      assert k in s.perms <==> Due(s, k);
    }
  }

  // ----- The first page of a dataset's permissions shows every foreign project -----

  /** The owner project's four entries under SWB_DATASET. */
  ghost function OwnersFour(d: string, p: string): set<PermKey> {
    {Key(SWB_DATASET, d, READ, RoleName(p, Admin)), Key(SWB_DATASET, d, UPDATE, RoleName(p, Admin)),
     Key(SWB_DATASET, d, DELETE, RoleName(p, Admin)), Key(SWB_DATASET, d, READ, RoleName(p, Researcher))}
  }

  function OwnerProject(dataset: DataSet): string {
    ProjectOf(dataset.owner)
  }

  /** The entry belongs to a group of a project other than the owner's. */
  predicate Foreign(dataset: DataSet, k: PermKey) {
    k.identity.kind == GROUP && ProjectOf(k.identity.id) != OwnerProject(dataset)
  }

  lemma OwnerRole(d: string, dataset: DataSet)
    requires Owned(d, dataset)
    ensures PlainId(OwnerProject(dataset)) && dataset.owner == RoleName(OwnerProject(dataset), Admin)
  {
    var p := RoleParts(dataset.owner).value.0;
    RoleNameIsRead(dataset.owner, p, Admin);
    ProjectOfRole(p, Admin);
  }

  /** A held entry under SWB_DATASET is one of the owner's four or stands for an association. */
  lemma HeldUnderSwbDataset(s: State, k: PermKey)
    requires Inv(s) && k in s.perms && k.subjectId in s.datasets && k.subjectType == SWB_DATASET
    ensures
      var dataset := s.datasets[k.subjectId];
      if Foreign(dataset, k) then (k.subjectId, ProjectOf(k.identity.id)) in s.assoc
      else k in OwnersFour(k.subjectId, OwnerProject(dataset))
  {
    var d, role := k.subjectId, k.identity.id;
    var dataset := s.datasets[d];
    OwnerRole(d, dataset);
    assert Due(s, k);
    var p, kind := RoleParts(role).value.0, RoleParts(role).value.1;
    RoleNameIsRead(role, p, kind);
    SameRole(p, OwnerProject(dataset));
    ProjectOfRole(OwnerProject(dataset), kind);
    hide RoleParts, RoleName;
    if dataset.owner == RoleName(p, Admin) {
      assert kind.Admin? || kind.Researcher?;
      assert k == Key(SWB_DATASET, d, k.action, RoleName(p, kind));
    } else {
      ProjectOfRole(p, kind);
    }
  }

  lemma FewOwnerEntries(items: seq<Permission>, four: set<PermKey>)
    requires DistinctKeys(items) && forall p :: p in items ==> p.key in four
    ensures |items| <= |four|
    decreases items
  {
    if items == [] {
    } else {
      var front, last := items[..|items| - 1], items[|items| - 1];
      assert items == front + [last];
      forall p | p in front
        ensures p.key in four - {last.key}
      {
        var i :| 0 <= i < |front| && front[i] == p;
        assert items[i].key != items[|items| - 1].key;
      }
      FewOwnerEntries(front, four - {last.key});
    }
  }

  ghost function SwbRows(rows: seq<Row>, d: string): seq<Row> {
    Filter(InSubject(PartitionKey(SWB_DATASET, d), Prefix(None)), rows)
  }

  lemma SwbPrefix(rows: seq<Row>, perms: Perms, d: string, page: seq<Row>)
    requires Represents(rows, perms) && page <= SwbRows(rows, d)
    ensures |DecodeAll(page)| == |page| && DecodeAll(page) <= DecodeAll(SwbRows(rows, d))
    ensures DistinctKeys(DecodeAll(page))
    ensures forall p :: p in DecodeAll(page) ==> Holds(perms, p) && OnSubject(p.key, SWB_DATASET, d, None)
    ensures page == SwbRows(rows, d) ==>
      forall p :: Holds(perms, p) && OnSubject(p.key, SWB_DATASET, d, None) ==> p in DecodeAll(page)
  {
    SubjectListing(rows, perms, SWB_DATASET, d, None);
    FilterMembers(InSubject(PartitionKey(SWB_DATASET, d), Prefix(None)), rows);
    DecodedPrefix(rows, perms, page, SwbRows(rows, d));
    var some, all := DecodeAll(page), DecodeAll(SwbRows(rows, d));
    hide DecodeAll, SwbRows, Represents, OnSubject;
    PrefixMembers(some, all);
    DistinctHeld(perms, some);
  }

  lemma PrefixMembers(some: seq<Permission>, all: seq<Permission>)
    requires some <= all && Distinct(all)
    ensures Distinct(some) && forall p :: p in some ==> p in all
  {
    assert forall i :: 0 <= i < |some| ==> some[i] == all[i];
  }

  /**
   * The removal check reads one page only. Whatever the order of the entries, a page of at least five shows a
   * foreign project whenever there is one: the owner accounts for at most four entries.
   */
  lemma FirstPageShowsForeignProjects(s: State, rows: seq<Row>, d: string, page: seq<Row>)
    requires Inv(s) && d in s.datasets && Represents(rows, s.perms)
    requires page <= SwbRows(rows, d) && |page| >= Min(5, |SwbRows(rows, d)|)
    ensures (exists p :: p in DecodeAll(page) && Foreign(s.datasets[d], p.key)) <==> exists q :: (d, q) in s.assoc
  {
    var items, four := DecodeAll(page), OwnersFour(d, OwnerProject(s.datasets[d]));
    SwbPrefix(rows, s.perms, d, page);
    hide DecodeAll, Foreign, OwnersFour, Represents;
    forall p | p in items
      ensures if Foreign(s.datasets[d], p.key) then (d, ProjectOf(p.key.identity.id)) in s.assoc else p.key in four
    {
      HeldUnderSwbDataset(s, p.key);
    }
    if q :| (d, q) in s.assoc {
      AssociationHeld(s, d, q);
      var k := Key(SWB_DATASET, d, READ, RoleName(q, Admin));
      assert Holds(s.perms, Permission(k, s.perms[k]));
      if forall p :: p in items ==> !Foreign(s.datasets[d], p.key) {
        FewOwnerEntries(items, four);
        OwnersFourSize(d, OwnerProject(s.datasets[d]));
        assert false;
      }
    }
  }

  lemma OwnersFourSize(d: string, p: string)
    ensures |OwnersFour(d, p)| <= 4
  {}

  /** An association comes with an entry that the removal check recognizes as foreign. */
  lemma AssociationHeld(s: State, d: string, q: string)
    requires Inv(s) && (d, q) in s.assoc
    ensures d in s.datasets
    ensures Key(SWB_DATASET, d, READ, RoleName(q, Admin)) in s.perms
    ensures Foreign(s.datasets[d], Key(SWB_DATASET, d, READ, RoleName(q, Admin)))
  {
    var k := Key(SWB_DATASET, d, READ, RoleName(q, Admin));
    RoleNameIsRead(k.identity.id, q, Admin);
    ProjectOfRole(q, Admin);
    OwnerRole(d, s.datasets[d]);
    assert Due(s, k);
  }

  // ----- Undoing -----

  lemma PutMinus<K, V>(m: map<K, V>, k: K, v: V)
    requires k !in m
    ensures m[k := v] - {k} == m
  {}

  lemma PlusMinus(m: Perms, added: Perms, removed: set<PermKey>)
    requires added.Keys <= removed && removed !! m.Keys
    ensures m + added - removed == m
  {}

  lemma PlusWithout(m: Perms, added: Perms, d: string)
    requires added.Keys !! m.Keys && forall k :: k in m ==> k.subjectId != d
    ensures Without(m + added, DATASET_SUBJECT, d) - added.Keys == m
  {}

  /** A read-write share grants everything a read-only one does. */
  lemma ReadWriteGrantsMore(d: string, p: string, level: Level)
    ensures ShareGrant(d, p, level).Keys <= ShareGrant(d, p, ReadWrite).Keys
  {
    ShareGrantKeys(d, p, level);
    ShareGrantKeys(d, p, ReadWrite);
    hide ShareGrant, RoleParts;
    forall k | k in ShareGrant(d, p, level)
      ensures k in ShareGrant(d, p, ReadWrite)
    {
      assert SharersKey(k, d, p, level) ==> SharersKey(k, d, p, ReadWrite);
    }
  }

  /** Unsharing right after sharing, at either level, restores permissions and associations exactly. */
  lemma UnshareUndoesShare(s: State, d: string, p: string, level: Level)
    requires Inv(s) && d in s.datasets && s.datasets[d].owner != RoleName(p, Admin) && PlainId(p)
    requires (d, p) !in s.assoc
    ensures Unshared(Shared(s, d, p, level), d, p) == s
  {
    ShareKeeps(s, d, p, ReadWrite);
    ReadWriteGrantsMore(d, p, level);
    PlusMinus(s.perms, ShareGrant(d, p, level), ShareGrant(d, p, ReadWrite).Keys);
    PutMinus(s.assoc, (d, p), level);
    hide ShareGrant, Inv, RoleName, PlainId;
  }

  /** Removing a dataset right after provisioning it restores the whole state. */
  lemma RemoveUndoesProvision(s: State, d: string, p: string, dataset: DataSet)
    requires Inv(s) && Unmentioned(s, d) && PlainId(d) && d != WILDCARD && PlainId(p)
    requires dataset.owner == RoleName(p, Admin)
    ensures Removed(Provisioned(s, d, p, dataset), d, p) == s
  {
    ProvisionKeeps(s, d, p, dataset);
    PlusWithout(s.perms, OwnerGrant(d, p), d);
    PutMinus(s.datasets, d, dataset);
    assert s.granted + {d} - {d} == s.granted;
    hide OwnerGrant, Inv, RoleName, PlainId, Without, Unmentioned;
  }

  // ----- The grants an operation is made of -----

  lemma SharePieces(d: string, p: string, level: Level)
    ensures SwbRead(d, p).Keys !! DataAccess(d, p, level).Keys
    ensures SwbRead(d, p).Keys !! Upload(d, p).Keys
    ensures DataAccess(d, p, level).Keys !! Upload(d, p).Keys
  {
    SubjectTypesDiffer();
    GrantsDisjoint(SWB_DATASET, DATASET_SUBJECT, d, Roles(p), Roles(p), [READ], LevelActions(level),
        ProjectCondition(p), Describe(level, d));
    GrantsDisjoint(SWB_DATASET, SWB_DATASET_UPLOAD, d, Roles(p), Roles(p), [READ], [READ], ProjectCondition(p),
        ProjectCondition(p));
    GrantsDisjoint(DATASET_SUBJECT, SWB_DATASET_UPLOAD, d, Roles(p), Roles(p), LevelActions(level), [READ],
        Describe(level, d), ProjectCondition(p));
  }

  ghost function OwnerAdmin(d: string, p: string): Perms {
    Grant(SWB_DATASET, d, [RoleName(p, Admin)], [READ, UPDATE, DELETE], ProjectCondition(p))
  }

  ghost function OwnerResearcher(d: string, p: string): Perms {
    Grant(SWB_DATASET, d, [RoleName(p, Researcher)], [READ], ProjectCondition(p))
  }

  ghost function OwnerLevels(d: string, p: string): Perms {
    Grant(SWB_DATASET_ACCESS_LEVEL, d, [RoleName(p, Admin)], [READ, UPDATE, DELETE], Unconditional())
  }

  lemma OwnerPieces(d: string, p: string)
    ensures OwnerGrant(d, p)
        == DataAccess(d, p, ReadWrite) + OwnerAdmin(d, p) + OwnerResearcher(d, p) + OwnerLevels(d, p) + Upload(d, p)
    ensures OwnerAdmin(d, p).Keys !! DataAccess(d, p, ReadWrite).Keys
    ensures OwnerResearcher(d, p).Keys !! (DataAccess(d, p, ReadWrite) + OwnerAdmin(d, p)).Keys
    ensures OwnerLevels(d, p).Keys !! (DataAccess(d, p, ReadWrite) + OwnerAdmin(d, p) + OwnerResearcher(d, p)).Keys
    ensures Upload(d, p).Keys !! (DataAccess(d, p, ReadWrite) + OwnerAdmin(d, p) + OwnerResearcher(d, p)
        + OwnerLevels(d, p)).Keys
  {
    SubjectTypesDiffer();
    RolesDiffer(p);
    var a, r, three := [RoleName(p, Admin)], [RoleName(p, Researcher)], [READ, UPDATE, DELETE];
    var c, w := ProjectCondition(p), Describe(ReadWrite, d);
    GrantsDisjoint(SWB_DATASET, DATASET_SUBJECT, d, a, Roles(p), three, [READ, UPDATE], c, w);
    GrantsDisjoint(SWB_DATASET, DATASET_SUBJECT, d, r, Roles(p), [READ], [READ, UPDATE], c, w);
    GrantsDisjoint(SWB_DATASET, SWB_DATASET, d, r, a, [READ], three, c, c);
    GrantsDisjoint(SWB_DATASET_ACCESS_LEVEL, DATASET_SUBJECT, d, a, Roles(p), three, [READ, UPDATE], Unconditional(),
        w);
    GrantsDisjoint(SWB_DATASET_ACCESS_LEVEL, SWB_DATASET, d, a, a, three, three, Unconditional(), c);
    GrantsDisjoint(SWB_DATASET_ACCESS_LEVEL, SWB_DATASET, d, a, r, three, [READ], Unconditional(), c);
    GrantsDisjoint(SWB_DATASET_UPLOAD, DATASET_SUBJECT, d, Roles(p), Roles(p), [READ], [READ, UPDATE], c, w);
    GrantsDisjoint(SWB_DATASET_UPLOAD, SWB_DATASET, d, Roles(p), a, [READ], three, c, c);
    GrantsDisjoint(SWB_DATASET_UPLOAD, SWB_DATASET, d, Roles(p), r, [READ], [READ], c, c);
    GrantsDisjoint(SWB_DATASET_UPLOAD, SWB_DATASET_ACCESS_LEVEL, d, Roles(p), a, [READ], three, c, Unconditional());
    hide Grant, RoleName, ProjectCondition, Unconditional, Describe;
  }

  // ----- What each operation answers -----

  datatype Outcome =
    | Done
    | InvalidArgument    // the project id has no project prefix
    | StorageRejected    // storage name or account is not the main one, or the storage refused
    | DataSetExists
    | DataSetNotFound
    | StillReading       // the permission listing has not come to its end in the turns it was watched for
    | AlreadyOwner
    | AlreadyAssociated
    | StillMounted
    | StillAssociated
    | HasEndpoints
    | GroupsNotActive

  datatype Lookup = Missing | Unfinished | Unreadable | Found(dataset: DataSet, permissions: seq<Access>)

  const PROJECT_PREFIX: string := "proj"

  ghost function ShareVerdict(s: State, p: string, d: string, active: set<string>): Outcome {
    if !(PROJECT_PREFIX <= p) then InvalidArgument
    else if d !in s.datasets then DataSetNotFound
    else if s.datasets[d].owner == RoleName(p, Admin) then AlreadyOwner
    else if (d, p) in s.assoc then AlreadyAssociated
    else if exists r :: r in Roles(p) && r !in active then GroupsNotActive
    else Done
  }

  ghost function UnshareVerdict(s: State, p: string, d: string, mounted: bool): Outcome {
    if d !in s.datasets then DataSetNotFound
    else if !(PROJECT_PREFIX <= p) then InvalidArgument
    else if s.datasets[d].owner == RoleName(p, Admin) then AlreadyOwner
    else if mounted then StillMounted
    else Done
  }

  ghost predicate NameTaken(s: State, name: string) {
    exists d :: d in s.datasets && s.datasets[d].name == name
  }

  ghost function ProvisionVerdict(s: State, p: string, name: string, storageOk: bool, active: set<string>): Outcome {
    if !(PROJECT_PREFIX <= p) then InvalidArgument
    else if !storageOk then StorageRejected
    else if NameTaken(s, name) then DataSetExists
    else if exists r :: r in Roles(p) && r !in active then GroupsNotActive
    else Done
  }

  ghost function RemoveVerdict(s: State, d: string): Outcome {
    if d !in s.datasets then DataSetNotFound
    else if exists q :: (d, q) in s.assoc then StillAssociated
    else if s.datasets[d].externalEndpoints != [] then HasEndpoints
    else Done
  }

  // ----- Runs -----

  datatype Op =
    | Provision(p: string, d: string, name: string, storageOk: bool, active: set<string>)
    | Share(p: string, d: string, level: Level, active: set<string>)
    | Unshare(p: string, d: string, mounted: bool)
    | Remove(d: string)

  /**
   * One call and what it leaves behind. A call on a dataset with more entries than two pages hold gets no further
   * than its permission listing and leaves everything as it was, and with fewer that may happen too.
   */
  ghost predicate Step(s: State, op: Op, s': State) {
    match op
    case Provision(p, d, name, storageOk, active) =>
      var dataset := DataSet(name, RoleName(p, Admin), []);
      && PlainId(p) && PlainId(d) && d != WILDCARD && Unmentioned(s, d)
      && s' == (match ProvisionVerdict(s, p, name, storageOk, active)
                case Done => Provisioned(s, d, p, dataset)
                case GroupsNotActive => Stored(s, d, dataset)
                case _ => s)
    case Share(p, d, level, active) =>
      && PlainId(p) && PlainId(d)
      && (s' == s || (|Entries(s.perms, d)| <= TWO_PAGES && ShareVerdict(s, p, d, active) == Done
          && s' == Shared(s, d, p, level)))
    case Unshare(p, d, mounted) =>
      && PlainId(p) && PlainId(d)
      && (s' == s || (|Entries(s.perms, d)| <= TWO_PAGES && UnshareVerdict(s, p, d, mounted) == Done
          && s' == Unshared(s, d, p)))
    case Remove(d) =>
      && PlainId(d)
      && (s' == s || (|Entries(s.perms, d)| <= TWO_PAGES && RemoveVerdict(s, d) == Done
          && s' == Removed(s, d, OwnerProject(s.datasets[d]))))
  }

  /** A run of calls from a state without datasets, whatever else the permission store holds. */
  ghost predicate Run(trace: seq<State>, ops: seq<Op>) {
    && |trace| == |ops| + 1
    && trace[0].datasets == map[] && trace[0].granted == {} && trace[0].assoc == map[]
    && forall i :: 0 <= i < |ops| ==> Step(trace[i], ops[i], trace[i + 1])
  }

  lemma StepKeeps(s: State, op: Op, s': State)
    requires Inv(s) && Step(s, op, s')
    ensures Inv(s')
  {
    if s' != s {
      match op
      case Provision(p, d, name, _, _) => ProvisionKeeps(s, d, p, DataSet(name, RoleName(p, Admin), []));
      case Share(p, d, level, _) => ShareKeeps(s, d, p, level);
      case Unshare(p, d, _) => UnshareKeeps(s, d, p);
      case Remove(d) =>
        OwnerRole(d, s.datasets[d]);
        RemoveKeeps(s, d, OwnerProject(s.datasets[d]));
    }
  }

  lemma {:induction false} RunKeeps(trace: seq<State>, ops: seq<Op>, i: nat)
    requires Run(trace, ops) && i < |trace|
    ensures Inv(trace[i])
  {
    if i == 0 {
    } else {
      RunKeeps(trace, ops, i - 1);
      StepKeeps(trace[i - 1], ops[i - 1], trace[i]);
    }
  }

  ghost predicate BothHold(s: State, d: string, p: string, subjectType: string, action: Action) {
    && Key(subjectType, d, action, RoleName(p, Admin)) in s.perms
    && Key(subjectType, d, action, RoleName(p, Researcher)) in s.perms
  }

  ghost predicate NeitherHolds(s: State, d: string, p: string, subjectType: string, action: Action) {
    && Key(subjectType, d, action, RoleName(p, Admin)) !in s.perms
    && Key(subjectType, d, action, RoleName(p, Researcher)) !in s.perms
  }

  ghost predicate Together(s: State, d: string, p: string, subjectType: string, action: Action, due: bool) {
    if due then BothHold(s, d, p, subjectType, action) else NeitherHolds(s, d, p, subjectType, action)
  }

  /**
   * In every state of every run, for each dataset and each project that does not own it: association, read
   * level, write level and upload right stand or fall together, for both of the project's roles.
   */
  lemma RightsStandTogether(trace: seq<State>, ops: seq<Op>, i: nat, d: string, p: string)
    requires Run(trace, ops) && i < |trace|
    requires d in trace[i].datasets && trace[i].datasets[d].owner != RoleName(p, Admin)
    ensures
      var s := trace[i];
      var shared := (d, p) in s.assoc;
      var writable := shared && s.assoc[(d, p)] == ReadWrite;
      && Together(s, d, p, SWB_DATASET, READ, shared)
      && Together(s, d, p, DATASET_SUBJECT, READ, shared)
      && Together(s, d, p, DATASET_SUBJECT, UPDATE, writable)
      && Together(s, d, p, SWB_DATASET_UPLOAD, READ, writable)
  {
    var s := trace[i];
    RunKeeps(trace, ops, i);
    HeldTogether(s, d, p, SWB_DATASET, READ);
    HeldTogether(s, d, p, DATASET_SUBJECT, READ);
    HeldTogether(s, d, p, DATASET_SUBJECT, UPDATE);
    HeldTogether(s, d, p, SWB_DATASET_UPLOAD, READ);
    if (d, p) in s.assoc {
      ShareHasAt(s.assoc[(d, p)]);
    }
    hide RoleName, Inv, Due, ShareHas, Run, Together;
  }

  lemma ShareHasAt(level: Level)
    ensures ShareHas(level, SWB_DATASET, READ) && ShareHas(level, DATASET_SUBJECT, READ)
    ensures ShareHas(level, DATASET_SUBJECT, UPDATE) <==> level == ReadWrite
    ensures ShareHas(level, SWB_DATASET_UPLOAD, READ) <==> level == ReadWrite
  {
    SubjectTypesDiffer();
  }

  lemma HeldTogether(s: State, d: string, p: string, subjectType: string, action: Action)
    requires Inv(s) && d in s.datasets && s.datasets[d].owner != RoleName(p, Admin)
    ensures Together(s, d, p, subjectType, action, (d, p) in s.assoc && ShareHas(s.assoc[(d, p)], subjectType, action))
  {
    RoleNameIsRead(RoleName(p, Admin), p, Admin);
    RoleNameIsRead(RoleName(p, Researcher), p, Researcher);
    var k, k' := Key(subjectType, d, action, RoleName(p, Admin)), Key(subjectType, d, action, RoleName(p, Researcher));
    assert k in s.perms <==> Due(s, k);
    assert k' in s.perms <==> Due(s, k');
    hide RoleName, RoleParts, ShareHas, OwnerHas;
  }

  // ----- What sharing means for the decision -----

  /** Entries on known datasets carry neither conditions nor fields, and no entry covers all datasets. */
  ghost predicate PlainAccess(s: State) {
    && (forall k :: k in s.perms && k.subjectType == DATASET_SUBJECT ==> k.subjectId != WILDCARD)
    && (forall k :: k in s.perms && k.subjectType == DATASET_SUBJECT && k.subjectId in s.datasets ==>
          s.perms[k].conditions.None? && s.perms[k].fields.None?)
  }

  /** Entries on the datasets themselves carry neither conditions nor fields. */
  ghost predicate Unlimited(perms: Perms) {
    forall k :: k in perms && k.subjectType == DATASET_SUBJECT ==> perms[k].conditions.None? && perms[k].fields.None?
  }

  lemma UnlimitedPlus(a: Perms, b: Perms)
    requires Unlimited(a) && Unlimited(b)
    ensures Unlimited(a + b)
  {}

  lemma UnlimitedGrant(subjectType: string, d: string, roles: seq<string>, actions: seq<Action>, payload: Payload)
    requires subjectType == DATASET_SUBJECT ==> payload.conditions.None? && payload.fields.None?
    ensures Unlimited(Grant(subjectType, d, roles, actions, payload))
  {
    GrantKeys(subjectType, d, roles, actions, payload);
    GrantPayload(subjectType, d, roles, actions, payload);
    hide Grant;
  }

  lemma AccessUnlimited(d: string, p: string, level: Level)
    ensures Unlimited(DataAccess(d, p, level)) && Unlimited(SwbRead(d, p)) && Unlimited(Upload(d, p))
  {
    SubjectTypesDiffer();
    UnlimitedGrant(DATASET_SUBJECT, d, Roles(p), LevelActions(level), Describe(level, d));
    UnlimitedGrant(SWB_DATASET, d, Roles(p), [READ], ProjectCondition(p));
    UnlimitedGrant(SWB_DATASET_UPLOAD, d, Roles(p), [READ], ProjectCondition(p));
    hide Unlimited, Grant, Roles, ProjectCondition, Describe;
  }

  lemma OwnerUnlimited(d: string, p: string)
    ensures Unlimited(OwnerAdmin(d, p)) && Unlimited(OwnerResearcher(d, p)) && Unlimited(OwnerLevels(d, p))
  {
    SubjectTypesDiffer();
    UnlimitedGrant(SWB_DATASET, d, [RoleName(p, Admin)], [READ, UPDATE, DELETE], ProjectCondition(p));
    UnlimitedGrant(SWB_DATASET, d, [RoleName(p, Researcher)], [READ], ProjectCondition(p));
    UnlimitedGrant(SWB_DATASET_ACCESS_LEVEL, d, [RoleName(p, Admin)], [READ, UPDATE, DELETE], Unconditional());
    hide Unlimited, Grant, RoleName, ProjectCondition, Unconditional;
  }

  lemma AccessPayload(d: string, p: string, level: Level)
    ensures Unlimited(ShareGrant(d, p, level)) && Unlimited(OwnerGrant(d, p))
  {
    AccessUnlimited(d, p, level);
    AccessUnlimited(d, p, ReadWrite);
    OwnerUnlimited(d, p);
    OwnerPieces(d, p);
    hide Unlimited, SwbRead, DataAccess, Upload, OwnerAdmin, OwnerResearcher, OwnerLevels, OwnerGrant;
    var share := SwbRead(d, p) + DataAccess(d, p, level);
    UnlimitedPlus(SwbRead(d, p), DataAccess(d, p, level));
    UnlimitedPlus(share, Upload(d, p));
    assert share + map[] == share;
    var first := DataAccess(d, p, ReadWrite) + OwnerAdmin(d, p);
    UnlimitedPlus(DataAccess(d, p, ReadWrite), OwnerAdmin(d, p));
    UnlimitedPlus(first, OwnerResearcher(d, p));
    UnlimitedPlus(first + OwnerResearcher(d, p), OwnerLevels(d, p));
    UnlimitedPlus(first + OwnerResearcher(d, p) + OwnerLevels(d, p), Upload(d, p));
  }

  lemma PlainPlus(s: State, grant: Perms, d: string, s': State)
    requires PlainAccess(s) && s'.perms == s.perms + grant && s'.datasets.Keys <= s.datasets.Keys + {d}
    requires d != WILDCARD && (d in s.datasets || forall k :: k in s.perms ==> k.subjectId != d)
    requires forall k :: k in grant ==> k.subjectId == d
    requires Unlimited(grant)
    ensures PlainAccess(s')
  {}

  lemma OwnerGrantOnDataset(d: string, p: string)
    ensures forall k :: k in OwnerGrant(d, p) ==> k.subjectId == d
  {
    OwnerGrantKeys(d, p);
    hide OwnerGrant, RoleName;
  }

  lemma ProvisionKeepsPlain(s: State, d: string, p: string, dataset: DataSet)
    requires PlainAccess(s) && Unmentioned(s, d) && d != WILDCARD
    ensures PlainAccess(Stored(s, d, dataset)) && PlainAccess(Provisioned(s, d, p, dataset))
  {
    hide OwnerGrant, PlainAccess, WILDCARD;
    OwnerGrantOnDataset(d, p);
    AccessPayload(d, p, ReadWrite);
    assert s.perms + map[] == s.perms && Unlimited(map[]);
    hide Unlimited;
    PlainPlus(s, map[], d, Stored(s, d, dataset));
    PlainPlus(s, OwnerGrant(d, p), d, Provisioned(s, d, p, dataset));
  }

  lemma ShareKeepsPlain(s: State, d: string, p: string, level: Level)
    requires PlainAccess(s) && Inv(s) && d in s.datasets
    ensures PlainAccess(Shared(s, d, p, level))
  {
    ShareGrantKeys(d, p, level);
    AccessPayload(d, p, level);
    assert Owned(d, s.datasets[d]);
    hide OwnerGrant, ShareGrant, RoleParts, PlainAccess, Inv, Unlimited;
    PlainPlus(s, ShareGrant(d, p, level), d, Shared(s, d, p, level));
  }

  lemma StepKeepsPlain(s: State, op: Op, s': State)
    requires Inv(s) && PlainAccess(s) && Step(s, op, s')
    ensures PlainAccess(s')
  {
    hide Inv, RoleName, ShareGrant, OwnerGrant, PlainId;
    if s' != s {
      match op
      case Provision(p, d, name, _, _) => ProvisionKeepsPlain(s, d, p, DataSet(name, RoleName(p, Admin), []));
      case Share(p, d, level, _) => ShareKeepsPlain(s, d, p, level);
      case Unshare(p, d, _) =>
      case Remove(d) =>
    }
  }

  lemma RunSteps(trace: seq<State>, ops: seq<Op>, i: nat)
    requires Run(trace, ops) && 0 < i < |trace|
    ensures |ops| + 1 == |trace| && Step(trace[i - 1], ops[i - 1], trace[i])
  {
    hide Step;
  }

  lemma RunStartsPlain(trace: seq<State>, ops: seq<Op>)
    requires Run(trace, ops)
    requires forall k :: k in trace[0].perms && k.subjectType == DATASET_SUBJECT ==> k.subjectId != WILDCARD
    ensures PlainAccess(trace[0])
  {
    hide Step;
  }

  lemma {:induction false} RunKeepsPlain(trace: seq<State>, ops: seq<Op>, i: nat)
    requires Run(trace, ops) && i < |trace|
    requires forall k :: k in trace[0].perms && k.subjectType == DATASET_SUBJECT ==> k.subjectId != WILDCARD
    ensures PlainAccess(trace[i])
  {
    hide *;
    if i == 0 {
      RunStartsPlain(trace, ops);
    } else {
      RunKeepsPlain(trace, ops, i - 1);
      RunKeeps(trace, ops, i - 1);
      RunSteps(trace, ops, i);
      StepKeepsPlain(trace[i - 1], ops[i - 1], trace[i]);
    }
  }

  /** UPDATE never comes without READ, so every known dataset is well shared. */
  lemma InvIsWellShared(s: State, d: string)
    requires Inv(s) && PlainAccess(s) && d in s.datasets
    ensures WellShared(s.perms, d)
  {
    SubjectTypesDiffer();
    forall k | k in s.perms && OnSubject(k, DATASET_SUBJECT, d, None)
      ensures k.effect == ALLOW && k.action in {READ, UPDATE}
      ensures AccessKey(d, READ, k.identity) in s.perms
    {
      assert Due(s, k);
      var read := AccessKey(d, READ, k.identity);
      assert Due(s, read);
    }
  }

  /** A role is entitled to a dataset at a level: its project owns it, or it is shared with it at that level. */
  ghost predicate Entitled(s: State, d: string, role: string, level: Level)
    requires d in s.datasets
  {
    && RoleParts(role).Some?
    && var p := RoleParts(role).value.0;
       if s.datasets[d].owner == RoleName(p, Admin) then d in s.granted
       else (d, p) in s.assoc && (level == ReadOnly || s.assoc[(d, p)] == ReadWrite)
  }

  /** The level an identity holds on a known dataset is the one its role is entitled to. */
  lemma HeldIffEntitled(s: State, d: string, id: Identity, level: Level)
    requires Inv(s) && d in s.datasets
    ensures Suffices(LevelHeld(s.perms, d, id), level) <==> id.kind == GROUP && Entitled(s, d, id.id, level)
  {
    SubjectTypesDiffer();
    var read, update := AccessKey(d, READ, id), AccessKey(d, UPDATE, id);
    assert read in s.perms <==> Due(s, read);
    assert update in s.perms <==> Due(s, update);
    hide RoleName, RoleParts;
  }

  lemma InRun(trace: seq<State>, ops: seq<Op>, i: nat, d: string)
    requires Run(trace, ops) && i < |trace| && d in trace[i].datasets
    requires forall k :: k in trace[0].perms && k.subjectType == DATASET_SUBJECT ==> k.subjectId != WILDCARD
    ensures Inv(trace[i]) && WellShared(trace[i].perms, d)
  {
    RunKeeps(trace, ops, i);
    RunKeepsPlain(trace, ops, i);
    InvIsWellShared(trace[i], d);
  }

  /**
   * In every state of every run, a caller is authorized on a dataset at a level exactly when one of the caller's
   * groups is a role of the project that owns it, or of one that it is shared with at that level or better.
   */
  lemma AuthorizedIffShared(trace: seq<State>, ops: seq<Op>, i: nat, d: string, userId: string, groups: seq<string>,
                            level: Level, matches: Matcher)
    requires Run(trace, ops) && i < |trace| && d in trace[i].datasets
    requires forall k :: k in trace[0].perms && k.subjectType == DATASET_SUBJECT ==> k.subjectId != WILDCARD
    requires AdmitsUnconditional(matches)
    ensures LevelGranted(trace[i].perms, d, level, Identities(userId, groups), matches)
       <==> exists g :: g in groups && Entitled(trace[i], d, g, level)
  {
    var s, ids := trace[i], Identities(userId, groups);
    InRun(trace, ops, i, d);
    LevelHeldIsAuthorized(s.perms, d, ids, level, matches);
    forall id {
      HeldIffEntitled(s, d, id, level);
    }
    hide Run, Inv, LevelGranted, WellShared, LevelHeld, Suffices, Entitled;
    if g :| g in groups && Entitled(s, d, g, level) {
      assert Identity(GROUP, g) in ids;
    }
  }

  /**
   * In every state of every run, with a listing that shows each of the caller's decisive rows on every first page,
   * a caller is authorized at a level exactly when that level or better is reported for one of the caller's
   * identities, whatever pages the database served for the reports.
   */
  lemma RunsReportWhatIsAuthorized(trace: seq<State>, ops: seq<Op>, i: nat, rows: seq<Row>, d: string, least: nat,
                                   userId: string, groups: seq<string>, pages: map<Identity, Read>, level: Level,
                                   matches: Matcher)
    requires Run(trace, ops) && i < |trace| && d in trace[i].datasets
    requires forall k :: k in trace[0].perms && k.subjectType == DATASET_SUBJECT ==> k.subjectId != WILDCARD
    requires Represents(rows, trace[i].perms) && least > 0 && AdmitsUnconditional(matches)
    requires forall id :: id in Identities(userId, groups) ==>
      id in pages && FirstPage(rows, d, least, pages[id].rows, pages[id].next)
    requires
      || |Entries(trace[i].perms, d)| <= Min(least, DEFAULT_API_PAGE_SIZE)
      || forall id :: id in Identities(userId, groups) ==> SurelyShown(rows, trace[i].perms, d, id, least)
    ensures LevelGranted(trace[i].perms, d, level, Identities(userId, groups), matches)
       <==> exists id :: id in Identities(userId, groups) && Suffices(ReportedFrom(pages[id].rows, d, id), level)
  {
    var s, ids := trace[i], Identities(userId, groups);
    InRun(trace, ops, i, d);
    LevelHeldIsAuthorized(s.perms, d, ids, level, matches);
    hide Run, Inv, LevelGranted, WellShared, LevelHeld, Suffices, ReportedFrom, Identities, FirstPage, Represents,
        SurelyShown, Entries;
    forall id | id in ids
      ensures ReportedFrom(pages[id].rows, d, id) == LevelHeld(s.perms, d, id)
    {
      ReadOnWellShared(rows, s.perms, d, id, least, pages[id].rows, pages[id].next);
    }
  }

  // ----- A dataset shared widely -----

  function ProjectNo(n: nat): string {
    PROJECT_PREFIX + seq(n, _ => 'x')
  }

  lemma ProjectsDiffer(m: nat, n: nat)
    ensures ProjectNo(m) == ProjectNo(n) <==> m == n
    ensures PlainId(ProjectNo(n)) && PROJECT_PREFIX <= ProjectNo(n)
    ensures RoleName(ProjectNo(m), Admin) == RoleName(ProjectNo(n), Admin) <==> m == n
  {
    assert |ProjectNo(m)| == |PROJECT_PREFIX| + m && |ProjectNo(n)| == |PROJECT_PREFIX| + n;
    SameRole(ProjectNo(m), ProjectNo(n));
  }

  ghost predicate SharedWith(assoc: map<(string, string), Level>, d: string, n: nat) {
    && (forall p :: (d, p) in assoc <==> exists j: nat :: 0 < j <= n && p == ProjectNo(j))
    && (forall p :: (d, p) in assoc ==> assoc[(d, p)] == ReadOnly)
  }

  lemma SharedWithMore(assoc: map<(string, string), Level>, d: string, n: nat)
    requires SharedWith(assoc, d, n)
    ensures SharedWith(assoc[(d, ProjectNo(n + 1)) := ReadOnly], d, n + 1)
  {
    var more := assoc[(d, ProjectNo(n + 1)) := ReadOnly];
    hide ProjectNo;
    forall q
      ensures (d, q) in more <==> exists j: nat :: 0 < j <= n + 1 && q == ProjectNo(j)
    {
      if q == ProjectNo(n + 1) {
      } else if (d, q) in assoc {
        var j: nat :| 0 < j <= n && q == ProjectNo(j);
        assert j <= n + 1;
      }
    }
  }

  /** The dataset is owned by project 0 and shared, read-only, with projects 1 to `n` and no other. */
  ghost predicate SharedWidely(s: State, d: string, n: nat) {
    && d in s.datasets && s.datasets[d].owner == RoleName(ProjectNo(0), Admin) && d in s.granted
    && SharedWith(s.assoc, d, n)
    && |Entries(s.perms, d)| == 4 + 2 * n
  }

  /** Of the keys on the dataset itself a read-only share creates one for each role. */
  lemma SharerReads(k: PermKey, d: string, p: string)
    requires k.subjectType == DATASET_SUBJECT && k.subjectId == d
    ensures k in ShareGrant(d, p, ReadOnly) <==>
      || k == AccessKey(d, READ, Identity(GROUP, RoleName(p, Admin)))
      || k == AccessKey(d, READ, Identity(GROUP, RoleName(p, Researcher)))
  {
    ShareGrantKey(k, d, p, ReadOnly);
    InRoles(k.identity.id, p);
    SubjectTypesDiffer();
    hide RoleName, RoleParts, Roles, ShareGrant;
    assert RoleParts(k.identity.id).Some? ==>
      RoleParts(k.identity.id).value.1.Admin? || RoleParts(k.identity.id).value.1.Researcher?;
  }

  /** A grant adds as many entries as it has keys on the dataset itself. */
  lemma EntriesPlus(perms: Perms, grant: Perms, d: string, more: set<PermKey>)
    requires grant.Keys !! perms.Keys
    requires forall k :: OnSubject(k, DATASET_SUBJECT, d, None) ==> (k in grant <==> k in more)
    requires forall k :: k in more ==> OnSubject(k, DATASET_SUBJECT, d, None)
    ensures |Entries(perms + grant, d)| == |Entries(perms, d)| + |more|
  {
    assert Entries(perms + grant, d) == Entries(perms, d) + more;
    assert Entries(perms, d) !! more;
  }

  ghost function ReadKeys(d: string, p: string): set<PermKey> {
    {AccessKey(d, READ, Identity(GROUP, RoleName(p, Admin))),
        AccessKey(d, READ, Identity(GROUP, RoleName(p, Researcher)))}
  }

  ghost function UpdateKeys(d: string, p: string): set<PermKey> {
    {AccessKey(d, UPDATE, Identity(GROUP, RoleName(p, Admin))),
        AccessKey(d, UPDATE, Identity(GROUP, RoleName(p, Researcher)))}
  }

  lemma KeySizes(d: string, p: string)
    ensures |ReadKeys(d, p)| == 2 && |UpdateKeys(d, p)| == 2 && |ReadKeys(d, p) + UpdateKeys(d, p)| == 4
  {
    RolesDiffer(p);
    hide RoleName;
    assert ReadKeys(d, p) !! UpdateKeys(d, p);
  }

  lemma ShareReads(d: string, p: string)
    ensures forall k :: OnSubject(k, DATASET_SUBJECT, d, None) ==>
        (k in ShareGrant(d, p, ReadOnly) <==> k in ReadKeys(d, p))
    ensures forall k :: k in ReadKeys(d, p) ==> OnSubject(k, DATASET_SUBJECT, d, None)
  {
    hide RoleName, ShareGrant;
    forall k | OnSubject(k, DATASET_SUBJECT, d, None)
      ensures k in ShareGrant(d, p, ReadOnly) <==> k in ReadKeys(d, p)
    {
      SharerReads(k, d, p);
    }
  }

  lemma EntriesAfterShare(s: State, d: string, p: string)
    requires Inv(s) && d in s.datasets && s.datasets[d].owner != RoleName(p, Admin) && PlainId(p) && (d, p) !in s.assoc
    ensures |Entries(Shared(s, d, p, ReadOnly).perms, d)| == |Entries(s.perms, d)| + 2
  {
    assert Shared(s, d, p, ReadOnly).perms == s.perms + ShareGrant(d, p, ReadOnly);
    hide *;
    ShareKeeps(s, d, p, ReadOnly);
    KeySizes(d, p);
    ShareReads(d, p);
    EntriesPlus(s.perms, ShareGrant(d, p, ReadOnly), d, ReadKeys(d, p));
  }

  /** Of the keys on the dataset itself provisioning creates READ and UPDATE for each role. */
  lemma OwnerAccess(k: PermKey, d: string, p: string)
    requires k.subjectType == DATASET_SUBJECT && k.subjectId == d
    ensures k in OwnerGrant(d, p) <==>
      && k == AccessKey(d, k.action, k.identity) && k.action in {READ, UPDATE}
      && (k.identity == Identity(GROUP, RoleName(p, Admin)) || k.identity == Identity(GROUP, RoleName(p, Researcher)))
  {
    OwnerGrantKey(k, d, p);
    InRoles(k.identity.id, p);
    SubjectTypesDiffer();
    hide RoleName, RoleParts, Roles, OwnerGrant;
    assert RoleParts(k.identity.id).Some? ==>
      RoleParts(k.identity.id).value.1.Admin? || RoleParts(k.identity.id).value.1.Researcher?;
  }

  lemma OwnerAccesses(d: string, p: string)
    ensures forall k :: OnSubject(k, DATASET_SUBJECT, d, None) ==>
      (k in OwnerGrant(d, p) <==> k in ReadKeys(d, p) + UpdateKeys(d, p))
    ensures forall k :: k in ReadKeys(d, p) + UpdateKeys(d, p) ==> OnSubject(k, DATASET_SUBJECT, d, None)
  {
    hide RoleName, OwnerGrant;
    forall k | OnSubject(k, DATASET_SUBJECT, d, None)
      ensures k in OwnerGrant(d, p) <==> k in ReadKeys(d, p) + UpdateKeys(d, p)
    {
      OwnerAccess(k, d, p);
    }
  }

  lemma OwnerGrantFits(s: State, d: string, p: string)
    requires Unmentioned(s, d)
    ensures OwnerGrant(d, p).Keys !! s.perms.Keys && Entries(s.perms, d) == {}
  {
    OwnerGrantKeys(d, p);
    hide OwnerGrant, RoleParts;
  }

  lemma EntriesAfterProvision(s: State, d: string, p: string, dataset: DataSet)
    requires Unmentioned(s, d)
    ensures |Entries(Provisioned(s, d, p, dataset).perms, d)| == 4
  {
    assert Provisioned(s, d, p, dataset).perms == s.perms + OwnerGrant(d, p);
    hide *;
    OwnerGrantFits(s, d, p);
    KeySizes(d, p);
    OwnerAccesses(d, p);
    EntriesPlus(s.perms, OwnerGrant(d, p), d, ReadKeys(d, p) + UpdateKeys(d, p));
  }

  lemma RunExtends(trace: seq<State>, ops: seq<Op>, op: Op, s: State)
    requires Run(trace, ops) && Step(trace[|trace| - 1], op, s)
    ensures Run(trace + [s], ops + [op])
  {
    hide Step;
    forall i | 0 <= i < |ops| + 1
      ensures Step((trace + [s])[i], (ops + [op])[i], (trace + [s])[i + 1])
    {}
  }

  lemma ProvisionDone(empty: State, d: string, p: string)
    requires empty == State(map[], map[], {}, map[]) && PlainId(d) && d != WILDCARD && PlainId(p) && PROJECT_PREFIX <= p
    ensures
      var dataset := DataSet("name", RoleName(p, Admin), []);
      Step(empty, Provision(p, d, "name", true, set r | r in Roles(p)), Provisioned(empty, d, p, dataset))
  {
    hide RoleName, OwnerGrant, PlainId, Roles;
  }

  lemma ProvisionedWidely(empty: State, d: string, p: string)
    requires empty == State(map[], map[], {}, map[]) && p == ProjectNo(0)
    ensures SharedWidely(Provisioned(empty, d, p, DataSet("name", RoleName(p, Admin), [])), d, 0)
  {
    EntriesAfterProvision(empty, d, p, DataSet("name", RoleName(p, Admin), []));
    hide RoleName, ProjectNo, OwnerGrant, Entries;
  }

  lemma ProvisionFirst(d: string) returns (trace: seq<State>, ops: seq<Op>)
    requires PlainId(d) && d != WILDCARD
    ensures Run(trace, ops) && trace[0].perms == map[] && SharedWidely(trace[|trace| - 1], d, 0)
  {
    var p := ProjectNo(0);
    ProjectsDiffer(0, 0);
    var empty := State(map[], map[], {}, map[]);
    ProvisionedWidely(empty, d, p);
    ProvisionDone(empty, d, p);
    ops := [Provision(p, d, "name", true, set r | r in Roles(p))];
    trace := [empty, Provisioned(empty, d, p, DataSet("name", RoleName(p, Admin), []))];
    hide RoleName, ProjectNo, PlainId, Step, Roles, SharedWidely, Provisioned;
  }

  lemma ShareDone(s: State, d: string, p: string)
    requires PlainId(p) && PlainId(d) && PROJECT_PREFIX <= p
    requires d in s.datasets && s.datasets[d].owner != RoleName(p, Admin) && (d, p) !in s.assoc
    requires |Entries(s.perms, d)| <= TWO_PAGES
    ensures Step(s, Share(p, d, ReadOnly, set r | r in Roles(p)), Shared(s, d, p, ReadOnly))
  {
    hide RoleName, ShareGrant, PlainId, Roles, Entries;
  }

  /** One more share, as long as two pages hold the entries there are before it. */
  lemma ShareOnce(s: State, d: string, n: nat) returns (op: Op, s': State)
    requires Inv(s) && SharedWidely(s, d, n) && PlainId(d) && 4 + 2 * n <= TWO_PAGES
    ensures Step(s, op, s') && SharedWidely(s', d, n + 1)
  {
    hide *;
    var p := ProjectNo(n + 1);
    ProjectsDiffer(0, n + 1);
    NotSharedYet(s, d, n);
    SharedOnceMore(s, d, n);
    WidelyOwned(s, d, n);
    s' := Shared(s, d, p, ReadOnly);
    op := Share(p, d, ReadOnly, set r | r in Roles(p));
    ShareDone(s, d, p);
  }

  lemma WidelyOwned(s: State, d: string, n: nat)
    requires SharedWidely(s, d, n)
    ensures d in s.datasets && s.datasets[d].owner == RoleName(ProjectNo(0), Admin)
    ensures |Entries(s.perms, d)| == 4 + 2 * n
  {
    hide RoleName, Entries, ProjectNo, SharedWith;
  }

  lemma NotSharedYet(s: State, d: string, n: nat)
    requires SharedWidely(s, d, n)
    ensures (d, ProjectNo(n + 1)) !in s.assoc
  {
    forall j: nat {
      ProjectsDiffer(j, n + 1);
    }
    hide ProjectNo, RoleName, Entries;
  }

  lemma SharedOnceMore(s: State, d: string, n: nat)
    requires Inv(s) && SharedWidely(s, d, n)
    ensures SharedWidely(Shared(s, d, ProjectNo(n + 1), ReadOnly), d, n + 1)
  {
    var p := ProjectNo(n + 1);
    ProjectsDiffer(0, n + 1);
    NotSharedYet(s, d, n);
    EntriesAfterShare(s, d, p);
    SharedWithMore(s.assoc, d, n);
    hide RoleName, ProjectNo, ShareGrant, PlainId, Inv, Entries, SharedWith;
  }

  /** A run from nothing to a dataset shared with `n` projects. */
  lemma {:induction false} ShareWidely(d: string, n: nat) returns (trace: seq<State>, ops: seq<Op>)
    requires PlainId(d) && d != WILDCARD && 2 + 2 * n <= TWO_PAGES
    ensures Run(trace, ops) && trace[0].perms == map[] && SharedWidely(trace[|trace| - 1], d, n)
  {
    if n == 0 {
      trace, ops := ProvisionFirst(d);
    } else {
      trace, ops := ShareWidely(d, n - 1);
      RunKeeps(trace, ops, |trace| - 1);
      hide Run, SharedWidely, Step, Inv, PlainId;
      var op, s := ShareOnce(trace[|trace| - 1], d, n - 1);
      RunExtends(trace, ops, op, s);
      trace, ops := trace + [s], ops + [op];
    }
  }

  ghost function WideRole(j: nat, kind: Kind): Identity {
    Identity(GROUP, RoleName(ProjectNo(j), kind))
  }

  /** The roles of projects 0 to `n`. */
  ghost function WideRoles(n: nat): set<Identity> {
    (if n == 0 then {} else WideRoles(n - 1)) + {WideRole(n, Admin), WideRole(n, Researcher)}
  }

  lemma WideRolesDiffer(i: nat, j: nat, kind: Kind, kind': Kind)
    ensures WideRole(i, kind) == WideRole(j, kind') ==> i == j && kind == kind'
  {
    ProjectsDiffer(i, j);
    RoleNameIsRead(RoleName(ProjectNo(i), kind), ProjectNo(i), kind);
    RoleNameIsRead(RoleName(ProjectNo(i), kind), ProjectNo(j), kind');
    hide RoleName, ProjectNo, RoleParts;
  }

  ghost predicate IsWideRole(id: Identity, n: nat) {
    exists j: nat, kind :: j <= n && id == WideRole(j, kind)
  }

  lemma WideRoleOf(n: nat, j: nat, kind: Kind)
    requires j <= n
    ensures IsWideRole(WideRole(j, kind), n)
  {
    hide WideRole;
  }

  lemma WiderRole(id: Identity, n: nat)
    requires IsWideRole(id, n)
    ensures IsWideRole(id, n + 1)
    ensures id != WideRole(n + 1, Admin) && id != WideRole(n + 1, Researcher)
  {
    hide WideRole;
    var j: nat, kind :| j <= n && id == WideRole(j, kind);
    WideRolesDiffer(j, n + 1, kind, Admin);
    WideRolesDiffer(j, n + 1, kind, Researcher);
  }

  lemma {:induction false} WideRolesAre(n: nat)
    ensures |WideRoles(n)| == 2 * (n + 1)
    ensures forall id :: id in WideRoles(n) ==> IsWideRole(id, n)
  {
    var a, r := WideRole(n, Admin), WideRole(n, Researcher);
    var before := if n == 0 then {} else WideRoles(n - 1);
    assert WideRoles(n) == before + {a, r};
    hide *;
    WideRolesDiffer(n, n, Admin, Researcher);
    WideRoleOf(n, n, Admin);
    WideRoleOf(n, n, Researcher);
    if n == 0 {
    } else {
      WideRolesAre(n - 1);
      forall id | id in before
        ensures id != a && id != r && IsWideRole(id, n)
      {
        WiderRole(id, n - 1);
      }
    }
    TwoRolesMore(before, a, r);
  }

  lemma TwoRolesMore(before: set<Identity>, a: Identity, r: Identity)
    requires a != r && a !in before && r !in before
    ensures |before + {a, r}| == |before| + 2
  {
    assert before + {a, r} == before + {a} + {r};
  }

  lemma WideRoleReads(s: State, d: string, n: nat, j: nat, kind: Kind)
    requires Inv(s) && SharedWidely(s, d, n) && j <= n
    ensures AccessKey(d, READ, WideRole(j, kind)) in s.perms
  {
    var p := ProjectNo(j);
    RoleNameIsRead(RoleName(p, kind), p, kind);
    ProjectsDiffer(0, j);
    HeldIffEntitled(s, d, WideRole(j, kind), ReadOnly);
    assert j > 0 ==> (d, ProjectNo(j)) in s.assoc;
    hide RoleName, ProjectNo, RoleParts, Inv, Entries;
    assert Entitled(s, d, RoleName(p, kind), ReadOnly);
    UpdateMeansRead(s, d, WideRole(j, kind));
  }

  lemma UpdateMeansRead(s: State, d: string, id: Identity)
    requires Inv(s) && d in s.datasets
    ensures AccessKey(d, UPDATE, id) in s.perms ==> AccessKey(d, READ, id) in s.perms
  {
    HeldIffEntitled(s, d, id, ReadOnly);
    SubjectTypesDiffer();
    var read, update := AccessKey(d, READ, id), AccessKey(d, UPDATE, id);
    assert read in s.perms <==> Due(s, read);
    assert update in s.perms <==> Due(s, update);
    hide RoleName, RoleParts;
  }

  lemma SomeWideRole(id: Identity, n: nat) returns (j: nat, kind: Kind)
    requires IsWideRole(id, n)
    ensures j <= n && id == WideRole(j, kind)
  {
    hide WideRole;
    j, kind :| j <= n && id == WideRole(j, kind);
  }

  lemma WideRolesRead(s: State, d: string, n: nat)
    requires Inv(s) && SharedWidely(s, d, n)
    ensures forall id :: id in WideRoles(n) ==> AccessKey(d, READ, id) in s.perms
  {
    WideRolesAre(n);
    hide *;
    forall id | id in WideRoles(n)
      ensures AccessKey(d, READ, id) in s.perms
    {
      var j, kind := SomeWideRole(id, n);
      WideRoleReads(s, d, n, j, kind);
    }
  }

  /** A caller in the role is authorized at the level, and the page served for the role reports less. */
  ghost predicate Underreports(s: State, rows: seq<Row>, d: string, least: nat, userId: string, matches: Matcher,
                               role: string, page: Read, level: Level)
  {
    && FirstPage(rows, d, least, page.rows, page.next)
    && LevelGranted(s.perms, d, level, Identities(userId, [role]), matches)
    && !Suffices(ReportedFrom(page.rows, d, Identity(GROUP, role)), level)
  }

  ghost predicate HidesSomeRole(s: State, rows: seq<Row>, d: string, least: nat, userId: string, matches: Matcher) {
    exists role, page, level :: Underreports(s, rows, d, least, userId, matches, role, page, level)
  }

  lemma SomeRoleHidden(s: State, rows: seq<Row>, d: string, least: nat, userId: string, matches: Matcher,
                       role: string, page: Read, level: Level)
    requires Underreports(s, rows, d, least, userId, matches, role, page, level)
    ensures HidesSomeRole(s, rows, d, least, userId, matches)
  {}

  lemma WideSharingHidesRole(s: State, d: string, n: nat, rows: seq<Row>, least: nat, userId: string, matches: Matcher)
    returns (role: string, page: Read, level: Level)
    requires Inv(s) && WellShared(s.perms, d) && SharedWidely(s, d, n)
    requires Represents(rows, s.perms) && least > 0 && 2 * (n + 1) > Min(least, DEFAULT_API_PAGE_SIZE)
    requires AdmitsUnconditional(matches)
    ensures Underreports(s, rows, d, least, userId, matches, role, page, level)
  {
    WideRolesRead(s, d, n);
    WideRolesAre(n);
    hide Inv, WellShared, SharedWidely, Represents, RoleName, ProjectNo, WideRoles, LevelHeld, LevelGranted, FirstPage,
         ReportedFrom, Suffices, Identities, SurelyShown, AdmitsUnconditional;
    var hidden := CrowdHidesReader(rows, s.perms, d, WideRoles(n), least);
    IsGroup(hidden, n);
    role := hidden.id;
    var scanned, next;
    scanned, next, level := HiddenIsUnderreported(rows, s.perms, d, hidden, least);
    page := Read(scanned, next);
    LevelHeldIsAuthorized(s.perms, d, Identities(userId, [role]), level, matches);
    RoleIsAmong(userId, role);
  }

  /**
   * A run of sharing operations, one provisioning and twenty-six read-only shares, in whose last state some role is
   * reported less than its callers are authorized for, in whatever order the database lists the rows and however
   * many it fits into a page of fifty.
   */
  lemma SharingRunHidesRole(d: string, matches: Matcher) returns (trace: seq<State>, ops: seq<Op>)
    requires PlainId(d) && d != WILDCARD && AdmitsUnconditional(matches)
    ensures Run(trace, ops) && trace[0].perms == map[]
    ensures
      var s := trace[|trace| - 1];
      forall rows, least: nat, userId :: Represents(rows, s.perms) && least > 0 ==>
        HidesSomeRole(s, rows, d, least, userId, matches)
  {
    trace, ops := ShareWidely(d, 26);
    var s := trace[|trace| - 1];
    assert d in s.datasets;
    InRun(trace, ops, |trace| - 1, d);
    hide *;
    forall rows, least: nat, userId | Represents(rows, s.perms) && least > 0
      ensures HidesSomeRole(s, rows, d, least, userId, matches)
    {
      var role, page, level := WideSharingHidesRole(s, d, 26, rows, least, userId, matches);
      SomeRoleHidden(s, rows, d, least, userId, matches, role, page, level);
    }
  }

  lemma IsGroup(id: Identity, n: nat)
    requires IsWideRole(id, n)
    ensures id == Identity(GROUP, id.id)
  {
    hide RoleName, ProjectNo;
  }

  lemma RoleIsAmong(userId: string, role: string)
    ensures Identity(GROUP, role) in Identities(userId, [role])
  {
    assert role in [role];
  }

  // ----- What one dataset keeps while others change -----

  ghost predicate SamePermissions(s: State, s': State, d: string) {
    forall k: PermKey :: k.subjectId == d ==>
      (k in s.perms <==> k in s'.perms) && (k in s.perms ==> s'.perms[k] == s.perms[k])
  }

  ghost predicate SameSharing(s: State, s': State, d: string) {
    forall p ::
      ((d, p) in s.assoc <==> (d, p) in s'.assoc) && ((d, p) in s.assoc ==> s'.assoc[(d, p)] == s.assoc[(d, p)])
  }

  /** Nothing about the dataset is different: its row, who it is shared with, and every permission that names it. */
  ghost predicate SameAbout(s: State, s': State, d: string) {
    && d in s.datasets && d in s'.datasets && s'.datasets[d] == s.datasets[d]
    && (d in s.granted <==> d in s'.granted)
    && SameSharing(s, s', d) && SamePermissions(s, s', d)
  }

  lemma SamePermissionsPlus(s: State, grant: Perms, s': State, d: string)
    requires s'.perms == s.perms + grant && forall k :: k in grant ==> k.subjectId != d
    ensures SamePermissions(s, s', d)
  {}

  lemma SamePermissionsMinus(s: State, gone: set<PermKey>, s': State, d: string)
    requires s'.perms == s.perms - gone && forall k :: k in gone ==> k.subjectId != d
    ensures SamePermissions(s, s', d)
  {}

  lemma ShareGrantOnDataset(d: string, p: string, level: Level)
    ensures forall k :: k in ShareGrant(d, p, level) ==> k.subjectId == d
  {
    ShareGrantKeys(d, p, level);
    hide ShareGrant;
  }

  lemma RemovedElsewhere(s: State, e: string, p: string, d: string)
    requires d != e
    ensures SamePermissions(s, Removed(s, e, p), d)
  {
    OwnerGrantOnDataset(e, p);
    hide OwnerGrant;
  }

  /** A call on one dataset changes nothing about another. */
  lemma StepElsewhere(s: State, op: Op, s': State, d: string)
    requires d in s.datasets && Step(s, op, s') && op.d != d
    ensures SameAbout(s, s', d)
  {
    hide SamePermissions, OwnerGrant, ShareGrant, Entries, PlainId, RoleName, Unmentioned;
    match op
    case Provision(p, e, name, _, _) =>
      var dataset := DataSet(name, RoleName(p, Admin), []);
      OwnerGrantOnDataset(e, p);
      SamePermissionsPlus(s, map[], s, d);
      SamePermissionsPlus(s, map[], Stored(s, e, dataset), d);
      SamePermissionsPlus(s, OwnerGrant(e, p), Provisioned(s, e, p, dataset), d);
    case Share(p, e, level, _) =>
      ShareGrantOnDataset(e, p, level);
      SamePermissionsPlus(s, map[], s, d);
      SamePermissionsPlus(s, ShareGrant(e, p, level), Shared(s, e, p, level), d);
    case Unshare(p, e, _) =>
      ShareGrantOnDataset(e, p, ReadWrite);
      SamePermissionsPlus(s, map[], s, d);
      SamePermissionsMinus(s, ShareGrant(e, p, ReadWrite).Keys, Unshared(s, e, p), d);
    case Remove(e) =>
      SamePermissionsPlus(s, map[], s, d);
      if s' != s {
        RemovedElsewhere(s, e, OwnerProject(s.datasets[e]), d);
      }
  }

  lemma SameEntries(s: State, s': State, d: string)
    requires SameAbout(s, s', d)
    ensures Entries(s'.perms, d) == Entries(s.perms, d)
  {}

  lemma NothingAbout(s: State, d: string)
    requires d in s.datasets
    ensures SameAbout(s, s, d)
  {}

  lemma StuckStep(s: State, op: Op, s': State, d: string)
    requires d in s.datasets && |Entries(s.perms, d)| > TWO_PAGES && Step(s, op, s')
    ensures SameAbout(s, s', d)
  {
    if op.d != d {
      StepElsewhere(s, op, s', d);
    } else {
      assert op.Provision? ==> Unmentioned(s, d);
      assert s' == s by {
        hide Entries, PlainId, RoleName, OwnerGrant, ShareGrant;
      }
      NothingAbout(s, d);
    }
  }

  lemma SameAboutThrough(s: State, t: State, u: State, d: string)
    requires SameAbout(s, t, d) && SameAbout(t, u, d)
    ensures SameAbout(s, u, d)
  {}

  /**
   * Once a dataset has more entries than two pages hold, it keeps them for good: in every run, whatever is done to
   * it or to other datasets, nothing about it ever changes again.
   */
  lemma {:induction false} StuckForGood(trace: seq<State>, ops: seq<Op>, i: nat, j: nat, d: string)
    requires Run(trace, ops) && i <= j < |trace|
    requires d in trace[i].datasets && |Entries(trace[i].perms, d)| > TWO_PAGES
    ensures SameAbout(trace[i], trace[j], d) && Entries(trace[j].perms, d) == Entries(trace[i].perms, d)
  {
    if i == j {
      NothingAbout(trace[i], d);
    } else {
      StuckForGood(trace, ops, i, j - 1, d);
      RunSteps(trace, ops, j);
      hide *;
      SameAboutKnown(trace[i], trace[j - 1], d);
      StuckStep(trace[j - 1], ops[j - 1], trace[j], d);
      SameEntries(trace[j - 1], trace[j], d);
      SameAboutThrough(trace[i], trace[j - 1], trace[j], d);
    }
  }

  lemma SameAboutKnown(s: State, s': State, d: string)
    requires SameAbout(s, s', d)
    ensures d in s'.datasets
  {}

  /**
   * A run of one provisioning and forty-nine read-only shares into a state with more entries than two pages hold:
   * however it goes on, the dataset is there for good, with the same entries.
   */
  lemma WideSharingIsFinal(d: string) returns (trace: seq<State>, ops: seq<Op>)
    requires PlainId(d) && d != WILDCARD
    ensures Run(trace, ops) && trace[0].perms == map[] && |Entries(trace[|trace| - 1].perms, d)| == 102
    ensures forall longer, more, j :: Run(longer, more) && trace <= longer && |trace| <= j < |longer| ==>
      SameAbout(trace[|trace| - 1], longer[j], d)
  {
    trace, ops := ShareWidely(d, 49);
    WidelyOwned(trace[|trace| - 1], d, 49);
    hide Run, Entries, RoleName, ProjectNo, SameAbout;
    forall longer, more, j | Run(longer, more) && trace <= longer && |trace| <= j < |longer|
      ensures SameAbout(trace[|trace| - 1], longer[j], d)
    {
      assert longer[|trace| - 1] == trace[|trace| - 1];
      StuckForGood(longer, more, |trace| - 1, j, d);
    }
  }
}
