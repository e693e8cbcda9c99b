/** The service that provisions, shares, unshares and removes datasets, write by write, and its permission listing. */
module DatasetService {
  import opened Prelude
  import opened PermissionKeys
  import opened PermissionStore
  import opened Authorization
  import opened AccessLevels
  import opened DatasetReading
  import opened DatasetGrants
  import opened DatasetSharing

  // ----- The writes of one operation, one after the other -----

  /** What creating a grant answers. */
  ghost function GrantError(perms: Perms, grant: Perms, roles: seq<string>, active: set<string>): Option<ServiceError> {
    if exists r :: r in roles && r !in active then Some(GroupNotFound)
    else if grant.Keys !! perms.Keys then None
    else Some(Store(CreationFailed))
  }

  lemma GrantCreation(perms: Perms, t: string, d: string, roles: seq<string>, actions: seq<Action>, payload: Payload,
                      active: set<string>)
    requires Distinct(roles) && Distinct(actions) && 0 < |roles| * |actions| <= MAX_BATCH
    ensures CreationError(perms, Product(t, d, roles, actions, payload), active)
         == GrantError(perms, Grant(t, d, roles, actions, payload), roles, active)
  {
    var batch := Product(t, d, roles, actions, payload);
    ProductIsGrant(t, d, roles, actions, payload);
    ProductSize(t, d, roles, actions, payload);
    ProductHolds(t, d, roles, actions, payload);
    hide Product, Grant, DistinctKeys, BatchMap;
    assert actions[0] in actions;
    if r :| r in roles && r !in active {
      assert Permission(Key(t, d, actions[0], r), payload) in batch;
    }
  }

  lemma CleanProduct(t: string, d: string, roles: seq<string>, actions: seq<Action>, payload: Payload)
    requires Distinct(roles) && Distinct(actions)
    requires DELIMITER !in t && DELIMITER !in d && forall r :: r in roles ==> DELIMITER !in r
    ensures AllClean(Product(t, d, roles, actions, payload))
  {
    ProductHolds(t, d, roles, actions, payload);
  }

  /** A batch built to remove a grant addresses its keys, whatever payload it was created with. */
  lemma RemovalBatch(t: string, d: string, roles: seq<string>, actions: seq<Action>, payload: Payload, other: Payload)
    requires Distinct(roles) && Distinct(actions) && 0 < |roles| * |actions| <= MAX_BATCH
    requires DELIMITER !in t && DELIMITER !in d && forall r :: r in roles ==> DELIMITER !in r
    ensures
      var batch := Product(t, d, roles, actions, other);
      AllClean(batch) && DeleteError(batch) == None && KeysOf(batch) == Grant(t, d, roles, actions, payload).Keys
  {
    CleanProduct(t, d, roles, actions, other);
    ProductIsGrant(t, d, roles, actions, other);
    ProductSize(t, d, roles, actions, other);
    SameGrantKeys(t, d, roles, actions, payload, other);
    hide Product, Grant, AllClean, DistinctKeys, KeysOf, BatchMap;
  }

  lemma SameGrantKeys(t: string, d: string, roles: seq<string>, actions: seq<Action>, payload: Payload, other: Payload)
    ensures Grant(t, d, roles, actions, payload).Keys == Grant(t, d, roles, actions, other).Keys
  {
    GrantKeys(t, d, roles, actions, payload);
    GrantKeys(t, d, roles, actions, other);
    hide Grant, InGrant;
  }

  lemma CleanRoles(p: string)
    requires PlainId(p)
    ensures Distinct(Roles(p))
    ensures forall r :: r in Roles(p) ==> DELIMITER !in r
    ensures DELIMITER !in RoleName(p, Admin) && DELIMITER !in RoleName(p, Researcher)
  {
    RolesDiffer(p);
  }

  lemma CleanSubjects()
    ensures DELIMITER !in SWB_DATASET && DELIMITER !in SWB_DATASET_UPLOAD && DELIMITER !in SWB_DATASET_ACCESS_LEVEL
        && DELIMITER !in DATASET_SUBJECT
  {}

  function AccessRequests(p: string, level: Level): seq<Access> {
    [Access(Identity(GROUP, RoleName(p, Admin)), level), Access(Identity(GROUP, RoleName(p, Researcher)), level)]
  }

  /** The access request of an operation expands to the same batch as a grant on the dataset itself. */
  lemma ExpansionIsProduct(d: string, p: string, level: Level)
    ensures ExpandAll(d, AccessRequests(p, level))
        == Product(DATASET_SUBJECT, d, Roles(p), LevelActions(level), Describe(level, d))
  {
    var one, two := AccessRequests(p, level)[0], AccessRequests(p, level)[1];
    ExpandStep(d, [], one);
    ExpandStep(d, [one], two);
    assert AccessRequests(p, level) == [one] + [two] && [] + [one] == [one];
    var a, r := RoleName(p, Admin), RoleName(p, Researcher);
    ForRoleOf(d, a, level);
    ForRoleOf(d, r, level);
    ProductStep(DATASET_SUBJECT, d, [], a, LevelActions(level), Describe(level, d));
    ProductStep(DATASET_SUBJECT, d, [a], r, LevelActions(level), Describe(level, d));
    assert Roles(p) == [a] + [r] && [] + [a] == [a];
    hide ForRole, RoleName, Describe, Product;
  }

  lemma ProductStep(t: string, d: string, front: seq<string>, role: string, actions: seq<Action>, payload: Payload)
    ensures Product(t, d, front + [role], actions, payload)
        == Product(t, d, front, actions, payload) + ForRole(t, d, role, actions, payload)
    ensures Product(t, d, [], actions, payload) == []
  {
    assert (front + [role])[..|front|] == front;
  }

  lemma ForRoleStep(t: string, d: string, role: string, front: seq<Action>, a: Action, payload: Payload)
    ensures ForRole(t, d, role, front + [a], payload)
        == ForRole(t, d, role, front, payload) + [Permission(Key(t, d, a, role), payload)]
    ensures ForRole(t, d, role, [], payload) == []
  {
    assert (front + [a])[..|front|] == front;
  }

  lemma ForRoleOf(d: string, role: string, level: Level)
    ensures ForRole(DATASET_SUBJECT, d, role, LevelActions(level), Describe(level, d))
         == [ReadEntry(d, Access(Identity(GROUP, role), level))]
            + if level == ReadOnly then [] else [UpdateEntry(d, Access(Identity(GROUP, role), level))]
  {
    ForRoleStep(DATASET_SUBJECT, d, role, [], READ, Describe(level, d));
    ForRoleStep(DATASET_SUBJECT, d, role, [READ], UPDATE, Describe(level, d));
    assert [] + [READ] == [READ] && [READ] + [UPDATE] == [READ, UPDATE];
    hide Describe;
  }

  lemma WriteInputs(p: string)
    requires PlainId(p)
    ensures Distinct(Roles(p)) && |Roles(p)| == 2 && Distinct([READ]) && Distinct([READ, UPDATE, DELETE])
    ensures forall r :: r in Roles(p) ==> DELIMITER !in r
    ensures DELIMITER !in RoleName(p, Admin) && DELIMITER !in RoleName(p, Researcher)
    ensures DELIMITER !in SWB_DATASET && DELIMITER !in SWB_DATASET_UPLOAD && DELIMITER !in SWB_DATASET_ACCESS_LEVEL
        && DELIMITER !in DATASET_SUBJECT
  {
    CleanRoles(p);
    CleanSubjects();
  }

  lemma DataAccessBatch(perms: Perms, d: string, p: string, level: Level, active: set<string>)
    requires PlainId(p) && PlainId(d)
    ensures AllClean(ExpandAll(d, AccessRequests(p, level)))
    ensures DeleteError(ExpandAll(d, AccessRequests(p, level))) == None
    ensures BatchMap(ExpandAll(d, AccessRequests(p, level))) == DataAccess(d, p, level)
    ensures KeysOf(ExpandAll(d, AccessRequests(p, level))) == DataAccess(d, p, level).Keys
    ensures CreationError(perms, ExpandAll(d, AccessRequests(p, level)), active)
        == GrantError(perms, DataAccess(d, p, level), Roles(p), active)
  {
    WriteInputs(p);
    CleanProduct(DATASET_SUBJECT, d, Roles(p), LevelActions(level), Describe(level, d));
    ExpansionIsProduct(d, p, level);
    ProductIsGrant(DATASET_SUBJECT, d, Roles(p), LevelActions(level), Describe(level, d));
    ProductSize(DATASET_SUBJECT, d, Roles(p), LevelActions(level), Describe(level, d));
    GrantCreation(perms, DATASET_SUBJECT, d, Roles(p), LevelActions(level), Describe(level, d), active);
    hide RoleName, Roles, Grant, Product, ExpandAll, AllClean, CreationError, GrantError, BatchMap, Describe,
        DistinctKeys, PlainId;
  }

  /** Once the first write of a share goes through, the later ones do too, and together they are the share. */
  lemma ShareWrites(perms: Perms, d: string, p: string, level: Level, active: set<string>)
    requires ShareGrant(d, p, level).Keys !! perms.Keys
    ensures
      var all := forall r :: r in Roles(p) ==> r in active;
      && (GrantError(perms, SwbRead(d, p), Roles(p), active).None? <==> all)
      && (all ==> GrantError(perms + SwbRead(d, p), DataAccess(d, p, level), Roles(p), active).None?)
      && (all && level == ReadWrite ==>
            GrantError(perms + SwbRead(d, p) + DataAccess(d, p, level), Upload(d, p), Roles(p), active).None?)
    ensures perms + ShareGrant(d, p, level)
         == if level == ReadWrite then perms + SwbRead(d, p) + DataAccess(d, p, level) + Upload(d, p)
            else perms + SwbRead(d, p) + DataAccess(d, p, level)
  {
    SharePieces(d, p, level);
    var a, b, c := SwbRead(d, p), DataAccess(d, p, level), if level == ReadWrite then Upload(d, p) else map[];
    hide SwbRead, DataAccess, Upload, Roles;
    assert perms + (a + b + c) == perms + a + b + c;
    assert level == ReadOnly ==> perms + a + b + c == perms + a + b;
  }

  /** Once the first write for an owner goes through, the later ones do too, and together they are the grant. */
  lemma OwnerWrites(perms: Perms, d: string, p: string, active: set<string>)
    requires OwnerGrant(d, p).Keys !! perms.Keys
    ensures
      var all := forall r :: r in Roles(p) ==> r in active;
      var m1 := perms + DataAccess(d, p, ReadWrite);
      var m2 := m1 + OwnerAdmin(d, p);
      var m3 := m2 + OwnerResearcher(d, p);
      var m4 := m3 + OwnerLevels(d, p);
      && (GrantError(perms, DataAccess(d, p, ReadWrite), Roles(p), active).None? <==> all)
      && (all ==> && GrantError(m1, OwnerAdmin(d, p), [RoleName(p, Admin)], active).None?
                  && GrantError(m2, OwnerResearcher(d, p), [RoleName(p, Researcher)], active).None?
                  && GrantError(m3, OwnerLevels(d, p), [RoleName(p, Admin)], active).None?
                  && GrantError(m4, Upload(d, p), Roles(p), active).None?)
      && perms + OwnerGrant(d, p) == m4 + Upload(d, p)
  {
    OwnerPieces(d, p);
    assert RoleName(p, Admin) in Roles(p) && RoleName(p, Researcher) in Roles(p);
    var a, b, c, e, f :=
        DataAccess(d, p, ReadWrite), OwnerAdmin(d, p), OwnerResearcher(d, p), OwnerLevels(d, p), Upload(d, p);
    hide DataAccess, OwnerAdmin, OwnerResearcher, OwnerLevels, Upload, Roles, RoleName, OwnerGrant;
    PlusAssociates(perms, a, b);
    PlusAssociates(perms, a + b, c);
    PlusAssociates(perms, a + b + c, e);
    PlusAssociates(perms, a + b + c + e, f);
    NextFits(perms, a, b, a + b + c + e + f);
    NextFits(perms, a + b, c, a + b + c + e + f);
    NextFits(perms, a + b + c, e, a + b + c + e + f);
    NextFits(perms, a + b + c + e, f, a + b + c + e + f);
  }

  lemma PlusAssociates(m: Perms, a: Perms, b: Perms)
    ensures m + a + b == m + (a + b)
  {}

  lemma NextFits(m: Perms, written: Perms, next: Perms, whole: Perms)
    requires next.Keys !! written.Keys && next.Keys <= whole.Keys && whole.Keys !! m.Keys
    ensures next.Keys !! (m + written).Keys
  {}

  lemma MinusShare(perms: Perms, d: string, p: string)
    ensures perms - SwbRead(d, p).Keys - Upload(d, p).Keys - DataAccess(d, p, ReadWrite).Keys
         == perms - ShareGrant(d, p, ReadWrite).Keys
  {
    hide SwbRead, DataAccess, Upload;
  }

  lemma MinusOwner(perms: Perms, d: string, p: string)
    ensures
      var m := Without(perms, DATASET_SUBJECT, d);
      m - OwnerAdmin(d, p).Keys - OwnerLevels(d, p).Keys - OwnerResearcher(d, p).Keys - Upload(d, p).Keys
      == m - OwnerGrant(d, p).Keys
  {
    OwnerPieces(d, p);
    GrantKeys(DATASET_SUBJECT, d, Roles(p), [READ, UPDATE], Describe(ReadWrite, d));
    hide OwnerAdmin, OwnerResearcher, OwnerLevels, Upload, OwnerGrant, Roles, Grant;
    assert forall k :: k in DataAccess(d, p, ReadWrite) ==> k !in Without(perms, DATASET_SUBJECT, d);
  }

  /** The two roles of a project, and that both are active. */
  lemma RolesAre(p: string, active: set<string>)
    ensures RoleName(p, Admin) == p + "#ProjectAdmin"
    ensures (forall r :: r in Roles(p) ==> r in active)
       <==> p + "#ProjectAdmin" in active && p + "#Researcher" in active
  {
    RoleNameIsRead("", p, Admin);
    assert RoleName(p, Admin) in Roles(p) && RoleName(p, Researcher) in Roles(p);
    hide RoleName;
  }

  // ----- The service -----

  class DataSetService {
    const table: PermissionTable
    var datasets: map<string, DataSet>
    var assoc: map<(string, string), Level>
    ghost var granted: set<string>

    ghost function Abs(): State
      reads this, table
    {
      State(table.perms, datasets, granted, assoc)
    }

    ghost predicate Valid()
      reads this, table
    {
      table.Valid() && table.least >= 5 && Inv(Abs())
    }

    constructor (table: PermissionTable)
      requires table.Valid() && table.least >= 5
      ensures Valid() && this.table == table
      ensures Abs() == State(table.perms, map[], {}, map[])
    {
      this.table := table;
      datasets, assoc, granted := map[], map[], {};
    }

    /** Creates one grant: a permission for every role and action. */
    method AddAuthZPermissions(subjectType: string, d: string, roles: seq<string>, actions: seq<Action>,
                               payload: Payload, active: set<string>)
      returns (error: Option<ServiceError>)
      requires table.Valid()
      requires Distinct(roles) && Distinct(actions) && 0 < |roles| * |actions| <= MAX_BATCH
      requires DELIMITER !in subjectType && DELIMITER !in d && forall r :: r in roles ==> DELIMITER !in r
      modifies table
      ensures table.Valid()
      ensures error == GrantError(old(table.perms), Grant(subjectType, d, roles, actions, payload), roles, active)
      ensures table.perms
          == After(error, old(table.perms), old(table.perms) + Grant(subjectType, d, roles, actions, payload))
    {
      var batch := BuildBatch(subjectType, d, roles, actions, payload);
      CleanProduct(subjectType, d, roles, actions, payload);
      GrantCreation(table.perms, subjectType, d, roles, actions, payload, active);
      ProductIsGrant(subjectType, d, roles, actions, payload);
      hide Product, Grant, GrantError, CreationError, BatchMap, AllClean;
      error := CreateIdentityPermissions(table, batch, active);
    }

    method BuildBatch(subjectType: string, d: string, roles: seq<string>, actions: seq<Action>, payload: Payload)
      returns (batch: seq<Permission>)
      ensures batch == Product(subjectType, d, roles, actions, payload)
    {
      batch := [];
      for i := 0 to |roles|
        invariant batch == Product(subjectType, d, roles[..i], actions, payload)
      {
        for j := 0 to |actions|
          invariant batch == Product(subjectType, d, roles[..i], actions, payload)
              + ForRole(subjectType, d, roles[i], actions[..j], payload)
        {
          ForRoleStep(subjectType, d, roles[i], actions[..j], actions[j], payload);
          assert actions[..j + 1] == actions[..j] + [actions[j]];
          batch := batch + [Permission(Key(subjectType, d, actions[j], roles[i]), payload)];
        }
        ProductStep(subjectType, d, roles[..i], roles[i], actions, payload);
        assert roles[..i + 1] == roles[..i] + [roles[i]] && actions[..|actions|] == actions;
      }
      assert roles[..|roles|] == roles;
    }

    /** Deletes one grant, whether or not all of it was there. */
    method RemoveAuthZPermissions(subjectType: string, d: string, roles: seq<string>, actions: seq<Action>,
                                  ghost payload: Payload)
      requires table.Valid()
      requires Distinct(roles) && Distinct(actions) && 0 < |roles| * |actions| <= MAX_BATCH
      requires DELIMITER !in subjectType && DELIMITER !in d && forall r :: r in roles ==> DELIMITER !in r
      modifies table
      ensures table.Valid()
      ensures table.perms == old(table.perms) - Grant(subjectType, d, roles, actions, payload).Keys
    {
      hide Product, Grant, AllClean, DistinctKeys, KeysOf, Unconditional, DeleteError;
      var batch := BuildBatch(subjectType, d, roles, actions, Unconditional());
      RemovalBatch(subjectType, d, roles, actions, payload, Unconditional());
      var deleted := table.Delete(batch);
      assert deleted.Success?;
    }

    /** Looks a dataset up together with the access levels on it, watching the listing for at most `turns` turns. */
    method GetDataSet(d: string, turns: nat) returns (r: Lookup)
      requires Valid()
      ensures r == Missing <==> d !in datasets
      ensures r != Unreadable
      ensures r.Found? ==> r.dataset == datasets[d]
      ensures r.Found? ==> forall id :: Best(r.permissions, id) == LevelHeld(table.perms, d, id)
      ensures r.Found? ==> |Entries(table.perms, d)| <= TWO_PAGES
      ensures r == Unfinished && turns > 0 ==> |Entries(table.perms, d)| > Min(table.least, DEFAULT_API_PAGE_SIZE)
    {
      if d !in datasets {
        return Missing;
      }
      OnlyAllow(Abs(), d);
      var listing, served := ListPermissions(table, d, turns);
      r := match listing
        case Unended => Unfinished
        case Unlistable => Unreadable
        case Listed(permissions) => Found(datasets[d], permissions);
    }

    /** Shares a dataset with a project: project role reads, access level, upload right, then the association. */
    method AddAccessForProject(p: string, d: string, level: Level, active: set<string>, turns: nat) returns (r: Outcome)
      requires Valid() && PlainId(p) && PlainId(d)
      modifies this, table
      ensures Valid()
      ensures r == StillReading || r == ShareVerdict(old(Abs()), p, d, active)
      ensures r == Done ==>
        && "proj" <= p && d in old(datasets) && old(datasets)[d].owner != p + "#ProjectAdmin" && (d, p) !in old(assoc)
        && p + "#ProjectAdmin" in active && p + "#Researcher" in active
      ensures match r
        case Done => assoc == old(assoc)[(d, p) := level] && datasets == old(datasets)
        case InvalidArgument => !("proj" <= p)
        case DataSetNotFound => d !in old(datasets)
        case AlreadyOwner => d in old(datasets) && old(datasets)[d].owner == p + "#ProjectAdmin"
        case AlreadyAssociated => (d, p) in old(assoc)
        case GroupsNotActive => !(p + "#ProjectAdmin" in active && p + "#Researcher" in active)
        case StillReading => true
        case _ => false
      ensures r == StillReading && turns > 0 ==>
          |old(Entries(table.perms, d))| > Min(table.least, DEFAULT_API_PAGE_SIZE)
      ensures |old(Entries(table.perms, d))| > TWO_PAGES ==>
          ShareVerdict(old(Abs()), p, d, active) in {InvalidArgument, DataSetNotFound} || r == StillReading
      ensures Abs() == if r == Done then Shared(old(Abs()), d, p, level) else old(Abs())
      ensures Step(old(Abs()), Share(p, d, level, active), Abs())
    {
      RolesAre(p, active);
      hide Due, Owned, RoleName, Roles, OwnerGrant, ShareGrant, PlainId, Entries, LevelHeld, Best, Unmentioned;
      if !(PROJECT_PREFIX <= p) {
        return InvalidArgument;
      }
      var lookup := GetDataSet(d, turns);
      match lookup {
        case Missing => return DataSetNotFound;
        case Unfinished => return StillReading;
        case Unreadable => assert false;
        case Found(_, _) =>
      }
      if lookup.dataset.owner == RoleName(p, Admin) {
        return AlreadyOwner;
      }
      if (d, p) in assoc {
        return AlreadyAssociated;
      }
      ghost var before := Abs();
      ShareKeeps(before, d, p, level);
      var ok := WriteShare(p, d, level, active);
      if !ok {
        return GroupsNotActive;
      }
      assoc := assoc[(d, p) := level];
      r := Done;
    }

    method WriteShare(p: string, d: string, level: Level, active: set<string>) returns (ok: bool)
      requires table.Valid() && PlainId(p) && PlainId(d)
      requires ShareGrant(d, p, level).Keys !! table.perms.Keys
      modifies table
      ensures table.Valid()
      ensures ok <==> forall r :: r in Roles(p) ==> r in active
      ensures table.perms == if ok then old(table.perms) + ShareGrant(d, p, level) else old(table.perms)
    {
      WriteInputs(p);
      ShareWrites(table.perms, d, p, level, active);
      hide RoleName, Roles, Grant, ProjectCondition, PlainId, Describe, GrantError, DataAccess, ShareGrant;
      var error := AddAuthZPermissions(SWB_DATASET, d, Roles(p), [READ], ProjectCondition(p), active);
      if error.Some? {
        return false;
      }
      error := AddDataAccess(p, d, level, active);
      if level == ReadWrite {
        error := AddAuthZPermissions(SWB_DATASET_UPLOAD, d, Roles(p), [READ], ProjectCondition(p), active);
      }
      ok := true;
    }

    /** Asks the access-level plugin for both roles of a project. */
    method AddDataAccess(p: string, d: string, level: Level, active: set<string>) returns (error: Option<ServiceError>)
      requires table.Valid() && PlainId(p) && PlainId(d)
      modifies table
      ensures table.Valid()
      ensures error == GrantError(old(table.perms), DataAccess(d, p, level), Roles(p), active)
      ensures table.perms == After(error, old(table.perms), old(table.perms) + DataAccess(d, p, level))
    {
      DataAccessBatch(table.perms, d, p, level, active);
      hide RoleName, Grant, Product, ExpandAll, AllClean, CreationError, GrantError, BatchMap, Describe, DataAccess;
      hide Summary, RowsCreationError;
      var added := AddAccessPermission(table, d, AccessRequests(p, level), active);
      error := if added.Failure? then Some(added.error) else None;
    }

    /** Takes a dataset back from a project. */
    method RemoveAccessForProject(p: string, d: string, mounted: bool, turns: nat) returns (r: Outcome)
      requires Valid() && PlainId(p) && PlainId(d)
      modifies this, table
      ensures Valid()
      ensures r == StillReading || r == UnshareVerdict(old(Abs()), p, d, mounted)
      ensures r == Done ==>
        && "proj" <= p && d in old(datasets) && old(datasets)[d].owner != p + "#ProjectAdmin" && !mounted
      ensures match r
        case Done => assoc == old(assoc) - {(d, p)} && datasets == old(datasets)
        case InvalidArgument => !("proj" <= p)
        case DataSetNotFound => d !in old(datasets)
        case AlreadyOwner => d in old(datasets) && old(datasets)[d].owner == p + "#ProjectAdmin"
        case StillMounted => mounted
        case StillReading => true
        case _ => false
      ensures r == StillReading && turns > 0 ==>
          |old(Entries(table.perms, d))| > Min(table.least, DEFAULT_API_PAGE_SIZE)
      ensures |old(Entries(table.perms, d))| > TWO_PAGES && d in old(datasets) ==> r == StillReading
      ensures Abs() == if r == Done then Unshared(old(Abs()), d, p) else old(Abs())
      ensures Step(old(Abs()), Unshare(p, d, mounted), Abs())
    {
      var lookup := GetDataSet(d, turns);
      match lookup {
        case Missing => return DataSetNotFound;
        case Unfinished => return StillReading;
        case Unreadable => assert false;
        case Found(_, _) =>
      }
      if !(PROJECT_PREFIX <= p) {
        return InvalidArgument;
      }
      if lookup.dataset.owner == RoleName(p, Admin) {
        return AlreadyOwner;
      }
      if mounted {
        return StillMounted;
      }
      UnshareKeeps(Abs(), d, p);
      EraseShare(p, d);
      assoc := assoc - {(d, p)};
      r := Done;
    }

    method EraseShare(p: string, d: string)
      requires table.Valid() && PlainId(p) && PlainId(d)
      modifies table
      ensures table.Valid()
      ensures table.perms == old(table.perms) - ShareGrant(d, p, ReadWrite).Keys
    {
      WriteInputs(p);
      DataAccessBatch(table.perms, d, p, ReadWrite, {});
      MinusShare(table.perms, d, p);
      hide RoleName, Roles, Grant, ProjectCondition, PlainId, Describe, DataAccess, ShareGrant, ExpandAll, AllClean;
      RemoveAuthZPermissions(SWB_DATASET, d, Roles(p), [READ], ProjectCondition(p));
      RemoveAuthZPermissions(SWB_DATASET_UPLOAD, d, Roles(p), [READ], ProjectCondition(p));
      var removed := RemoveAccessPermissions(table, d, AccessRequests(p, ReadWrite));
    }

    /** Creates a dataset for a project; `d` is the generated id, `storageOk` what the storage checks answer. */
    method ProvisionDataSet(p: string, d: string, name: string, storageOk: bool, active: set<string>)
      returns (r: Outcome)
      requires Valid() && PlainId(p) && PlainId(d) && d != WILDCARD && Unmentioned(Abs(), d)
      modifies this, table
      ensures Valid()
      ensures r == ProvisionVerdict(old(Abs()), p, name, storageOk, active)
      ensures r == Done ==>
        && "proj" <= p && storageOk && (forall x :: x in old(datasets) ==> old(datasets)[x].name != name)
        && p + "#ProjectAdmin" in active && p + "#Researcher" in active
      ensures match r
        case Done => datasets == old(datasets)[d := DataSet(name, p + "#ProjectAdmin", [])] && assoc == old(assoc)
        case InvalidArgument => !("proj" <= p)
        case StorageRejected => !storageOk
        case DataSetExists => exists x :: x in old(datasets) && old(datasets)[x].name == name
        case GroupsNotActive => !(p + "#ProjectAdmin" in active && p + "#Researcher" in active)
        case _ => false
      ensures Abs() ==
        var dataset := DataSet(name, RoleName(p, Admin), []);
        if r == Done then Provisioned(old(Abs()), d, p, dataset)
        else if r == GroupsNotActive then Stored(old(Abs()), d, dataset)
        else old(Abs())
      ensures Step(old(Abs()), Provision(p, d, name, storageOk, active), Abs())
    {
      RolesAre(p, active);
      hide Due, Owned, RoleName, Roles, OwnerGrant, PlainId, Unmentioned;
      if !(PROJECT_PREFIX <= p) {
        return InvalidArgument;
      }
      if !storageOk {
        return StorageRejected;
      }
      if exists x :: x in datasets && datasets[x].name == name {
        return DataSetExists;
      }
      var dataset := DataSet(name, RoleName(p, Admin), []);
      ProvisionKeeps(Abs(), d, p, dataset);
      datasets := datasets[d := dataset];
      var ok := WriteOwner(p, d, active);
      if !ok {
        return GroupsNotActive;
      }
      granted := granted + {d};
      r := Done;
    }

    method WriteOwner(p: string, d: string, active: set<string>) returns (ok: bool)
      requires table.Valid() && PlainId(p) && PlainId(d)
      requires OwnerGrant(d, p).Keys !! table.perms.Keys
      modifies table
      ensures table.Valid()
      ensures ok <==> forall r :: r in Roles(p) ==> r in active
      ensures table.perms == if ok then old(table.perms) + OwnerGrant(d, p) else old(table.perms)
    {
      WriteInputs(p);
      OwnerWrites(table.perms, d, p, active);
      assert RoleName(p, Admin) in Roles(p) && RoleName(p, Researcher) in Roles(p);
      hide RoleName, Roles, Grant, ProjectCondition, Unconditional, PlainId, Describe, GrantError, DataAccess,
          OwnerGrant;
      var error := AddDataAccess(p, d, ReadWrite, active);
      if error.Some? {
        return false;
      }
      error := AddAuthZPermissions(SWB_DATASET, d, [RoleName(p, Admin)], [READ, UPDATE, DELETE], ProjectCondition(p),
          active);
      error := AddAuthZPermissions(SWB_DATASET, d, [RoleName(p, Researcher)], [READ], ProjectCondition(p), active);
      error := AddAuthZPermissions(SWB_DATASET_ACCESS_LEVEL, d, [RoleName(p, Admin)], [READ, UPDATE, DELETE],
          Unconditional(), active);
      error := AddAuthZPermissions(SWB_DATASET_UPLOAD, d, Roles(p), [READ], ProjectCondition(p), active);
      ok := true;
    }

    /** The projects other than the owner's that the first page of a dataset's permissions shows. */
    method AssociatedProjects(d: string) returns (projects: set<string>)
      requires Valid() && d in datasets
      ensures projects == {} <==> forall q :: (d, q) !in assoc
      ensures forall q :: q in projects ==> (d, q) in assoc
    {
      var page, scanned := table.PageBySubject(SWB_DATASET, d, None, None, None, 0);
      KeepAll(scanned);
      var items := page.value.items;
      SwbPrefix(table.rows, table.perms, d, scanned);
      FirstPageShowsForeignProjects(Abs(), table.rows, d, scanned);
      projects := set k | k in items && Foreign(datasets[d], k.key) :: ProjectOf(k.key.identity.id);
      forall k | k in items && Foreign(datasets[d], k.key)
        ensures ProjectOf(k.key.identity.id) in projects && (d, ProjectOf(k.key.identity.id)) in assoc
      {
        HeldUnderSwbDataset(Abs(), k.key);
      }
    }

    /** Removes a dataset that no other project is associated with, and everything its owner held on it. */
    method RemoveDataSet(d: string, turns: nat) returns (r: Outcome)
      requires Valid() && PlainId(d)
      modifies this, table
      ensures Valid()
      ensures r == StillReading || r == RemoveVerdict(old(Abs()), d)
      ensures r == Done ==>
        && d in old(datasets) && old(datasets)[d].externalEndpoints == [] && forall q :: (d, q) !in old(assoc)
      ensures match r
        case Done => datasets == old(datasets) - {d} && assoc == old(assoc)
        case DataSetNotFound => d !in old(datasets)
        case StillAssociated => exists q :: (d, q) in old(assoc)
        case HasEndpoints => d in old(datasets) && old(datasets)[d].externalEndpoints != []
        case StillReading => true
        case _ => false
      ensures r == StillReading && turns > 0 ==>
          |old(Entries(table.perms, d))| > Min(table.least, DEFAULT_API_PAGE_SIZE)
      ensures |old(Entries(table.perms, d))| > TWO_PAGES && d in old(datasets) ==> r == StillReading
      ensures r != Done ==> Abs() == old(Abs())
      ensures r == Done ==> Abs() == Removed(old(Abs()), d, OwnerProject(old(datasets[d])))
      ensures r == Done ==> Unmentioned(Abs(), d)
      ensures Step(old(Abs()), Remove(d), Abs())
    {
      hide Due, Owned, RoleName, OwnerGrant, PlainId, Unmentioned, Entries, LevelHeld, Best, Represents,
          DistinctRowKeys, OwnerProject;
      var lookup := GetDataSet(d, turns);
      match lookup {
        case Missing => return DataSetNotFound;
        case Unfinished => return StillReading;
        case Unreadable => assert false;
        case Found(_, _) =>
      }
      var projects := AssociatedProjects(d);
      if projects != {} {
        return StillAssociated;
      }
      lookup := GetDataSet(d, turns);
      if lookup == Unfinished {
        return StillReading;
      }
      if lookup.dataset.externalEndpoints != [] {
        return HasEndpoints;
      }
      var p := OwnerProject(lookup.dataset);
      OwnerRole(d, lookup.dataset);
      RemoveKeeps(Abs(), d, p);
      EraseOwner(p, d);
      datasets := datasets - {d};
      granted := granted - {d};
      r := Done;
    }

    method EraseOwner(p: string, d: string)
      requires table.Valid() && PlainId(p) && PlainId(d)
      modifies table
      ensures table.Valid()
      ensures table.perms == Without(old(table.perms), DATASET_SUBJECT, d) - OwnerGrant(d, p).Keys
    {
      WriteInputs(p);
      MinusOwner(table.perms, d, p);
      assert RoleName(p, Admin) in Roles(p) && RoleName(p, Researcher) in Roles(p);
      hide RoleName, Roles, Grant, ProjectCondition, Unconditional, PlainId, Describe, DataAccess, OwnerGrant, Without;
      var removed := table.DeleteSubject(DATASET_SUBJECT, d);
      RemoveAuthZPermissions(SWB_DATASET, d, [RoleName(p, Admin)], [READ, UPDATE, DELETE], ProjectCondition(p));
      RemoveAuthZPermissions(SWB_DATASET_ACCESS_LEVEL, d, [RoleName(p, Admin)], [READ, UPDATE, DELETE],
          Unconditional());
      RemoveAuthZPermissions(SWB_DATASET, d, [RoleName(p, Researcher)], [READ], ProjectCondition(p));
      RemoveAuthZPermissions(SWB_DATASET_UPLOAD, d, Roles(p), [READ], ProjectCondition(p));
    }
  }

  lemma OnlyAllow(s: State, d: string)
    requires Inv(s) && d in s.datasets
    ensures OnlyAllows(s.perms, d)
  {
    forall k | k in s.perms && OnSubject(k, DATASET_SUBJECT, d, None)
      ensures k.effect == ALLOW
    {
      assert Due(s, k);
    }
  }
}
