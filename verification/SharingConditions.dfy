/**
 * The conditions that shared permissions carry: a role's rights on a dataset hold only for requests made on behalf of
 * the role's own project.
 */
module SharingConditions {
  import opened Prelude
  import opened PermissionKeys
  import opened PermissionStore
  import opened Authorization
  import opened AccessLevels
  import opened DatasetReading
  import opened DatasetGrants
  import opened DatasetSharing

  // ----- What every entry on a known dataset carries -----

  /** An entry under these types names the project of its role in its condition; any other has no condition. */
  ghost predicate Worded(k: PermKey, payload: Payload) {
    && payload.fields.None? && RoleParts(k.identity.id).Some?
    && if k.subjectType == "SWB_DATASET" || k.subjectType == "SWB_DATASET_UPLOAD"
       then payload.conditions == Some("{\"projectId\":{\"$eq\":\"" + RoleParts(k.identity.id).value.0 + "\"}}")
       else payload.conditions.None?
  }

  ghost predicate AllWorded(perms: Perms) {
    forall k :: k in perms ==> Worded(k, perms[k])
  }

  lemma WordedPlus(a: Perms, b: Perms)
    requires AllWorded(a) && AllWorded(b)
    ensures AllWorded(a + b)
  {
    hide Worded;
  }

  ghost predicate RolesOf(roles: seq<string>, p: string) {
    forall r :: r in roles ==> RoleParts(r).Some? && RoleParts(r).value.0 == p
  }

  lemma TheseRoles(p: string)
    ensures RolesOf(Roles(p), p) && RolesOf([RoleName(p, Admin)], p) && RolesOf([RoleName(p, Researcher)], p)
  {
    RoleNameIsRead(RoleName(p, Admin), p, Admin);
    RoleNameIsRead(RoleName(p, Researcher), p, Researcher);
    hide RoleName, RoleParts;
  }

  lemma WordedGrant(subjectType: string, d: string, roles: seq<string>, actions: seq<Action>, payload: Payload,
                    p: string)
    requires RolesOf(roles, p) && payload.fields.None?
    requires payload.conditions ==
      if subjectType == "SWB_DATASET" || subjectType == "SWB_DATASET_UPLOAD"
      then Some("{\"projectId\":{\"$eq\":\"" + p + "\"}}") else None
    ensures AllWorded(Grant(subjectType, d, roles, actions, payload))
  {
    GrantKeys(subjectType, d, roles, actions, payload);
    GrantPayload(subjectType, d, roles, actions, payload);
    hide Grant, RoleParts;
  }

  lemma AccessWorded(d: string, p: string, level: Level)
    ensures AllWorded(DataAccess(d, p, level)) && AllWorded(SwbRead(d, p)) && AllWorded(Upload(d, p))
  {
    SubjectTypesDiffer();
    TheseRoles(p);
    var condition := Some("{\"projectId\":{\"$eq\":\"" + p + "\"}}");
    assert ProjectCondition(p).conditions == condition && ProjectCondition(p).fields.None?;
    assert Describe(level, d).conditions.None? && Describe(level, d).fields.None?;
    hide AllWorded, Grant, Roles, ProjectCondition, Describe, RolesOf;
    WordedGrant(DATASET_SUBJECT, d, Roles(p), LevelActions(level), Describe(level, d), p);
    WordedGrant(SWB_DATASET, d, Roles(p), [READ], ProjectCondition(p), p);
    WordedGrant(SWB_DATASET_UPLOAD, d, Roles(p), [READ], ProjectCondition(p), p);
  }

  lemma OwnerWorded(d: string, p: string)
    ensures AllWorded(OwnerAdmin(d, p)) && AllWorded(OwnerResearcher(d, p)) && AllWorded(OwnerLevels(d, p))
  {
    SubjectTypesDiffer();
    TheseRoles(p);
    var condition := Some("{\"projectId\":{\"$eq\":\"" + p + "\"}}");
    assert ProjectCondition(p).conditions == condition && ProjectCondition(p).fields.None?;
    assert Unconditional().conditions.None? && Unconditional().fields.None?;
    hide AllWorded, Grant, RoleName, ProjectCondition, Unconditional, RolesOf;
    WordedGrant(SWB_DATASET, d, [RoleName(p, Admin)], [READ, UPDATE, DELETE], ProjectCondition(p), p);
    WordedGrant(SWB_DATASET, d, [RoleName(p, Researcher)], [READ], ProjectCondition(p), p);
    WordedGrant(SWB_DATASET_ACCESS_LEVEL, d, [RoleName(p, Admin)], [READ, UPDATE, DELETE], Unconditional(), p);
  }

  lemma GrantsWorded(d: string, p: string, level: Level)
    ensures AllWorded(ShareGrant(d, p, level)) && AllWorded(OwnerGrant(d, p))
  {
    AccessWorded(d, p, level);
    AccessWorded(d, p, ReadWrite);
    OwnerWorded(d, p);
    OwnerPieces(d, p);
    hide AllWorded, SwbRead, DataAccess, Upload, OwnerAdmin, OwnerResearcher, OwnerLevels, OwnerGrant;
    var share := SwbRead(d, p) + DataAccess(d, p, level);
    WordedPlus(SwbRead(d, p), DataAccess(d, p, level));
    WordedPlus(share, Upload(d, p));
    assert share + map[] == share;
    var first := DataAccess(d, p, ReadWrite) + OwnerAdmin(d, p);
    WordedPlus(DataAccess(d, p, ReadWrite), OwnerAdmin(d, p));
    WordedPlus(first, OwnerResearcher(d, p));
    WordedPlus(first + OwnerResearcher(d, p), OwnerLevels(d, p));
    WordedPlus(first + OwnerResearcher(d, p) + OwnerLevels(d, p), Upload(d, p));
  }

  // ----- Over every run -----

  /** No entry under the three types covers all datasets. */
  ghost predicate NothingForAll(perms: Perms) {
    forall k :: k in perms && k.subjectType in {"SWB_DATASET", "SWB_DATASET_UPLOAD", "SWB_DATASET_ACCESS_LEVEL"} ==>
      k.subjectId != WILDCARD
  }

  /** Every entry on a known dataset is worded so, and none covers all datasets. */
  ghost predicate Conditioned(s: State) {
    && (forall k :: k in s.perms && k.subjectId in s.datasets ==> Worded(k, s.perms[k]))
    && NothingForAll(s.perms)
  }

  lemma ConditionedPlus(s: State, grant: Perms, d: string, s': State)
    requires Conditioned(s) && s'.perms == s.perms + grant && s'.datasets.Keys <= s.datasets.Keys + {d}
    requires d != WILDCARD && (d in s.datasets || forall k :: k in s.perms ==> k.subjectId != d)
    requires forall k :: k in grant ==> k.subjectId == d
    requires AllWorded(grant)
    ensures Conditioned(s')
  {
    hide Worded;
  }

  lemma ProvisionKeepsConditioned(s: State, d: string, p: string, dataset: DataSet)
    requires Conditioned(s) && Unmentioned(s, d) && d != WILDCARD
    ensures Conditioned(Stored(s, d, dataset)) && Conditioned(Provisioned(s, d, p, dataset))
  {
    hide OwnerGrant, Conditioned, WILDCARD, Worded;
    OwnerGrantOnDataset(d, p);
    GrantsWorded(d, p, ReadWrite);
    assert s.perms + map[] == s.perms && AllWorded(map[]);
    hide AllWorded;
    ConditionedPlus(s, map[], d, Stored(s, d, dataset));
    ConditionedPlus(s, OwnerGrant(d, p), d, Provisioned(s, d, p, dataset));
  }

  lemma ShareKeepsConditioned(s: State, d: string, p: string, level: Level)
    requires Conditioned(s) && Inv(s) && d in s.datasets
    ensures Conditioned(Shared(s, d, p, level))
  {
    ShareGrantOnDataset(d, p, level);
    GrantsWorded(d, p, level);
    assert Owned(d, s.datasets[d]);
    hide OwnerGrant, ShareGrant, RoleParts, Conditioned, Inv, AllWorded;
    ConditionedPlus(s, ShareGrant(d, p, level), d, Shared(s, d, p, level));
  }

  lemma StepKeepsConditioned(s: State, op: Op, s': State)
    requires Inv(s) && Conditioned(s) && Step(s, op, s')
    ensures Conditioned(s')
  {
    hide Inv, RoleName, ShareGrant, OwnerGrant, PlainId, Worded, Entries;
    if s' != s {
      match op
      case Provision(p, d, name, _, _) => ProvisionKeepsConditioned(s, d, p, DataSet(name, RoleName(p, Admin), []));
      case Share(p, d, level, _) => ShareKeepsConditioned(s, d, p, level);
      case Unshare(p, d, _) =>
      case Remove(d) =>
    }
  }

  lemma RunStartsConditioned(trace: seq<State>, ops: seq<Op>)
    requires Run(trace, ops)
    requires NothingForAll(trace[0].perms)
    ensures Conditioned(trace[0])
  {
    hide Step, Worded;
  }

  /**
   * In every state of every run each entry on a known dataset carries its condition: under SWB_DATASET and
   * SWB_DATASET_UPLOAD the literal text that names the project of its role, under the other types none.
   */
  lemma {:induction false} RunKeepsConditioned(trace: seq<State>, ops: seq<Op>, i: nat)
    requires Run(trace, ops) && i < |trace|
    requires NothingForAll(trace[0].perms)
    ensures Conditioned(trace[i])
  {
    hide *;
    if i == 0 {
      RunStartsConditioned(trace, ops);
    } else {
      RunKeepsConditioned(trace, ops, i - 1);
      RunKeeps(trace, ops, i - 1);
      RunSteps(trace, ops, i);
      StepKeepsConditioned(trace[i - 1], ops[i - 1], trace[i]);
    }
  }

  // ----- What that means for the decision -----

  /** The rule library admits that text exactly for requests on behalf of the project it names. */
  ghost predicate AdmitsByProject(matches: Matcher) {
    forall p: string, description: Option<string>, op: Operation ::
      matches(false, Payload(Some("{\"projectId\":{\"$eq\":\"" + p + "\"}}"), None, description), op) <==>
        "projectId" in op.attributes && op.attributes["projectId"] == p
  }

  /** A project may see a dataset that it owns, with its permissions in place, or that is shared with it. */
  ghost predicate MaySee(s: State, d: string, p: string)
    requires d in s.datasets
  {
    if s.datasets[d].owner == RoleName(p, Admin) then d in s.granted else (d, p) in s.assoc
  }

  /** A project may upload to a dataset that it owns, with its permissions in place, or that is shared read-write. */
  ghost predicate MayUpload(s: State, d: string, p: string)
    requires d in s.datasets
  {
    if s.datasets[d].owner == RoleName(p, Admin) then d in s.granted
    else (d, p) in s.assoc && s.assoc[(d, p)] == ReadWrite
  }

  /** The entry by which a role has a right. */
  ghost predicate ByRole(s: State, k: PermKey, op: Operation, groups: seq<string>) {
    && k in s.perms && k.action == op.action && k.subjectType == op.subjectType && k.subjectId == op.subjectId
    && k.identity.kind == GROUP && k.identity.id in groups
    && RoleParts(k.identity.id).Some?
  }

  /** An entry on the dataset itself decides: it is an ALLOW for a role among the groups, and the matcher admits it. */
  lemma DecidedByRole(s: State, op: Operation, userId: string, groups: seq<string>, matches: Matcher)
    requires Inv(s) && op.subjectId in s.datasets
    requires forall k :: k in s.perms && k.subjectType == op.subjectType ==> k.subjectId != WILDCARD
    ensures Grants(s.perms, op, Identities(userId, groups), matches) <==>
      exists k :: ByRole(s, k, op, groups) && matches(false, s.perms[k], op)
  {
    forall p | Holds(s.perms, p) && Speaks(p, op, Identities(userId, groups), matches)
      ensures p.key.effect == ALLOW && ByRole(s, p.key, op, groups) && matches(false, s.perms[p.key], op)
    {
      assert Due(s, p.key);
    }
    forall k | ByRole(s, k, op, groups) && matches(false, s.perms[k], op)
      ensures Holds(s.perms, Permission(k, s.perms[k])) && k.effect == ALLOW
      ensures Speaks(Permission(k, s.perms[k]), op, Identities(userId, groups), matches)
    {
      assert Due(s, k);
    }
    hide Inv, Speaks, ByRole, RoleParts, Due;
  }

  /**
   * Under the two types a right is granted exactly to requests on behalf of the project of some role among the
   * groups, to which the right is due.
   */
  lemma GrantedForProject(s: State, op: Operation, userId: string, groups: seq<string>, matches: Matcher)
    requires Inv(s) && Conditioned(s) && op.subjectId in s.datasets && AdmitsByProject(matches)
    requires op.subjectType == "SWB_DATASET" || op.subjectType == "SWB_DATASET_UPLOAD"
    ensures Grants(s.perms, op, Identities(userId, groups), matches) <==>
      && "projectId" in op.attributes
      && var q := op.attributes["projectId"];
         exists kind :: RoleName(q, kind) in groups && RoleDue(s, op.subjectId, q, kind, op.subjectType, op.action)
  {
    DecidedByRole(s, op, userId, groups, matches);
    forall k | ByRole(s, k, op, groups)
      ensures matches(false, s.perms[k], op) <==>
        "projectId" in op.attributes && op.attributes["projectId"] == RoleParts(k.identity.id).value.0
    {
      WordedMatches(k, s.perms[k], op, matches);
    }
    if "projectId" in op.attributes {
      var q := op.attributes["projectId"];
      forall k | ByRole(s, k, op, groups) && matches(false, s.perms[k], op)
        ensures exists kind ::
            RoleName(q, kind) in groups && RoleDue(s, op.subjectId, q, kind, op.subjectType, op.action)
      {
        var kind := RoleParts(k.identity.id).value.1;
        RoleNameIsRead(k.identity.id, q, kind);
        assert Due(s, k);
        assert RoleName(q, kind) in groups;
      }
      forall kind | RoleName(q, kind) in groups && RoleDue(s, op.subjectId, q, kind, op.subjectType, op.action)
        ensures exists k :: ByRole(s, k, op, groups) && matches(false, s.perms[k], op)
      {
        var k := Key(op.subjectType, op.subjectId, op.action, RoleName(q, kind));
        RoleNameIsRead(RoleName(q, kind), q, kind);
        assert Due(s, k);
        assert ByRole(s, k, op, groups);
      }
    }
  }

  lemma WordedMatches(k: PermKey, payload: Payload, op: Operation, matches: Matcher)
    requires Worded(k, payload) && AdmitsByProject(matches)
    requires k.subjectType == "SWB_DATASET" || k.subjectType == "SWB_DATASET_UPLOAD"
    ensures matches(false, payload, op) <==>
      "projectId" in op.attributes && op.attributes["projectId"] == RoleParts(k.identity.id).value.0
  {
    var p := RoleParts(k.identity.id).value.0;
    assert payload == Payload(Some("{\"projectId\":{\"$eq\":\"" + p + "\"}}"), None, payload.description);
  }

  /**
   * In every state of every run, for every caller: reading a dataset on behalf of a project is granted exactly when
   * one of the caller's groups is a role of that very project and the project owns the dataset or shares it; changing
   * or deleting it, when it is the admin role of the owner; and uploading to it, when the project owns it or shares it
   * read-write. Without a project in the request nothing of this is granted.
   */
  lemma GrantedOnBehalf(trace: seq<State>, ops: seq<Op>, i: nat, d: string, attributes: map<string, string>,
                        userId: string, groups: seq<string>, matches: Matcher)
    requires Run(trace, ops) && i < |trace| && d in trace[i].datasets && AdmitsByProject(matches)
    requires NothingForAll(trace[0].perms)
    ensures
      var s, ids := trace[i], Identities(userId, groups);
      if "projectId" !in attributes then
        forall action, subjectType :: subjectType in {"SWB_DATASET", "SWB_DATASET_UPLOAD"} ==>
          !Grants(s.perms, Operation(action, subjectType, d, None, attributes), ids, matches)
      else
        var q := attributes["projectId"];
        var member := exists kind :: RoleName(q, kind) in groups;
        var admin := RoleName(q, Admin) in groups && s.datasets[d].owner == RoleName(q, Admin) && d in s.granted;
        && (Grants(s.perms, Operation(READ, "SWB_DATASET", d, None, attributes), ids, matches)
            <==> member && MaySee(s, d, q))
        && (Grants(s.perms, Operation(UPDATE, "SWB_DATASET", d, None, attributes), ids, matches) <==> admin)
        && (Grants(s.perms, Operation(DELETE, "SWB_DATASET", d, None, attributes), ids, matches) <==> admin)
        && (Grants(s.perms, Operation(READ, "SWB_DATASET_UPLOAD", d, None, attributes), ids, matches)
            <==> member && MayUpload(s, d, q))
  {
    var s := trace[i];
    RunKeeps(trace, ops, i);
    RunKeepsConditioned(trace, ops, i);
    SubjectTypesDiffer();
    forall action, subjectType | subjectType in {"SWB_DATASET", "SWB_DATASET_UPLOAD"} {
      GrantedForProject(s, Operation(action, subjectType, d, None, attributes), userId, groups, matches);
    }
    hide Run, Inv, Conditioned, Grants, Identities, RoleName, AdmitsByProject;
  }

  /** Access levels are for the admin role of the owner alone, whatever the request is made on behalf of. */
  lemma LevelsForOwnerAdmin(trace: seq<State>, ops: seq<Op>, i: nat, d: string, action: Action,
                            attributes: map<string, string>, userId: string, groups: seq<string>, matches: Matcher)
    requires Run(trace, ops) && i < |trace| && d in trace[i].datasets && AdmitsUnconditional(matches)
    requires NothingForAll(trace[0].perms)
    ensures
      var s := trace[i];
      Grants(s.perms, Operation(action, "SWB_DATASET_ACCESS_LEVEL", d, None, attributes), Identities(userId, groups),
          matches)
      <==> action in {READ, UPDATE, DELETE} && d in s.granted && s.datasets[d].owner in groups
  {
    var s, op := trace[i], Operation(action, "SWB_DATASET_ACCESS_LEVEL", d, None, attributes);
    RunKeeps(trace, ops, i);
    RunKeepsConditioned(trace, ops, i);
    SubjectTypesDiffer();
    assert Owned(d, s.datasets[d]);
    OwnerRole(d, s.datasets[d]);
    var p := OwnerProject(s.datasets[d]);
    RoleNameIsRead(RoleName(p, Admin), p, Admin);
    DecidedByRole(s, op, userId, groups, matches);
    hide Run, Grants, Identities, RoleName;
    forall k | ByRole(s, k, op, groups)
      ensures matches(false, s.perms[k], op) && k.identity.id == s.datasets[d].owner && d in s.granted
      ensures action in {READ, UPDATE, DELETE}
    {
      assert Due(s, k);
      var q, kind := RoleParts(k.identity.id).value.0, RoleParts(k.identity.id).value.1;
      RoleNameIsRead(k.identity.id, q, kind);
      assert Worded(k, s.perms[k]);
    }
    if action in {READ, UPDATE, DELETE} && d in s.granted && s.datasets[d].owner in groups {
      var k := Key("SWB_DATASET_ACCESS_LEVEL", d, action, RoleName(p, Admin));
      assert Due(s, k);
      assert ByRole(s, k, op, groups);
    }
  }
}
