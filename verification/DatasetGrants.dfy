/** Project roles and the grants given to them: products of roles and actions on one subject. */
module DatasetGrants {
  import opened Prelude
  import opened PermissionKeys
  import opened PermissionStore
  import opened AccessLevels

  const SWB_DATASET: string := "SWB_DATASET"
  const SWB_DATASET_ACCESS_LEVEL: string := "SWB_DATASET_ACCESS_LEVEL"
  const SWB_DATASET_UPLOAD: string := "SWB_DATASET_UPLOAD"

  // ----- Roles -----

  datatype Kind = Admin | Researcher

  const ADMIN_SUFFIX: string := "#ProjectAdmin"
  const RESEARCHER_SUFFIX: string := "#Researcher"

  function RoleName(project: string, kind: Kind): string {
    project + if kind == Admin then ADMIN_SUFFIX else RESEARCHER_SUFFIX
  }

  predicate EndsWith(s: string, suffix: string) {
    |suffix| <= |s| && s[|s| - |suffix|..] == suffix
  }

  function RoleParts(role: string): Option<(string, Kind)> {
    if EndsWith(role, ADMIN_SUFFIX) then Some((role[..|role| - |ADMIN_SUFFIX|], Admin))
    else if EndsWith(role, RESEARCHER_SUFFIX) then Some((role[..|role| - |RESEARCHER_SUFFIX|], Researcher))
    else None
  }

  lemma SuffixKnown(s: string, suffix: string)
    requires suffix != ""
    ensures EndsWith(s, suffix) ==> s == s[..|s| - |suffix|] + suffix && s[|s| - 1] == suffix[|suffix| - 1]
  {
    if EndsWith(s, suffix) {
      assert s == s[..|s| - |suffix|] + s[|s| - |suffix|..];
    }
  }

  lemma RoleNameIsRead(role: string, project: string, kind: Kind)
    ensures RoleParts(role) == Some((project, kind)) <==> role == RoleName(project, kind)
    ensures RoleName(project, Admin) == project + "#ProjectAdmin"
    ensures RoleName(project, Researcher) == project + "#Researcher"
  {
    SuffixKnown(role, ADMIN_SUFFIX);
    SuffixKnown(role, RESEARCHER_SUFFIX);
    if role == RoleName(project, kind) {
      var suffix := if kind == Admin then ADMIN_SUFFIX else RESEARCHER_SUFFIX;
      assert role[..|project|] == project && role[|project|..] == suffix;
      assert role[|role| - 1] == suffix[|suffix| - 1];
    }
  }

  /** Ids as the service generates them: free of the characters it later splits on. */
  predicate PlainId(id: string) {
    '#' !in id && DELIMITER !in id
  }

  /** The project a role name is read as belonging to. */
  function ProjectOf(role: string): string {
    Split(role, '#')[0]
  }

  lemma ProjectOfRole(project: string, kind: Kind)
    requires '#' !in project
    ensures ProjectOf(RoleName(project, kind)) == project
  {
    var rest := if kind == Admin then "ProjectAdmin" else "Researcher";
    assert RoleName(project, kind) == project + ['#'] + rest;
    SplitJoined(project, rest, '#');
    SplitPlain(project, '#');
  }

  // ----- Grants: the product of roles and actions on one subject -----

  function Key(subjectType: string, subjectId: string, action: Action, role: string): PermKey {
    PermKey(subjectType, subjectId, action, ALLOW, Identity(GROUP, role))
  }

  ghost function Grant(subjectType: string, subjectId: string, roles: seq<string>, actions: seq<Action>,
                       payload: Payload): Perms {
    map r, a | r in roles && a in actions :: Key(subjectType, subjectId, a, r) := payload
  }

  ghost predicate InGrant(k: PermKey, subjectType: string, subjectId: string, roles: seq<string>,
                          actions: seq<Action>) {
    && k.subjectType == subjectType && k.subjectId == subjectId && k.effect == ALLOW
    && k.identity.kind == GROUP && k.identity.id in roles && k.action in actions
  }

  lemma GrantKeys(subjectType: string, subjectId: string, roles: seq<string>, actions: seq<Action>, payload: Payload)
    ensures forall k ::
        k in Grant(subjectType, subjectId, roles, actions, payload)
        <==> InGrant(k, subjectType, subjectId, roles, actions)
  {
    forall k: PermKey | InGrant(k, subjectType, subjectId, roles, actions)
      ensures k in Grant(subjectType, subjectId, roles, actions, payload)
    {
      assert k == Key(subjectType, subjectId, k.action, k.identity.id);
    }
  }

  function ForRole(subjectType: string, subjectId: string, role: string, actions: seq<Action>,
                   payload: Payload): seq<Permission> {
    if actions == [] then
      []
    else
      ForRole(subjectType, subjectId, role, actions[..|actions| - 1], payload)
      + [Permission(Key(subjectType, subjectId, actions[|actions| - 1], role), payload)]
  }

  function Product(subjectType: string, subjectId: string, roles: seq<string>, actions: seq<Action>,
                   payload: Payload): seq<Permission> {
    if roles == [] then
      []
    else
      Product(subjectType, subjectId, roles[..|roles| - 1], actions, payload)
      + ForRole(subjectType, subjectId, roles[|roles| - 1], actions, payload)
  }

  lemma {:induction false} ForRoleAt(subjectType: string, subjectId: string, role: string, actions: seq<Action>,
                                     payload: Payload)
    ensures
      var batch := ForRole(subjectType, subjectId, role, actions, payload);
      && |batch| == |actions|
      && forall i :: 0 <= i < |batch| ==> batch[i] == Permission(Key(subjectType, subjectId, actions[i], role), payload)
  {
    hide Key;
    if actions == [] {
    } else {
      ForRoleAt(subjectType, subjectId, role, actions[..|actions| - 1], payload);
    }
  }

  lemma ForRoleHolds(subjectType: string, subjectId: string, role: string, actions: seq<Action>, payload: Payload)
    requires Distinct(actions)
    ensures
      var batch := ForRole(subjectType, subjectId, role, actions, payload);
      && |batch| == |actions| && DistinctKeys(batch)
      && (forall p :: p in batch ==> p.payload == payload && InGrant(p.key, subjectType, subjectId, [role], actions))
      && (forall a :: a in actions ==> Permission(Key(subjectType, subjectId, a, role), payload) in batch)
  {
    ForRoleAt(subjectType, subjectId, role, actions, payload);
    var batch := ForRole(subjectType, subjectId, role, actions, payload);
    forall a | a in actions
      ensures Permission(Key(subjectType, subjectId, a, role), payload) in batch
    {
      var i :| 0 <= i < |actions| && actions[i] == a;
      assert batch[i] == Permission(Key(subjectType, subjectId, a, role), payload);
    }
    hide ForRole;
  }

  lemma DistinctKeysConcat(a: seq<Permission>, b: seq<Permission>)
    requires DistinctKeys(a) && DistinctKeys(b)
    requires forall p, q :: p in a && q in b ==> p.key != q.key
    ensures DistinctKeys(a + b)
  {
    assert forall i :: 0 <= i < |a| ==> a[i] in a;
    assert forall i :: 0 <= i < |b| ==> b[i] in b;
  }

  lemma {:induction false} ProductHolds(subjectType: string, subjectId: string, roles: seq<string>,
                                        actions: seq<Action>, payload: Payload)
    requires Distinct(roles) && Distinct(actions)
    ensures DistinctKeys(Product(subjectType, subjectId, roles, actions, payload))
    ensures forall p :: p in Product(subjectType, subjectId, roles, actions, payload) ==>
        p.payload == payload && InGrant(p.key, subjectType, subjectId, roles, actions)
    ensures forall r, a :: r in roles && a in actions ==>
        Permission(Key(subjectType, subjectId, a, r), payload) in Product(subjectType, subjectId, roles, actions,
            payload)
  {
    if roles == [] {
    } else {
      var front, last := roles[..|roles| - 1], roles[|roles| - 1];
      assert roles == front + [last];
      ProductHolds(subjectType, subjectId, front, actions, payload);
      ForRoleHolds(subjectType, subjectId, last, actions, payload);
      var before, more :=
          Product(subjectType, subjectId, front, actions, payload),
          ForRole(subjectType, subjectId, last, actions, payload);
      assert last !in front;
      DistinctKeysConcat(before, more);
    }
  }

  lemma {:induction false} ProductSize(subjectType: string, subjectId: string, roles: seq<string>,
                                       actions: seq<Action>, payload: Payload)
    requires Distinct(actions)
    ensures |Product(subjectType, subjectId, roles, actions, payload)| == |roles| * |actions|
  {
    if roles == [] {
    } else {
      ProductSize(subjectType, subjectId, roles[..|roles| - 1], actions, payload);
      ForRoleHolds(subjectType, subjectId, roles[|roles| - 1], actions, payload);
      hide ForRole, DistinctKeys, InGrant;
      assert |roles| * |actions| == (|roles| - 1) * |actions| + |actions|;
    }
  }

  lemma ProductKeys(subjectType: string, subjectId: string, roles: seq<string>, actions: seq<Action>, payload: Payload)
    requires Distinct(roles) && Distinct(actions)
    ensures
      var batch := Product(subjectType, subjectId, roles, actions, payload);
      && DistinctKeys(batch) && (forall p :: p in batch ==> p.payload == payload)
      && forall k :: k in KeysOf(batch) <==> InGrant(k, subjectType, subjectId, roles, actions)
  {
    var batch := Product(subjectType, subjectId, roles, actions, payload);
    ProductHolds(subjectType, subjectId, roles, actions, payload);
    hide Product, DistinctKeys;
    forall k | InGrant(k, subjectType, subjectId, roles, actions)
      ensures k in KeysOf(batch)
    {
      assert k == Key(subjectType, subjectId, k.action, k.identity.id);
      assert Permission(k, payload) in batch;
    }
  }

  /** The loops over roles and actions build a batch that stands for exactly the grant. */
  lemma ProductIsGrant(subjectType: string, subjectId: string, roles: seq<string>, actions: seq<Action>,
                       payload: Payload)
    requires Distinct(roles) && Distinct(actions)
    ensures
      var batch := Product(subjectType, subjectId, roles, actions, payload);
      var grant := Grant(subjectType, subjectId, roles, actions, payload);
      DistinctKeys(batch) && BatchMap(batch) == grant && KeysOf(batch) == grant.Keys
  {
    hide *;
    var batch := Product(subjectType, subjectId, roles, actions, payload);
    ProductKeys(subjectType, subjectId, roles, actions, payload);
    GrantKeys(subjectType, subjectId, roles, actions, payload);
    GrantPayload(subjectType, subjectId, roles, actions, payload);
    StandsFor(batch, Grant(subjectType, subjectId, roles, actions, payload), payload);
  }

  /** A batch with the keys of a map, all with the payload that map has throughout, stands for that map. */
  lemma StandsFor(batch: seq<Permission>, perms: Perms, payload: Payload)
    requires DistinctKeys(batch) && forall p :: p in batch ==> p.payload == payload
    requires forall k :: k in KeysOf(batch) <==> k in perms
    requires forall k :: k in perms ==> perms[k] == payload
    ensures BatchMap(batch) == perms && KeysOf(batch) == perms.Keys
  {
    BatchMapHolds(batch);
    hide DistinctKeys, BatchMap;
    forall k | k in KeysOf(batch)
      ensures BatchMap(batch)[k] == payload
    {
      var p :| p in batch && p.key == k;
    }
  }

  lemma GrantPayload(subjectType: string, subjectId: string, roles: seq<string>, actions: seq<Action>, payload: Payload)
    ensures forall k :: k in Grant(subjectType, subjectId, roles, actions, payload) ==>
        Grant(subjectType, subjectId, roles, actions, payload)[k] == payload
  {}

  lemma GrantsDisjoint(t: string, t': string, d: string, roles: seq<string>, roles': seq<string>,
                       actions: seq<Action>, actions': seq<Action>, pay: Payload, pay': Payload)
    requires t != t' || forall r :: r in roles ==> r !in roles'
    ensures Grant(t, d, roles, actions, pay).Keys !! Grant(t', d, roles', actions', pay').Keys
  {
    GrantKeys(t, d, roles, actions, pay);
    GrantKeys(t', d, roles', actions', pay');
    hide Grant;
  }

  lemma SubjectTypesDiffer()
    ensures SWB_DATASET != SWB_DATASET_UPLOAD && SWB_DATASET != SWB_DATASET_ACCESS_LEVEL
    ensures SWB_DATASET_UPLOAD != SWB_DATASET_ACCESS_LEVEL
    ensures DATASET_SUBJECT != SWB_DATASET && DATASET_SUBJECT != SWB_DATASET_UPLOAD
        && DATASET_SUBJECT != SWB_DATASET_ACCESS_LEVEL
  {
    assert |SWB_DATASET| == 11 && |SWB_DATASET_UPLOAD| == 18 && |SWB_DATASET_ACCESS_LEVEL| == 24
        && |DATASET_SUBJECT| == 7;
  }

  lemma RolesDiffer(p: string)
    ensures RoleName(p, Admin) != RoleName(p, Researcher)
  {
    RoleNameIsRead(RoleName(p, Admin), p, Admin);
    RoleNameIsRead(RoleName(p, Admin), p, Researcher);
  }
}
