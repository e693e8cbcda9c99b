/**
 * The authorization service: collecting a caller's permissions over every page, letting DENY override ALLOW,
 * and removing everything an identity holds.
 */
module Authorization {
  import opened Prelude
  import opened PermissionKeys
  import opened PermissionStore

  const WILDCARD: string := "*"

  datatype Operation = Operation(action: Action, subjectType: string, subjectId: string, field: Option<string>,
      attributes: map<string, string>)

  /**
   * Whether the conditions and fields of a rule admit an operation. The matching belongs to the rule library, and
   * may treat a forbidding rule, for which the first argument is true, differently from a permitting one.
   */
  type Matcher = (bool, Payload, Operation) -> bool

  datatype Decision = Allowed | Forbidden | TooManyIdentities

  datatype ServiceError = GroupNotFound | Store(error: StoreError)

  // ----- Writing -----

  ghost predicate GroupsActive(batch: seq<Permission>, active: set<string>) {
    forall p :: p in batch && p.key.identity.kind == GROUP ==> p.key.identity.id in active
  }

  /** What creating a batch answers while exactly the groups in `active` are active. */
  ghost function CreationError(perms: Perms, batch: seq<Permission>, active: set<string>): Option<ServiceError> {
    if |batch| > MAX_BATCH then Some(Store(ThroughputExceeded))
    else if !GroupsActive(batch, active) then Some(GroupNotFound)
    else match CreateError(perms, batch) case Some(e) => Some(Store(e)) case None => None
  }

  /** The same, judged on rows: it holds for ids of any form. */
  ghost function RowsCreationError(rows: seq<Row>, batch: seq<Permission>, active: set<string>): Option<ServiceError> {
    if |batch| > MAX_BATCH then Some(Store(ThroughputExceeded))
    else if !GroupsActive(batch, active) then Some(GroupNotFound)
    else match BatchError(rows, batch) case Some(e) => Some(Store(e)) case None => None
  }

  /** Creates permissions for active groups and for users: all of them, or none with the first error met. */
  method CreateIdentityPermissions(table: PermissionTable, batch: seq<Permission>, active: set<string>)
    returns (error: Option<ServiceError>)
    requires table.Usable()
    modifies table
    ensures table.Usable()
    ensures error == RowsCreationError(old(table.rows), batch, active)
    ensures |batch| > 100 ==> error == Some(Store(ThroughputExceeded))
    ensures |batch| <= 100 ==>
      (error == Some(GroupNotFound) <==> exists p ::
        p in batch && p.key.identity.kind == GROUP && p.key.identity.id !in active)
    ensures error.Some? ==> table.rows == old(table.rows) && table.perms == old(table.perms)
    ensures error.None? ==> forall x :: x in table.rows <==> x in old(table.rows) || x in RowsOf(batch)
    ensures old(table.Valid()) && AllClean(batch) ==>
      && table.Valid()
      && error == CreationError(old(table.perms), batch, active)
      && table.perms == After(error, old(table.perms), old(table.perms) + BatchMap(batch))
  {
    if |batch| > MAX_BATCH {
      return Some(Store(ThroughputExceeded));
    }
    var groups := set p | p in batch && p.key.identity.kind == GROUP :: p.key.identity.id;
    if exists g :: g in groups && g !in active {
      var g :| g in groups && g !in active;
      return Some(GroupNotFound);
    }
    assert GroupsActive(batch, active) by {
      assert forall p :: p in batch && p.key.identity.kind == GROUP ==> p.key.identity.id in groups;
    }
    var r := table.Create(batch);
    error := match r case Failure(e) => Some(Store(e)) case Success(_) => None;
  }

  // ----- Collecting -----

  lemma BySubjectFor(rows: seq<Row>, perms: Perms, subjectType: string, subjectId: string, action: Action,
                     identities: seq<Identity>)
    requires Represents(rows, perms)
    ensures
      var listing := Filter(InSubject(PartitionKey(subjectType, subjectId), ActionName(action)), rows);
      var kept := Filter(IdentityIn(IdentityKeys(identities)), listing);
      && Distinct(DecodeAll(kept))
      && forall p :: p in DecodeAll(kept) <==>
          Holds(perms, p) && OnSubject(p.key, subjectType, subjectId, Some(action)) && p.key.identity in identities
  {
    var select, filter :=
        InSubject(PartitionKey(subjectType, subjectId), ActionName(action)), IdentityIn(IdentityKeys(identities));
    assert Prefix(Some(action)) == ActionName(action);
    var both := (r: Row) => select(r) && filter(r);
    FilterTwice(select, filter, both, rows);
    DecodedSelection(rows, perms, both);
    forall p | Holds(perms, p)
      ensures both(RowOf(p)) <==> OnSubject(p.key, subjectType, subjectId, Some(action)) && p.key.identity in identities
    {
      assert p == Permission(p.key, p.payload);
      SelectedBySubject(p.key, p.payload, subjectType, subjectId, Some(action));
      SelectedByIdentity(p.key, p.payload, identities);
    }
  }

  /** Every permission of the given identities for an action on a subject, gathered page by page. */
  method GetAllBySubject(table: PermissionTable, subjectType: string, subjectId: string, action: Action,
                         identities: seq<Identity>)
    returns (r: Result<seq<Permission>, StoreError>)
    requires table.Valid()
    ensures r.Failure? <==> |identities| > MAX_BATCH || identities == []
    ensures r.Failure? ==> r.error == if identities == [] then InvalidQuery else ThroughputExceeded
    ensures r.Success? ==> Distinct(r.value)
    ensures r.Success? ==> forall p :: p in r.value <==>
        Holds(table.perms, p) && OnSubject(p.key, subjectType, subjectId, Some(action)) && p.key.identity in identities
  {
    r := CollectBySubject(table, subjectType, subjectId, action, identities);
    BySubjectFor(table.rows, table.perms, subjectType, subjectId, action, identities);
  }

  ghost function SubjectRows(rows: seq<Row>, subjectType: string, subjectId: string, action: Action): seq<Row> {
    Filter(InSubject(PartitionKey(subjectType, subjectId), Prefix(Some(action))), rows)
  }

  /** The paging loop: whatever the page boundaries, it gathers the whole filtered listing in order. */
  method CollectBySubject(table: PermissionTable, subjectType: string, subjectId: string, action: Action,
                          identities: seq<Identity>)
    returns (r: Result<seq<Permission>, StoreError>)
    requires table.Valid()
    ensures r.Failure? <==> |identities| > MAX_BATCH || identities == []
    ensures r.Failure? ==> r.error == if identities == [] then InvalidQuery else ThroughputExceeded
    ensures r.Success? ==>
        r.value == Gathered(IdentityIn(IdentityKeys(identities)),
            SubjectRows(table.rows, subjectType, subjectId, action))
  {
    ghost var listing := SubjectRows(table.rows, subjectType, subjectId, action);
    ghost var filter := IdentityIn(IdentityKeys(identities));
    assert listing == Filter(InSubject(PartitionKey(subjectType, subjectId), Prefix(Some(action))), table.rows);
    NothingGathered(listing, filter);
    hide *;
    var found: seq<Permission> := [];
    var start: nat := 0;
    while true
      invariant start <= |listing| && GatheredTo(listing, filter, start, found)
      invariant start > 0 ==> |identities| <= MAX_BATCH && identities != []
      decreases |listing| - start
    {
      var page, scanned := table.PageBySubject(subjectType, subjectId, Some(action), Some(identities), None, start);
      if page.Failure? {
        return Failure(page.error);
      }
      GatherPage(listing, filter, start, Limit(None), table.least, scanned, page.value, found);
      found := found + page.value.items;
      if page.value.next.None? {
        break;
      }
      start := page.value.next.value;
    }
    r := Success(found);
  }

  /** What the paging loop has gathered when it is about to ask for the page at `start`. */
  ghost predicate GatheredTo(listing: seq<Row>, filter: Row -> bool, start: nat, found: seq<Permission>) {
    start <= |listing| && found == Gathered(filter, listing[..start])
  }

  lemma NothingGathered(listing: seq<Row>, filter: Row -> bool)
    ensures GatheredTo(listing, filter, 0, [])
  {}

  lemma GatherPage(listing: seq<Row>, filter: Row -> bool, start: nat, limit: nat, least: nat, scanned: seq<Row>,
                   page: Page, found: seq<Permission>)
    requires GatheredTo(listing, filter, start, found)
        && PageServed(listing, filter, start, limit, least, scanned, page)
    ensures page.next.None? ==> found + page.items == Gathered(filter, listing)
    ensures page.next.Some? ==>
      start < page.next.value <= |listing| && GatheredTo(listing, filter, page.next.value, found + page.items)
  {
    PageExtends(listing, filter, start, limit, least, scanned, page);
    hide Gathered, PageServed;
  }

  // ----- Removing everything an identity holds -----

  ghost function IdentityRows(rows: seq<Row>, identity: Identity): seq<Row> {
    Filter(InIndex(IdentityKey(identity)), rows)
  }

  ghost function WithoutIdentity(perms: Perms, identity: Identity): Perms {
    map k | k in perms && k.identity != identity :: perms[k]
  }

  /** The by-identity index lists exactly what a scan of the table would find for the identity. */
  lemma IndexAgreesWithScan(rows: seq<Row>, perms: Perms, identity: Identity)
    requires Represents(rows, perms)
    ensures Distinct(DecodeAll(IdentityRows(rows, identity)))
    ensures forall p :: p in DecodeAll(IdentityRows(rows, identity)) <==> Holds(perms, p) && p.key.identity == identity
  {
    DecodedSelection(rows, perms, InIndex(IdentityKey(identity)));
    forall p | Holds(perms, p)
      ensures InIndex(IdentityKey(identity))(RowOf(p)) <==> p.key.identity == identity
    {
      IdentityKeyInjective(p.key.identity, identity);
    }
  }

  method GetAllByIdentity(table: PermissionTable, identity: Identity) returns (found: seq<Permission>)
    requires table.Valid()
    ensures found == DecodeAll(IdentityRows(table.rows, identity))
  {
    ghost var listing := IdentityRows(table.rows, identity);
    KeepAll(listing);
    found := [];
    var start: nat := 0;
    while true
      invariant start <= |listing|
      invariant found == Gathered(All(), listing[..start])
      decreases |listing| - start
    {
      var page, scanned := table.PageByIdentity(identity, None, start);
      PageExtends(listing, All(), start, Limit(None), table.least, scanned, page);
      found := found + page.items;
      if page.next.None? {
        break;
      }
      start := page.next.value;
    }
  }

  lemma WithoutAll(perms: Perms, found: seq<Permission>, identity: Identity)
    requires forall p :: p in found <==> Holds(perms, p) && p.key.identity == identity
    ensures perms - KeysOf(found) == WithoutIdentity(perms, identity)
  {
    forall k | k in perms
      ensures k in KeysOf(found) <==> k.identity == identity
    {
      assert Permission(k, perms[k]) in found <==> k.identity == identity;
    }
  }

  /** Removes all an identity holds: list first, then delete in chunks. */
  method DeleteAllByIdentity(table: PermissionTable, identity: Identity)
    requires table.Valid()
    modifies table
    ensures table.Valid()
    ensures table.perms == WithoutIdentity(old(table.perms), identity)
  {
    var found := GetAllByIdentity(table, identity);
    IndexAgreesWithScan(table.rows, table.perms, identity);
    DistinctHeld(table.perms, found);
    WithoutAll(table.perms, found, identity);
    table.DeleteInChunks(found);
  }

  lemma DecodedPrefix(rows: seq<Row>, perms: Perms, scanned: seq<Row>, listing: seq<Row>)
    requires Represents(rows, perms) && scanned <= listing
    requires forall r :: r in listing ==> r in rows
    ensures |DecodeAll(scanned)| == |scanned| && DecodeAll(scanned) <= DecodeAll(listing)
  {
    assert forall i :: 0 <= i < |listing| ==> listing[i] in listing;
    CollectEach(DecodeRow, listing);
    CollectEach(DecodeRow, scanned);
  }

  /** A page of an identity's permissions can be deleted as one batch, and takes nothing from anyone else. */
  lemma PurgeStep(rows: seq<Row>, perms: Perms, identity: Identity, scanned: seq<Row>, items: seq<Permission>)
    requires Represents(rows, perms)
    requires scanned <= IdentityRows(rows, identity) && items == DecodeAll(scanned)
    ensures |items| == |scanned| && DistinctKeys(items) && AllClean(items)
    ensures forall k :: k in KeysOf(items) ==> k in perms && k.identity == identity
    ensures scanned == IdentityRows(rows, identity) ==> perms - KeysOf(items) == WithoutIdentity(perms, identity)
  {
    var all := DecodeAll(IdentityRows(rows, identity));
    IndexAgreesWithScan(rows, perms, identity);
    FilterMembers(InIndex(IdentityKey(identity)), rows);
    DecodedPrefix(rows, perms, scanned, IdentityRows(rows, identity));
    hide Represents, Filter, IdentityRows;
    assert forall i :: 0 <= i < |items| ==> items[i] == all[i] && all[i] in all;
    DistinctHeld(perms, items);
    if scanned == IdentityRows(rows, identity) {
      WithoutAll(perms, items, identity);
    }
  }

  lemma PurgeKeepsOthers(perms: Perms, items: seq<Permission>, identity: Identity)
    requires forall k :: k in KeysOf(items) ==> k.identity == identity
    ensures WithoutIdentity(perms - KeysOf(items), identity) == WithoutIdentity(perms, identity)
  {}

  method PurgePage(table: PermissionTable, identity: Identity) returns (more: bool)
    requires table.Valid()
    modifies table
    ensures table.Valid()
    ensures WithoutIdentity(table.perms, identity) == WithoutIdentity(old(table.perms), identity)
    ensures more ==> table.perms.Keys < old(table.perms.Keys)
    ensures !more ==> table.perms == WithoutIdentity(old(table.perms), identity)
  {
    var page, scanned := table.PageByIdentity(identity, Some(100), 0);
    KeepAll(scanned);
    PurgeStep(table.rows, table.perms, identity, scanned, page.items);
    PurgeKeepsOthers(table.perms, page.items, identity);
    more := page.next.Some?;
    if |page.items| > 0 {
      assert page.items[0].key in KeysOf(page.items);
      var deleted := table.Delete(page.items);
      assert deleted.Success?;
    }
  }

  /**
   * Empties a group by re-reading its first page until no page has a successor. The token itself is never
   * passed on: what makes the loop end is that every page read is deleted.
   */
  method PurgeGroupPermissions(table: PermissionTable, groupId: string)
    requires table.Valid()
    modifies table
    ensures table.Valid()
    ensures table.perms == WithoutIdentity(old(table.perms), Identity(GROUP, groupId))
  {
    var more := true;
    while more
      invariant table.Valid()
      invariant WithoutIdentity(table.perms, Identity(GROUP, groupId))
          == WithoutIdentity(old(table.perms), Identity(GROUP, groupId))
      invariant !more ==> table.perms == WithoutIdentity(old(table.perms), Identity(GROUP, groupId))
      decreases table.perms.Keys, more
    {
      more := PurgePage(table, Identity(GROUP, groupId));
    }
  }

  // ----- Deciding -----

  /** A rule of the ability: `inverted` rules forbid. A wildcard subject leaves the subject id unconstrained. */
  datatype Rule = Rule(inverted: bool, action: Action, subjectType: string, subjectId: Option<string>, payload: Payload)

  function RuleFor(inverted: bool, p: Permission): Rule {
    Rule(inverted, p.key.action, p.key.subjectType,
         if p.key.subjectId == WILDCARD then None else Some(p.key.subjectId), p.payload)
  }

  predicate Relevant(rule: Rule, op: Operation, matches: Matcher) {
    && rule.action == op.action
    && rule.subjectType == op.subjectType
    && (rule.subjectId.Some? ==> rule.subjectId.value == op.subjectId)
    && matches(rule.inverted, rule.payload, op)
  }

  /** The rule library's contract: the last relevant rule decides, and without one the answer is no. */
  function Can(rules: seq<Rule>, op: Operation, matches: Matcher): bool {
    if rules == [] then false
    else
      var last := rules[|rules| - 1];
      if Relevant(last, op, matches) then !last.inverted else Can(rules[..|rules| - 1], op, matches)
  }

  lemma {:induction false} CanReadsLastRelevant(rules: seq<Rule>, op: Operation, matches: Matcher, split: nat)
    requires split <= |rules|
    requires forall i :: 0 <= i < split ==> !rules[i].inverted
    requires forall i :: split <= i < |rules| ==> rules[i].inverted
    ensures Can(rules, op, matches) <==>
      && (exists i :: 0 <= i < split && Relevant(rules[i], op, matches))
      && !exists i :: split <= i < |rules| && Relevant(rules[i], op, matches)
  {
    if rules == [] {
    } else {
      var n := |rules| - 1;
      CanReadsLastRelevant(rules[..n], op, matches, Min(split, n));
      if Relevant(rules[n], op, matches) {
      } else if Can(rules[..n], op, matches) {
        var i :| 0 <= i < Min(split, n) && Relevant(rules[..n][i], op, matches);
        assert Relevant(rules[i], op, matches);
      }
    }
  }

  /** Registers the ALLOW rules first and the DENY rules last. */
  method DefineAbilities(permissions: seq<Permission>) returns (rules: seq<Rule>, ghost split: nat)
    ensures forall i, j :: 0 <= i < j < |rules| && rules[i].inverted ==> rules[j].inverted
    ensures forall r :: r in rules <==> exists p :: p in permissions && r == RuleFor(p.key.effect == DENY, p)
    ensures split <= |rules|
    ensures forall i :: 0 <= i < split ==> !rules[i].inverted
    ensures forall i :: split <= i < |rules| ==> rules[i].inverted
    ensures forall r :: r in rules[..split] <==> exists p ::
        p in permissions && p.key.effect == ALLOW && r == RuleFor(false, p)
    ensures forall r :: r in rules[split..] <==> exists p ::
        p in permissions && p.key.effect == DENY && r == RuleFor(true, p)
  {
    var allow, deny := [], [];
    for i := 0 to |permissions|
      invariant forall p :: p in allow <==> p in permissions[..i] && p.key.effect == ALLOW
      invariant forall p :: p in deny <==> p in permissions[..i] && p.key.effect == DENY
    {
      assert permissions[..i + 1] == permissions[..i] + [permissions[i]];
      if permissions[i].key.effect == ALLOW {
        allow := allow + [permissions[i]];
      } else {
        deny := deny + [permissions[i]];
      }
    }
    assert permissions[..|permissions|] == permissions;
    var allowed := Rules(false, allow);
    var denied := Rules(true, deny);
    split := |allowed|;
    rules := allowed + denied;
    assert rules[..split] == allowed && rules[split..] == denied;
    assert forall r :: r in rules <==> r in allowed || r in denied;
  }

  method Rules(inverted: bool, permissions: seq<Permission>) returns (rules: seq<Rule>)
    ensures |rules| == |permissions|
    ensures forall i :: 0 <= i < |rules| ==> rules[i] == RuleFor(inverted, permissions[i])
    ensures forall r :: r in rules <==> exists p :: p in permissions && r == RuleFor(inverted, p)
  {
    rules := [];
    for i := 0 to |permissions|
      invariant |rules| == i
      invariant forall j :: 0 <= j < i ==> rules[j] == RuleFor(inverted, permissions[j])
    {
      rules := rules + [RuleFor(inverted, permissions[i])];
    }
    forall p | p in permissions
      ensures RuleFor(inverted, p) in rules
    {
      var j :| 0 <= j < |permissions| && permissions[j] == p;
      assert rules[j] == RuleFor(inverted, p);
    }
    assert forall r :: r in rules ==> exists j :: 0 <= j < |rules| && rules[j] == r;
  }

  /** A permission speaks about an operation for one of these identities. */
  ghost predicate Speaks(p: Permission, op: Operation, identities: set<Identity>, matches: Matcher) {
    && p.key.identity in identities
    && p.key.action == op.action
    && p.key.subjectType == op.subjectType
    && (p.key.subjectId == op.subjectId || p.key.subjectId == "*")
    && matches(p.key.effect == DENY, p.payload, op)
  }

  /** The whole decision, read off the whole store: some ALLOW speaks and no DENY does. */
  ghost predicate Grants(perms: Perms, op: Operation, identities: set<Identity>, matches: Matcher) {
    && (exists p :: Holds(perms, p) && p.key.effect == ALLOW && Speaks(p, op, identities, matches))
    && !exists p :: Holds(perms, p) && p.key.effect == DENY && Speaks(p, op, identities, matches)
  }

  lemma SomeRelevant(rules: seq<Rule>, inverted: bool, permissions: seq<Permission>, op: Operation, matches: Matcher)
    requires forall r :: r in rules <==>
        exists p :: p in permissions && p.key.effect == (if inverted then DENY else ALLOW) && r == RuleFor(inverted, p)
    ensures (exists i :: 0 <= i < |rules| && Relevant(rules[i], op, matches)) <==>
        exists p :: p in permissions && p.key.effect == (if inverted then DENY else ALLOW)
                 && Relevant(RuleFor(inverted, p), op, matches)
  {
    if p :|
        p in permissions && p.key.effect == (if inverted then DENY else ALLOW)
        && Relevant(RuleFor(inverted, p), op, matches) {
      assert RuleFor(inverted, p) in rules;
    }
    if i :| 0 <= i < |rules| && Relevant(rules[i], op, matches) {
      assert rules[i] in rules;
    }
  }

  method IsAuthorizedOnDynamicOperation(permissions: seq<Permission>, op: Operation, matches: Matcher)
    returns (ok: bool)
    ensures ok <==>
      && (exists p :: p in permissions && p.key.effect == ALLOW && Relevant(RuleFor(false, p), op, matches))
      && !exists p :: p in permissions && p.key.effect == DENY && Relevant(RuleFor(true, p), op, matches)
  {
    var rules, split := DefineAbilities(permissions);
    ok := Can(rules, op, matches);
    CanReadsLastRelevant(rules, op, matches, split);
    SomeRelevant(rules[..split], false, permissions, op, matches);
    SomeRelevant(rules[split..], true, permissions, op, matches);
    assert forall i :: 0 <= i < split ==> rules[i] == rules[..split][i];
    assert forall i :: split <= i < |rules| ==> rules[i] == rules[split..][i - split];
    assert forall i :: 0 <= i < |rules| - split ==> rules[split..][i] == rules[split + i];
  }

  ghost function Identities(userId: string, groups: seq<string>): set<Identity> {
    {Identity(USER, userId)} + set g | g in groups :: Identity(GROUP, g)
  }

  /** A caller acts as the user and as every group, and as nobody else. */
  lemma ActsAs(userId: string, groups: seq<string>, id: Identity)
    ensures id in Identities(userId, groups) <==> id == Identity(USER, userId) || (id.kind == GROUP && id.id in groups)
  {}

  /**
   * Decides an operation for a user and the groups validated for them: exact-subject and wildcard entries are
   * fetched over all pages and handed to the rules.
   */
  method IsAuthorizedOnSubject(table: PermissionTable, userId: string, validGroups: seq<string>, op: Operation,
                               matches: Matcher)
    returns (r: Decision)
    requires table.Valid()
    ensures r == TooManyIdentities <==> |validGroups| >= 100
    ensures r != TooManyIdentities ==>
        (r == Allowed <==> Grants(table.perms, op, Identities(userId, validGroups), matches))
  {
    var identities := seq(|validGroups|, i requires 0 <= i < |validGroups| => Identity(GROUP, validGroups[i]))
                    + [Identity(USER, userId)];
    assert forall x :: x in identities <==> x in Identities(userId, validGroups) by {
      assert identities[|validGroups|] == Identity(USER, userId);
      assert forall i :: 0 <= i < |validGroups| ==> identities[i] == Identity(GROUP, validGroups[i]);
    }
    var exact := GetAllBySubject(table, op.subjectType, op.subjectId, op.action, identities);
    if exact.Failure? {
      return TooManyIdentities;
    }
    var found := exact.value;
    if op.subjectId != WILDCARD {
      var wildcard := GetAllBySubject(table, op.subjectType, WILDCARD, op.action, identities);
      found := found + wildcard.value;
    }
    var ok := IsAuthorizedOnDynamicOperation(found, op, matches);
    forall p
      ensures p in found && Relevant(RuleFor(p.key.effect == DENY, p), op, matches)
         <==> Holds(table.perms, p) && Speaks(p, op, Identities(userId, validGroups), matches)
    {}
    r := if ok then Allowed else Forbidden;
  }
}
