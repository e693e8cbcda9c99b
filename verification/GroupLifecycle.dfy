/**
 * The life of an authorization group: created, granted permissions, locked, emptied and deleted. Calls to the
 * service overlap; a step is what happens between two waits of one call.
 */
module GroupLifecycle {
  import opened Prelude
  import opened PermissionKeys
  import opened PermissionStore
  import opened Authorization

  /** A deleted group has no status at all. */
  datatype Status = Active | DeletePending

  /** A create call: the keys it will write, and the groups it has already seen active. */
  datatype Creating = Creating(keys: set<PermKey>, confirmed: set<string>)

  /** A delete call, from the lock on: reading pages, deleting what was read, and with the role removed. */
  datatype Deleting =
    | Listing(group: string, from: nat, found: set<PermKey>)
    | Erasing(group: string, left: set<PermKey>)
    | Closing(group: string)

  datatype State = State(
    status: map<string, Status>,
    roles: set<string>,
    perms: set<PermKey>,
    creating: map<nat, Creating>,
    deleting: map<nat, Deleting>)

  datatype GroupError = GroupAlreadyExists | GroupNotExisting

  /** Where a permission stands in the order of the by-identity index. */
  type Order = PermKey -> nat

  function Held(perms: set<PermKey>, group: string): set<PermKey> {
    set k | k in perms && k.identity == Identity(GROUP, group)
  }

  function GroupsOf(keys: set<PermKey>): set<string> {
    set k | k in keys && k.identity.kind == GROUP :: k.identity.id
  }

  // ----- Steps -----

  datatype Op =
    | CreateGroup(group: string)
    | BeginCreate(call: nat, keys: set<PermKey>)
    | Confirm(call: nat, group: string)
    | Commit(call: nat)
    | DeletePermissions(keys: set<PermKey>)
    | Lock(call: nat, group: string)
    | ListPage(call: nat, upTo: nat, last: bool)
    | EraseChunk(call: nat, keys: set<PermKey>)
    | RemoveRole(call: nat)
    | Finish(call: nat)
    | FailCreate(call: nat)
    | FailDelete(call: nat)

  ghost predicate Enabled(s: State, op: Op, order: Order) {
    match op
    case CreateGroup(g) => g !in s.status && g !in s.roles
    case BeginCreate(c, keys) => c !in s.creating && |keys| <= MAX_BATCH
    case Confirm(c, g) => c in s.creating && g in s.status && s.status[g] == Active
    case Commit(c) => c in s.creating && GroupsOf(s.creating[c].keys) <= s.creating[c].confirmed
    case DeletePermissions(keys) => |keys| <= MAX_BATCH
    case Lock(d, g) => d !in s.deleting && g in s.status
    case ListPage(d, upTo, last) =>
      && d in s.deleting && s.deleting[d].Listing? && s.deleting[d].from <= upTo
      && (last ==> forall k :: k in Held(s.perms, s.deleting[d].group) ==> order(k) < upTo)
    case EraseChunk(d, keys) => d in s.deleting && s.deleting[d].Erasing? && keys <= s.deleting[d].left
        && |keys| <= MAX_BATCH
    case RemoveRole(d) =>
      d in s.deleting && s.deleting[d].Erasing? && s.deleting[d].left == {} && s.deleting[d].group in s.roles
    case Finish(d) =>
      && d in s.deleting && s.deleting[d].Closing?
      && s.deleting[d].group in s.status && s.status[s.deleting[d].group] == DeletePending
    case FailCreate(c) => c in s.creating
    case FailDelete(d) => d in s.deleting
  }

  /** Creating writes all keys or, if one is taken, none; the other steps are conditional writes and paged reads. */
  ghost function Next(s: State, op: Op, order: Order): State
    requires Enabled(s, op, order)
  {
    match op
    case CreateGroup(g) => s.(status := s.status[g := Active], roles := s.roles + {g})
    case BeginCreate(c, keys) => s.(creating := s.creating[c := Creating(keys, {})])
    case Confirm(c, g) => s.(creating := s.creating[c := s.creating[c].(confirmed := s.creating[c].confirmed + {g})])
    case Commit(c) =>
      s.(perms := if s.creating[c].keys !! s.perms then s.perms + s.creating[c].keys else s.perms,
         creating := s.creating - {c})
    case DeletePermissions(keys) => s.(perms := s.perms - keys)
    case Lock(d, g) => s.(status := s.status[g := DeletePending], deleting := s.deleting[d := Listing(g, 0, {})])
    case ListPage(d, upTo, last) =>
      var call := s.deleting[d];
      var found := call.found + set k | k in Held(s.perms, call.group) && call.from <= order(k) < upTo;
      s.(deleting := s.deleting[d := if last then Erasing(call.group, found) else Listing(call.group, upTo, found)])
    case EraseChunk(d, keys) =>
      s.(perms := s.perms - keys, deleting := s.deleting[d := Erasing(s.deleting[d].group, s.deleting[d].left - keys)])
    case RemoveRole(d) => s.(roles := s.roles - {s.deleting[d].group}, deleting :=
        s.deleting[d := Closing(s.deleting[d].group)])
    case Finish(d) => s.(status := s.status - {s.deleting[d].group}, deleting := s.deleting - {d})
    case FailCreate(c) => s.(creating := s.creating - {c})
    case FailDelete(d) => s.(deleting := s.deleting - {d})
  }

  /**
   * The two hypotheses safety needs: a group is locked only while no create that saw it active is still to
   * commit, and a name is taken again only once no delete call for it is left over.
   */
  ghost predicate Quiet(s: State, op: Op) {
    match op
    case Lock(_, g) => forall c :: c in s.creating ==> g !in s.creating[c].confirmed
    case CreateGroup(g) => forall d :: d in s.deleting ==> s.deleting[d].group != g
    case _ => true
  }

  ghost predicate Run(s: State, ops: seq<Op>, t: State, order: Order)
    decreases |ops|
  {
    if ops == [] then s == t
    else Enabled(s, ops[0], order) && Run(Next(s, ops[0], order), ops[1..], t, order)
  }

  ghost predicate QuietRun(s: State, ops: seq<Op>, t: State, order: Order)
    decreases |ops|
  {
    if ops == [] then s == t
    else Quiet(s, ops[0]) && Enabled(s, ops[0], order) && QuietRun(Next(s, ops[0], order), ops[1..], t, order)
  }

  // ----- What every step keeps -----

  /** What a delete call has left to do covers what its group still holds. */
  ghost predicate Covers(call: Deleting, perms: set<PermKey>, order: Order) {
    match call
    case Listing(g, from, found) => forall k :: k in Held(perms, g) && order(k) < from ==> k in found
    case Erasing(g, left) => Held(perms, g) <= left
    case Closing(g) => Held(perms, g) == {}
  }

  ghost predicate Inv(s: State, order: Order) {
    && GroupsOf(s.perms) <= s.status.Keys
    && (forall c, g :: c in s.creating && g in s.creating[c].confirmed ==> g in s.status && s.status[g] == Active)
    && (forall d :: d in s.deleting && s.deleting[d].group in s.status ==>
        s.status[s.deleting[d].group] == DeletePending)
    && (forall d :: d in s.deleting ==> Covers(s.deleting[d], s.perms, order))
    && (forall g :: g in s.status && s.status[g] == Active ==> g in s.roles)
    && (forall c :: c in s.creating ==> |s.creating[c].keys| <= MAX_BATCH)
  }

  lemma CoversLess(call: Deleting, perms: set<PermKey>, fewer: set<PermKey>, order: Order)
    requires Covers(call, perms, order) && fewer <= perms
    ensures Covers(call, fewer, order)
  {
    assert Held(fewer, call.group) <= Held(perms, call.group);
  }

  lemma FewerKeep(s: State, fewer: set<PermKey>, order: Order)
    requires Inv(s, order) && fewer <= s.perms
    ensures Inv(s.(perms := fewer), order)
  {
    forall d | d in s.deleting
      ensures Covers(s.deleting[d], fewer, order)
    {
      CoversLess(s.deleting[d], s.perms, fewer, order);
    }
  }

  lemma CommitKeeps(s: State, c: nat, order: Order)
    requires Inv(s, order) && Enabled(s, Commit(c), order)
    ensures Inv(Next(s, Commit(c), order), order)
  {
    var keys, t := s.creating[c].keys, Next(s, Commit(c), order);
    if keys !! s.perms {
      GroupsOfBoth(s.perms, keys);
      CommitCovers(s, c, order);
      hide Covers, Held, GroupsOf;
    }
  }

  lemma CommitCovers(s: State, c: nat, order: Order)
    requires Inv(s, order) && Enabled(s, Commit(c), order)
    ensures forall d :: d in s.deleting ==> Covers(s.deleting[d], s.perms + s.creating[c].keys, order)
  {
    hide Covers, Held, GroupsOf;
    forall d | d in s.deleting
      ensures Covers(s.deleting[d], s.perms + s.creating[c].keys, order)
    {
      assert Covers(s.deleting[d], s.perms, order);
      CoversOther(s.deleting[d], s.perms, s.creating[c].keys, order);
    }
  }

  lemma GroupsOfBoth(a: set<PermKey>, b: set<PermKey>)
    ensures GroupsOf(a + b) == GroupsOf(a) + GroupsOf(b)
  {}

  lemma CoversOther(call: Deleting, perms: set<PermKey>, keys: set<PermKey>, order: Order)
    requires Covers(call, perms, order) && call.group !in GroupsOf(keys)
    ensures Covers(call, perms + keys, order)
  {
    assert forall k :: k in keys && k.identity == Identity(GROUP, call.group) ==> call.group in GroupsOf(keys);
    assert Held(perms + keys, call.group) == Held(perms, call.group);
  }

  lemma EraseKeeps(s: State, d: nat, keys: set<PermKey>, order: Order)
    requires Inv(s, order) && Enabled(s, EraseChunk(d, keys), order)
    ensures Inv(Next(s, EraseChunk(d, keys), order), order)
  {
    var t := s.(perms := s.perms - keys);
    FewerKeep(s, s.perms - keys, order);
    assert Covers(s.deleting[d], s.perms, order);
    assert Held(t.perms, s.deleting[d].group) <= s.deleting[d].left - keys;
  }

  lemma FinishKeeps(s: State, d: nat, order: Order)
    requires Inv(s, order) && Enabled(s, Finish(d), order)
    ensures Inv(Next(s, Finish(d), order), order)
  {
    var g := s.deleting[d].group;
    assert Covers(s.deleting[d], s.perms, order);
    forall h | h in GroupsOf(s.perms)
      ensures h != g
    {
      var k :| k in s.perms && k.identity.kind == GROUP && k.identity.id == h;
      assert h == g ==> k in Held(s.perms, g);
    }
  }

  lemma LockKeeps(s: State, d: nat, g: string, order: Order)
    requires Inv(s, order) && Enabled(s, Lock(d, g), order) && Quiet(s, Lock(d, g))
    ensures Inv(Next(s, Lock(d, g), order), order)
  {}

  lemma ListKeeps(s: State, op: Op, order: Order)
    requires op.ListPage? && Inv(s, order) && Enabled(s, op, order)
    ensures Inv(Next(s, op, order), order)
  {
    var t := Next(s, op, order);
    assert Covers(s.deleting[op.call], s.perms, order);
    assert Covers(t.deleting[op.call], t.perms, order);
  }

  lemma RemoveRoleKeeps(s: State, d: nat, order: Order)
    requires Inv(s, order) && Enabled(s, RemoveRole(d), order)
    ensures Inv(Next(s, RemoveRole(d), order), order)
  {
    assert Covers(s.deleting[d], s.perms, order);
  }

  lemma CallsKeep(s: State, op: Op, order: Order)
    requires op.CreateGroup? || op.BeginCreate? || op.Confirm? || op.FailCreate? || op.FailDelete?
    requires Inv(s, order) && Enabled(s, op, order) && Quiet(s, op)
    ensures Inv(Next(s, op, order), order)
  {
    hide Covers, Held, GroupsOf;
  }

  lemma StepKeeps(s: State, op: Op, order: Order)
    requires Inv(s, order) && Enabled(s, op, order) && Quiet(s, op)
    ensures Inv(Next(s, op, order), order)
  {
    assert op.DeletePermissions? ==> Next(s, op, order) == s.(perms := s.perms - op.keys);
    hide Inv, Enabled, Next, Quiet;
    match op
    case Commit(c) => CommitKeeps(s, c, order);
    case DeletePermissions(keys) => FewerKeep(s, s.perms - keys, order);
    case Lock(d, g) => LockKeeps(s, d, g, order);
    case ListPage(_, _, _) => ListKeeps(s, op, order);
    case EraseChunk(d, keys) => EraseKeeps(s, d, keys, order);
    case Finish(d) => FinishKeeps(s, d, order);
    case RemoveRole(d) => RemoveRoleKeeps(s, d, order);
    case _ => CallsKeep(s, op, order);
  }

  lemma {:induction false} RunKeeps(s: State, ops: seq<Op>, t: State, order: Order)
    requires Inv(s, order) && QuietRun(s, ops, t, order)
    ensures Inv(t, order)
    decreases |ops|
  {
    if ops == [] {
    } else {
      StepKeeps(s, ops[0], order);
      RunKeeps(Next(s, ops[0], order), ops[1..], t, order);
    }
  }

  /** No name is taken at all. */
  ghost predicate TakesNoName(ops: seq<Op>) {
    forall op :: op in ops ==> !op.CreateGroup?
  }

  ghost predicate NotRecreated(ops: seq<Op>, g: string) {
    CreateGroup(g) !in ops
  }

  lemma StepShrinks(s: State, op: Op, g: string, order: Order)
    requires Inv(s, order) && Enabled(s, op, order) && Quiet(s, op) && op != CreateGroup(g)
    requires g in s.status ==> s.status[g] == DeletePending
    ensures
      var t := Next(s, op, order);
      && (g in t.status ==> t.status[g] == DeletePending)
      && (g !in s.status ==> g !in t.status)
      && Held(t.perms, g) <= Held(s.perms, g)
  {
    if op.Commit? {
      var keys := s.creating[op.call].keys;
      assert forall k :: k in keys && k.identity == Identity(GROUP, g) ==> g in GroupsOf(keys);
    }
  }

  /** From the lock on, and until the name is taken again, a group's permissions only shrink. */
  lemma {:induction false} PendingOnlyShrinks(s: State, ops: seq<Op>, t: State, g: string, order: Order)
    requires Inv(s, order) && QuietRun(s, ops, t, order) && NotRecreated(ops, g)
    requires g in s.status ==> s.status[g] == DeletePending
    ensures g in t.status ==> t.status[g] == DeletePending
    ensures g !in s.status ==> g !in t.status
    ensures Held(t.perms, g) <= Held(s.perms, g)
    decreases |ops|
  {
    if ops == [] {
    } else {
      StepKeeps(s, ops[0], order);
      assert ops[0] in ops;
      StepShrinks(s, ops[0], g, order);
      PendingOnlyShrinks(Next(s, ops[0], order), ops[1..], t, g, order);
    }
  }

  lemma NoStatusNothingHeld(s: State, g: string, order: Order)
    requires Inv(s, order) && g !in s.status
    ensures Held(s.perms, g) == {}
  {
    assert forall k :: k in s.perms && k.identity.kind == GROUP ==> k.identity.id in GroupsOf(s.perms);
  }

  /** Once deleted, a group holds nothing, and it holds nothing for as long as it is not created again. */
  lemma DeletedStaysEmpty(s: State, d: nat, ops: seq<Op>, t: State, order: Order)
    requires Inv(s, order) && Enabled(s, Finish(d), order)
    requires
      && QuietRun(Next(s, Finish(d), order), ops, t, order)
      && NotRecreated(ops, s.deleting[d].group)
    ensures
      var g := s.deleting[d].group;
      && Held(Next(s, Finish(d), order).perms, g) == {}
      && g !in t.status && Held(t.perms, g) == {}
  {
    var g := s.deleting[d].group;
    StepKeeps(s, Finish(d), order);
    NoStatusNothingHeld(Next(s, Finish(d), order), g, order);
    PendingOnlyShrinks(Next(s, Finish(d), order), ops, t, g, order);
  }

  // ----- Calls that fail -----

  /** A create call that has failed never commits, unless it is made anew. */
  lemma {:induction false} FailedNeverCommits(s: State, c: nat, ops: seq<Op>, t: State, order: Order)
    requires c !in s.creating && Run(s, ops, t, order)
    requires forall op :: op in ops ==> !(op.BeginCreate? && op.call == c)
    ensures Commit(c) !in ops
    decreases |ops|
  {
    if ops == [] {
    } else {
      assert ops[0] in ops;
      FailedNeverCommits(Next(s, ops[0], order), c, ops[1..], t, order);
    }
  }

  /** A delete call that has failed erases and closes nothing any more, unless it is made anew. */
  lemma {:induction false} FailedNeverFinishes(s: State, d: nat, ops: seq<Op>, t: State, order: Order)
    requires d !in s.deleting && Run(s, ops, t, order)
    requires forall op :: op in ops ==> !(op.Lock? && op.call == d)
    ensures forall op :: op in ops && (op.EraseChunk? || op.RemoveRole? || op.Finish?) ==> op.call != d
    decreases |ops|
  {
    if ops == [] {
    } else {
      assert ops[0] in ops;
      FailedNeverFinishes(Next(s, ops[0], order), d, ops[1..], t, order);
    }
  }

  /** Failing takes the call out of the game and changes nothing else. */
  lemma FailingChangesNothingElse(s: State, c: nat, d: nat, order: Order)
    ensures c in s.creating ==>
      var t := Next(s, FailCreate(c), order);
      c !in t.creating && t == s.(creating := t.creating) && forall e :: e in s.creating && e != c ==>
        e in t.creating && t.creating[e] == s.creating[e]
    ensures d in s.deleting ==>
      var t := Next(s, FailDelete(d), order);
      d !in t.deleting && t == s.(deleting := t.deleting) && forall e :: e in s.deleting && e != d ==>
        e in t.deleting && t.deleting[e] == s.deleting[e]
  {}

  // ----- A whole delete call -----

  /** What a delete call leaves behind when nothing comes in between. */
  ghost function Closed(s: State, g: string): State {
    s.(status := s.status - {g}, roles := s.roles - {g}, perms := s.perms - Held(s.perms, g))
  }

  lemma {:induction false} QuietIsRun(s: State, ops: seq<Op>, t: State, order: Order)
    requires QuietRun(s, ops, t, order)
    ensures Run(s, ops, t, order)
    decreases |ops|
  {
    if ops == [] {
    } else {
      QuietIsRun(Next(s, ops[0], order), ops[1..], t, order);
    }
  }

  lemma {:induction false} RunAppend(s: State, a: seq<Op>, m: State, b: seq<Op>, t: State, order: Order)
    requires Run(s, a, m, order) && Run(m, b, t, order)
    ensures Run(s, a + b, t, order)
    decreases |a|
  {
    if a == [] {
      assert a + b == b;
    } else {
      RunAppend(Next(s, a[0], order), a[1..], m, b, t, order);
      assert (a + b)[1..] == a[1..] + b;
    }
  }

  lemma PastAll(keys: set<PermKey>, order: Order) returns (upTo: nat)
    ensures forall k :: k in keys ==> order(k) < upTo
  {
    upTo := 0;
    var left := keys;
    while left != {}
      invariant left <= keys
      invariant forall k :: k in keys - left ==> order(k) < upTo
      decreases left
    {
      var k :| k in left;
      upTo := if order(k) < upTo then upTo else order(k) + 1;
      left := left - {k};
    }
  }

  /** Deleting what was read, one row at a time, then the role, then the status. */
  lemma {:induction false} EraseRest(s: State, d: nat, order: Order) returns (ops: seq<Op>)
    requires d in s.deleting && s.deleting[d].Erasing? && s.deleting[d].left == Held(s.perms, s.deleting[d].group)
    requires
      var g := s.deleting[d].group;
      g in s.roles && g in s.status && s.status[g] == DeletePending
    ensures QuietRun(s, ops, Closed(s, s.deleting[d].group).(deleting := s.deleting - {d}), order)
    ensures TakesNoName(ops)
    decreases s.deleting[d].left
  {
    var g, left := s.deleting[d].group, s.deleting[d].left;
    var end := Closed(s, g).(deleting := s.deleting - {d});
    if left == {} {
      var s1 := Next(s, RemoveRole(d), order);
      var s2 := Next(s1, Finish(d), order);
      ops := [RemoveRole(d), Finish(d)];
      assert s2.deleting == s.deleting - {d};
      assert s2.perms == s.perms - Held(s.perms, g);
      assert s2 == end;
      assert QuietRun(s2, [], end, order);
      assert ops[1..] == [Finish(d)] && ops[1..][1..] == [];
      assert QuietRun(s1, ops[1..], end, order);
    } else {
      var k :| k in left;
      var s1 := Next(s, EraseChunk(d, {k}), order);
      assert Held(s1.perms, g) == left - {k};
      var rest := EraseRest(s1, d, order);
      assert s1.deleting - {d} == s.deleting - {d};
      assert s1.perms - Held(s1.perms, g) == s.perms - left;
      ops := [EraseChunk(d, {k})] + rest;
      assert ops[1..] == rest;
    }
  }

  /** From the lock, an undisturbed call can always be carried through, and takes only its own group's entries. */
  lemma DeleteCompletes(s: State, d: nat, g: string, order: Order) returns (ops: seq<Op>)
    requires g in s.status && g in s.roles && d !in s.deleting
    ensures ops != [] && ops[0] == Lock(d, g) && Enabled(s, ops[0], order)
    ensures QuietRun(Next(s, ops[0], order), ops[1..], Closed(s, g), order) && TakesNoName(ops)
  {
    var upTo := PastAll(Held(s.perms, g), order);
    var s1 := Next(s, Lock(d, g), order);
    var s2 := Next(s1, ListPage(d, upTo, true), order);
    assert s2.deleting[d].left == Held(s.perms, g);
    var rest := EraseRest(s2, d, order);
    ops := [Lock(d, g), ListPage(d, upTo, true)] + rest;
    assert Closed(s2, g).(deleting := s2.deleting - {d}) == Closed(s, g) by {
      assert s2.deleting - {d} == s.deleting;
      assert s2.status - {g} == s.status - {g};
    }
    assert ops[1..][1..] == rest;
  }

  // ----- Why both hypotheses are needed -----

  lemma RunCons(s: State, op: Op, rest: seq<Op>, t: State, order: Order)
    requires Enabled(s, op, order) && Run(Next(s, op, order), rest, t, order)
    ensures Run(s, [op] + rest, t, order)
  {
    assert ([op] + rest)[1..] == rest;
  }

  lemma RunOne(s: State, op: Op, order: Order)
    requires Enabled(s, op, order)
    ensures Run(s, [op], Next(s, op, order), order)
  {
    assert [op][1..] == [];
  }

  lemma NotRecreatedAppend(a: seq<Op>, b: seq<Op>, g: string)
    ensures NotRecreated(a + b, g) <==> NotRecreated(a, g) && NotRecreated(b, g)
  {
    assert forall op :: op in a + b <==> op in a || op in b;
  }

  /** The group is created and granted a permission in the ordinary way. */
  lemma CreateAndGrant(s: State, c: nat, k: PermKey, order: Order) returns (ops: seq<Op>)
    requires k.identity.kind == GROUP && k !in s.perms && c !in s.creating
    requires k.identity.id !in s.status && k.identity.id !in s.roles
    ensures Run(s, ops, Granted(s, k), order)
  {
    var g := k.identity.id;
    var s1 := Next(s, CreateGroup(g), order);
    var s2 := Next(s1, BeginCreate(c, {k}), order);
    RunOne(s1, BeginCreate(c, {k}), order);
    RunCons(s, CreateGroup(g), [BeginCreate(c, {k})], s2, order);
    var rest := ConfirmAndCommit(s2, c, k, order);
    assert s2.creating - {c} == s.creating;
    hide Run, Next;
    RunAppend(s, [CreateGroup(g)] + [BeginCreate(c, {k})], s2, rest, Granted(s, k), order);
    ops := [CreateGroup(g)] + [BeginCreate(c, {k})] + rest;
  }

  lemma ConfirmAndCommit(s: State, c: nat, k: PermKey, order: Order) returns (ops: seq<Op>)
    requires k.identity.kind == GROUP && k !in s.perms && c in s.creating && s.creating[c] == Creating({k}, {})
    requires k.identity.id in s.status && s.status[k.identity.id] == Active
    ensures Run(s, ops, s.(perms := s.perms + {k}, creating := s.creating - {c}), order)
  {
    var g := k.identity.id;
    var s1 := Next(s, Confirm(c, g), order);
    var t := s.(perms := s.perms + {k}, creating := s.creating - {c});
    assert GroupsOf({k}) == {g};
    assert Next(s1, Commit(c), order) == t by {
      assert s1.creating - {c} == s.creating - {c};
    }
    RunOne(s1, Commit(c), order);
    RunCons(s, Confirm(c, g), [Commit(c)], t, order);
    ops := [Confirm(c, g)] + [Commit(c)];
  }

  ghost function Granted(s: State, k: PermKey): State {
    s.(status := s.status[k.identity.id := Active], roles := s.roles + {k.identity.id}, perms := s.perms + {k})
  }

  /** A delete call erases all it has listed, one row at a time, and then has nothing left to do but close. */
  lemma {:induction false} EraseOut(s: State, d: nat, order: Order) returns (ops: seq<Op>, t: State)
    requires d in s.deleting && s.deleting[d].Erasing?
    ensures Run(s, ops, t, order) && t.perms <= s.perms && TakesNoName(ops)
    ensures t == s.(perms := t.perms, deleting := s.deleting[d := Erasing(s.deleting[d].group, {})])
    decreases s.deleting[d].left
  {
    if s.deleting[d].left == {} {
      ops, t := [], s;
      assert s.deleting[d := Erasing(s.deleting[d].group, {})] == s.deleting;
    } else {
      var k :| k in s.deleting[d].left;
      var s1 := Next(s, EraseChunk(d, {k}), order);
      var rest;
      rest, t := EraseOut(s1, d, order);
      assert s1.deleting[d := Erasing(s.deleting[d].group, {})] == s.deleting[d := Erasing(s.deleting[d].group, {})];
      RunCons(s, EraseChunk(d, {k}), rest, t, order);
      ops := [EraseChunk(d, {k})] + rest;
    }
  }

  /** The same for a call that is still listing: it reads to the end first. */
  lemma ListOut(s: State, d: nat, order: Order) returns (ops: seq<Op>, t: State)
    requires d in s.deleting && !s.deleting[d].Closing?
    ensures Run(s, ops, t, order) && t.perms <= s.perms && TakesNoName(ops)
    ensures t == s.(perms := t.perms, deleting := s.deleting[d := Erasing(s.deleting[d].group, {})])
  {
    if s.deleting[d].Erasing? {
      ops, t := EraseOut(s, d, order);
    } else {
      var g := s.deleting[d].group;
      var upTo := PastAll(Held(s.perms, g), order);
      var far := if upTo < s.deleting[d].from then s.deleting[d].from else upTo;
      var s1 := Next(s, ListPage(d, far, true), order);
      var rest;
      rest, t := EraseOut(s1, d, order);
      assert s1.deleting[d := Erasing(g, {})] == s.deleting[d := Erasing(g, {})];
      RunCons(s, ListPage(d, far, true), rest, t, order);
      ops := [ListPage(d, far, true)] + rest;
    }
  }

  /** A call with nothing left to erase closes a group that was created anew, granted a permission and locked. */
  lemma CloseAnew(s: State, stale: nat, d: nat, k: PermKey, order: Order) returns (ops: seq<Op>, t: State)
    requires stale in s.deleting && d !in s.deleting && k.identity.kind == GROUP && k in s.perms
    requires k.identity.id in s.status && k.identity.id in s.roles
    requires s.deleting[stale] == Erasing(k.identity.id, {}) || s.deleting[stale] == Closing(k.identity.id)
    ensures Run(s, ops, t, order) && k.identity.id !in t.status && k in Held(t.perms, k.identity.id)
  {
    var g := k.identity.id;
    var s1 := Next(s, Lock(d, g), order);
    if s.deleting[stale].Closing? {
      t := Next(s1, Finish(stale), order);
      RunOne(s1, Finish(stale), order);
      RunCons(s, Lock(d, g), [Finish(stale)], t, order);
      ops := [Lock(d, g)] + [Finish(stale)];
    } else {
      var s2 := Next(s1, RemoveRole(stale), order);
      t := Next(s2, Finish(stale), order);
      RunOne(s2, Finish(stale), order);
      RunCons(s1, RemoveRole(stale), [Finish(stale)], t, order);
      RunCons(s, Lock(d, g), [RemoveRole(stale)] + [Finish(stale)], t, order);
      ops := [Lock(d, g)] + ([RemoveRole(stale)] + [Finish(stale)]);
    }
  }

  /**
   * Any delete call left over from before the name was taken again, whatever it had still to do, can close the new
   * group as soon as that group is locked, without having looked at what it holds.
   */
  lemma StaleDeleteCloses(s: State, stale: nat, d: nat, c: nat, k: PermKey, order: Order)
    returns (ops: seq<Op>, t: State)
    requires k.identity.kind == GROUP && k !in s.perms && d !in s.deleting && c !in s.creating
    requires stale in s.deleting && s.deleting[stale].group == k.identity.id
    requires k.identity.id !in s.status && k.identity.id !in s.roles
    ensures Run(s, ops, t, order)
    ensures k.identity.id !in t.status && k in Held(t.perms, k.identity.id)
  {
    var done: seq<Op>, s1 := [], s;
    assert Run(s, done, s1, order);
    if !s.deleting[stale].Closing? {
      done, s1 := ListOut(s, stale, order);
    }
    var granted := CreateAndGrant(s1, c, k, order);
    var rest;
    rest, t := CloseAnew(Granted(s1, k), stale, d, k, order);
    hide Run;
    RunAppend(s, done, s1, granted, Granted(s1, k), order);
    RunAppend(s, done + granted, Granted(s1, k), rest, t, order);
    ops := done + granted + rest;
  }

  // ----- Both happen -----

  /** The service before its first call. */
  ghost function Empty(): State {
    State(map[], {}, {}, map[], map[])
  }

  lemma EmptyKeeps(order: Order)
    ensures Inv(Empty(), order)
  {}

  /** Two calls delete the same group, and one is through before the other: that one is left over. */
  lemma OneDeleteLeftOver(g: string, order: Order) returns (ops: seq<Op>)
    ensures Run(Empty(), ops, Empty().(deleting := map[1 := Listing(g, 0, {})]), order)
  {
    var t := Empty().(deleting := map[1 := Listing(g, 0, {})]);
    var s1 := Next(Empty(), CreateGroup(g), order);
    var s2 := Next(s1, Lock(1, g), order);
    RunOne(s1, Lock(1, g), order);
    RunCons(Empty(), CreateGroup(g), [Lock(1, g)], s2, order);
    var whole := DeleteCompletes(s2, 0, g, order);
    assert Closed(s2, g) == t;
    QuietIsRun(Next(s2, whole[0], order), whole[1..], t, order);
    assert whole == [whole[0]] + whole[1..];
    RunCons(s2, whole[0], whole[1..], t, order);
    hide Run, Next;
    RunAppend(Empty(), [CreateGroup(g)] + [Lock(1, g)], s2, whole, t, order);
    ops := [CreateGroup(g)] + [Lock(1, g)] + whole;
  }

  /** From the first call on: a leftover delete call closes a group of the same name with its permissions in place. */
  lemma StaleDeleteHappens(k: PermKey, order: Order) returns (ops: seq<Op>, t: State)
    requires k.identity.kind == GROUP
    ensures Run(Empty(), ops, t, order)
    ensures k.identity.id !in t.status && k in Held(t.perms, k.identity.id)
  {
    var g := k.identity.id;
    var s := Empty().(deleting := map[1 := Listing(g, 0, {})]);
    var before := OneDeleteLeftOver(g, order);
    var rest;
    rest, t := StaleDeleteCloses(s, 1, 0, 0, k, order);
    hide Run;
    RunAppend(Empty(), before, s, rest, t, order);
    ops := before + rest;
  }

  // ----- The calls themselves -----

  lemma KeysWithout(perms: Perms, group: string)
    ensures WithoutIdentity(perms, Identity(GROUP, group)).Keys == perms.Keys - Held(perms.Keys, group)
  {}

  class GroupService {
    var status: map<string, Status>
    var roles: set<string>
    const table: PermissionTable

    constructor (table: PermissionTable)
      requires table.Valid() && table.perms == map[]
      ensures this.table == table && status == map[] && roles == {}
      ensures forall order: Order :: Inv(Contents(), order)
    {
      this.table := table;
      status, roles := map[], {};
    }

    /** The state with no call under way. */
    ghost function Contents(): State
      reads this, table
    {
      State(status, roles, table.perms.Keys, map[], map[])
    }

    /** Takes a name that has neither a status nor a role. */
    method CreateGroup(group: string) returns (error: Option<GroupError>)
      modifies this
      ensures error == if group in old(status) || group in old(roles) then Some(GroupAlreadyExists) else None
      ensures Contents() ==
        if error.None? then old(Contents()).(status := old(status)[group := Active], roles := old(roles) + {group})
        else old(Contents())
    {
      if group in status {
        return Some(GroupAlreadyExists);
      }
      if group in roles {
        return Some(GroupAlreadyExists);
      }
      roles := roles + {group};
      status := status[group := Active];
      return None;
    }

    /** Locks the group, deletes all it holds, removes its role and only then its status. */
    method DeleteGroup(group: string) returns (error: Option<GroupError>)
      requires table.Valid()
      modifies this, table
      ensures table.Valid()
      ensures error == if group in old(status) && group in old(roles) then None else Some(GroupNotExisting)
      ensures error.None? ==> group !in status && group !in roles
      ensures group in old(status) ==> forall k ::
          k in table.perms <==> k in old(table.perms) && k.identity != Identity(GROUP, group)
      ensures error.None? ==> Contents() == Closed(old(Contents()), group)
      ensures error.Some? && group in old(status) ==>
        Contents() == Closed(old(Contents()), group).(status := old(status)[group := DeletePending])
      ensures group !in old(status) ==> Contents() == old(Contents())
    {
      if group !in status {
        return Some(GroupNotExisting);
      }
      status := status[group := DeletePending];
      KeysWithout(table.perms, group);
      DeleteAllByIdentity(table, Identity(GROUP, group));
      hide WithoutIdentity, Held;
      if group !in roles {
        return Some(GroupNotExisting);
      }
      roles := roles - {group};
      status := status - {group};
      return None;
    }
  }
}
