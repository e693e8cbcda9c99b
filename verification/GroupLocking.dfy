/** When locking a group is safe: exactly when no create that saw it active can still commit. */
module GroupLocking {
  import opened PermissionKeys
  import opened PermissionStore
  import opened GroupLifecycle

  // ----- Which groups can still become active -----

  ghost predicate CallOn(s: State, d: nat, g: string) {
    d in s.deleting && s.deleting[d].group == g
  }

  /** A delete call has yet to close the group, or has yet to remove its role. */
  ghost predicate HasClosing(s: State, g: string) {
    exists d :: CallOn(s, d, g) && s.deleting[d].Closing?
  }

  ghost predicate HasEarlier(s: State, g: string) {
    exists d :: CallOn(s, d, g) && !s.deleting[d].Closing?
  }

  /**
   * A group is active or can be made so: a locked one by deleting it and taking its name again, which needs its role
   * or a call past removing it; one without status by taking its name, once some call has removed its role.
   */
  ghost predicate CanBeActive(s: State, g: string) {
    if g in s.status then s.status[g] == Active || g in s.roles || HasClosing(s, g)
    else g !in s.roles || HasEarlier(s, g)
  }

  /** A group that cannot become active never can again. */
  lemma StaysInactive(s: State, op: Op, g: string, order: Order)
    requires Enabled(s, op, order) && !CanBeActive(s, g)
    ensures !CanBeActive(Next(s, op, order), g)
  {
    var t := Next(s, op, order);
    if g in s.status {
      assert forall d :: CallOn(s, d, g) ==> !s.deleting[d].Closing?;
      assert forall d :: CallOn(t, d, g) ==> !t.deleting[d].Closing?;
    } else {
      assert forall d :: CallOn(s, d, g) ==> s.deleting[d].Closing?;
      assert forall d :: CallOn(t, d, g) ==> t.deleting[d].Closing?;
    }
  }

  // ----- After the lock: nothing comes in any more -----

  /** A create call that can no longer commit: it has not seen the group active, or waits in vain for another. */
  ghost predicate Barred(s: State, c: nat, g: string)
    requires c in s.creating
  {
    || g !in s.creating[c].confirmed
    || exists h :: h in GroupsOf(s.creating[c].keys) && h !in s.creating[c].confirmed && !CanBeActive(s, h)
  }

  /** A create call that names the group has seen it active, and sees or can come to see all its other groups so. */
  ghost predicate CanStillCommit(s: State, c: nat, g: string) {
    && c in s.creating && g in GroupsOf(s.creating[c].keys) && g in s.creating[c].confirmed
    && forall h :: h in GroupsOf(s.creating[c].keys) ==> h in s.creating[c].confirmed || CanBeActive(s, h)
  }

  /** A locked or deleted group into which no create call can bring anything any more. */
  ghost predicate Sealed(s: State, g: string, order: Order) {
    && (if g in s.status then s.status[g] == DeletePending else Held(s.perms, g) == {})
    && (forall d :: CallOn(s, d, g) ==> Covers(s.deleting[d], s.perms, order))
    && (forall c :: c in s.creating && g in GroupsOf(s.creating[c].keys) ==> Barred(s, c, g))
  }

  lemma BarredCannotCommit(s: State, c: nat, g: string, order: Order)
    requires c in s.creating && g in GroupsOf(s.creating[c].keys) && Barred(s, c, g)
    ensures !Enabled(s, Commit(c), order)
  {}

  lemma StaysBarred(s: State, op: Op, g: string, order: Order, c: nat)
    requires Enabled(s, op, order) && (g in s.status ==> s.status[g] == DeletePending)
    requires c in s.creating ==> Barred(s, c, g)
    requires c in Next(s, op, order).creating
    ensures Barred(Next(s, op, order), c, g)
  {
    var t := Next(s, op, order);
    if c in s.creating && g in s.creating[c].confirmed && g in t.creating[c].confirmed
        && t.creating[c].keys == s.creating[c].keys {
      var h :| h in GroupsOf(s.creating[c].keys) && h !in s.creating[c].confirmed && !CanBeActive(s, h);
      StaysInactive(s, op, h, order);
      assert h !in t.creating[c].confirmed;
    }
  }

  lemma HeldShrinks(s: State, op: Op, g: string, order: Order)
    requires Enabled(s, op, order) && Sealed(s, g, order)
    ensures Held(Next(s, op, order).perms, g) <= Held(s.perms, g)
  {
    if op.Commit? {
      var keys := s.creating[op.call].keys;
      if g in GroupsOf(keys) {
        BarredCannotCommit(s, op.call, g, order);
      }
      assert forall k :: k in keys && k.identity == Identity(GROUP, g) ==> g in GroupsOf(keys);
    }
  }

  lemma StaysCovered(s: State, op: Op, g: string, order: Order, d: nat)
    requires Enabled(s, op, order) && Sealed(s, g, order) && CallOn(Next(s, op, order), d, g)
    ensures Covers(Next(s, op, order).deleting[d], Next(s, op, order).perms, order)
  {
    var t := Next(s, op, order);
    HeldShrinks(s, op, g, order);
    if CallOn(s, d, g) {
      assert Covers(s.deleting[d], s.perms, order);
    }
  }

  lemma StaysSealed(s: State, op: Op, g: string, order: Order)
    requires Enabled(s, op, order) && Sealed(s, g, order) && op != CreateGroup(g)
    ensures Sealed(Next(s, op, order), g, order)
  {
    var t := Next(s, op, order);
    HeldShrinks(s, op, g, order);
    forall d | CallOn(t, d, g)
      ensures Covers(t.deleting[d], t.perms, order)
    {
      StaysCovered(s, op, g, order, d);
    }
    forall c | c in t.creating && g in GroupsOf(t.creating[c].keys)
      ensures Barred(t, c, g)
    {
      BeginsBarred(s, op, g, order, c);
    }
    if op.Finish? && CallOn(s, op.call, g) {
      assert Covers(s.deleting[op.call], s.perms, order);
    }
  }

  lemma BeginsBarred(s: State, op: Op, g: string, order: Order, c: nat)
    requires Enabled(s, op, order) && Sealed(s, g, order)
    requires c in Next(s, op, order).creating && g in GroupsOf(Next(s, op, order).creating[c].keys)
    ensures Barred(Next(s, op, order), c, g)
  {
    StaysBarred(s, op, g, order, c);
  }

  lemma {:induction false} SealedRun(s: State, ops: seq<Op>, t: State, g: string, order: Order)
    requires Run(s, ops, t, order) && Sealed(s, g, order) && NotRecreated(ops, g)
    ensures Sealed(t, g, order)
    decreases |ops|
  {
    if ops == [] {
    } else {
      assert ops[0] in ops;
      StaysSealed(s, ops[0], g, order);
      SealedRun(Next(s, ops[0], order), ops[1..], t, g, order);
    }
  }

  lemma LockSeals(s: State, d: nat, g: string, order: Order)
    requires Inv(s, order) && Enabled(s, Lock(d, g), order)
    requires forall c :: !CanStillCommit(s, c, g)
    ensures Sealed(Next(s, Lock(d, g), order), g, order)
  {
    var t := Next(s, Lock(d, g), order);
    forall c | c in t.creating && g in GroupsOf(t.creating[c].keys)
      ensures Barred(t, c, g)
    {
      assert !CanStillCommit(s, c, g);
      if g in s.creating[c].confirmed {
        var h :| h in GroupsOf(s.creating[c].keys) && h !in s.creating[c].confirmed && !CanBeActive(s, h);
        StaysInactive(s, Lock(d, g), h, order);
      }
    }
    forall e | CallOn(t, e, g)
      ensures Covers(t.deleting[e], t.perms, order)
    {
      assert e != d ==> Covers(s.deleting[e], s.perms, order);
    }
  }

  // ----- After the lock: what a late commit brings in -----

  /** Nothing about the group itself is different; its permissions may be. */
  ghost predicate SameOn(s: State, t: State, g: string) {
    && (g in s.status <==> g in t.status) && (g in s.status ==> t.status[g] == s.status[g])
    && (g in s.roles <==> g in t.roles)
    && forall d :: (CallOn(s, d, g) <==> CallOn(t, d, g)) && (CallOn(s, d, g) ==> t.deleting[d] == s.deleting[d])
  }

  /** Only the one group is different, and no create call is. */
  ghost predicate Elsewhere(s: State, t: State, g: string) {
    t.creating == s.creating && forall h :: h != g ==> SameOn(s, t, h)
  }

  lemma SameCanBeActive(s: State, t: State, g: string)
    requires SameOn(s, t, g) && CanBeActive(s, g)
    ensures CanBeActive(t, g)
  {
    if d :| CallOn(s, d, g) {
      assert CallOn(t, d, g);
    }
    if HasClosing(s, g) {
      var d :| CallOn(s, d, g) && s.deleting[d].Closing?;
      assert CallOn(t, d, g) && t.deleting[d].Closing?;
    }
    if HasEarlier(s, g) {
      var d :| CallOn(s, d, g) && !s.deleting[d].Closing?;
      assert CallOn(t, d, g) && !t.deleting[d].Closing?;
    }
  }

  lemma SameOnThrough(s: State, t: State, u: State, g: string)
    requires SameOn(s, t, g) && SameOn(t, u, g)
    ensures SameOn(s, u, g)
  {
    forall d
      ensures (CallOn(s, d, g) <==> CallOn(u, d, g)) && (CallOn(s, d, g) ==> u.deleting[d] == s.deleting[d])
    {
      assert CallOn(s, d, g) <==> CallOn(t, d, g);
    }
  }

  lemma FreshCall(calls: set<nat>) returns (d: nat)
    ensures d !in calls
  {
    d := 0;
    var left := calls;
    while left != {}
      invariant left <= calls && forall e :: e in calls && e !in left ==> e < d
      decreases left
    {
      var e :| e in left;
      d := if e < d then d else e + 1;
      left := left - {e};
    }
  }

  /** A group that can become active but is not can be made to give up its name. */
  lemma GiveUpName(s: State, g: string, order: Order) returns (ops: seq<Op>, t: State)
    requires CanBeActive(s, g) && (g in s.status ==> s.status[g] != Active)
    ensures Run(s, ops, t, order) && Elsewhere(s, t, g) && TakesNoName(ops)
    ensures g !in t.status && g !in t.roles
  {
    if g in s.status && g in s.roles {
      ops, t := GiveUpByDeleting(s, g, order);
    } else if g in s.status {
      var d :| CallOn(s, d, g) && s.deleting[d].Closing?;
      ops, t := [Finish(d)], Next(s, Finish(d), order);
      RunOne(s, Finish(d), order);
    } else if g in s.roles {
      var d :| CallOn(s, d, g) && !s.deleting[d].Closing?;
      ops, t := GiveUpRole(s, d, g, order);
    } else {
      ops, t := [], s;
    }
  }

  lemma GiveUpByDeleting(s: State, g: string, order: Order) returns (ops: seq<Op>, t: State)
    requires g in s.status && g in s.roles
    ensures Run(s, ops, t, order) && Elsewhere(s, t, g) && TakesNoName(ops)
    ensures g !in t.status && g !in t.roles
  {
    var d := FreshCall(s.deleting.Keys);
    ops := DeleteCompletes(s, d, g, order);
    t := Closed(s, g);
    assert Elsewhere(s, t, g);
    hide Elsewhere, TakesNoName, Enabled, Next;
    QuietIsRun(Next(s, ops[0], order), ops[1..], t, order);
    assert ops == [ops[0]] + ops[1..];
    RunCons(s, ops[0], ops[1..], t, order);
  }

  lemma GiveUpRole(s: State, d: nat, g: string, order: Order) returns (ops: seq<Op>, t: State)
    requires CallOn(s, d, g) && !s.deleting[d].Closing? && g !in s.status && g in s.roles
    ensures Run(s, ops, t, order) && Elsewhere(s, t, g) && TakesNoName(ops)
    ensures g !in t.status && g !in t.roles
  {
    var rest, s1 := ListOut(s, d, order);
    t := Next(s1, RemoveRole(d), order);
    RunOne(s1, RemoveRole(d), order);
    hide Run;
    RunAppend(s, rest, s1, [RemoveRole(d)], t, order);
    ops := rest + [RemoveRole(d)];
  }

  lemma Activate(s: State, g: string, order: Order) returns (ops: seq<Op>, t: State)
    requires CanBeActive(s, g)
    ensures Run(s, ops, t, order) && Elsewhere(s, t, g) && (forall h :: h != g ==> NotRecreated(ops, h))
    ensures g in t.status && t.status[g] == Active
  {
    if g in s.status && s.status[g] == Active {
      ops, t := [], s;
    } else {
      var rest, s1 := GiveUpName(s, g, order);
      t := Next(s1, CreateGroup(g), order);
      RunOne(s1, CreateGroup(g), order);
      RunAppend(s, rest, s1, [CreateGroup(g)], t, order);
      ops := rest + [CreateGroup(g)];
      forall h | h != g
        ensures NotRecreated(ops, h) && SameOn(s, t, h)
      {
        NotRecreatedAppend(rest, [CreateGroup(g)], h);
        assert SameOn(s1, t, h);
        SameOnThrough(s, s1, t, h);
      }
    }
  }

  /** A create call comes to see all these groups active, and the one left out stays as it is. */
  lemma {:induction false} ConfirmAll(s: State, c: nat, groups: set<string>, g: string, order: Order)
    returns (ops: seq<Op>, t: State)
    requires c in s.creating && g !in groups && forall h :: h in groups ==> CanBeActive(s, h)
    ensures Run(s, ops, t, order) && SameOn(s, t, g) && NotRecreated(ops, g)
    ensures c in t.creating && t.creating[c] == Creating(s.creating[c].keys, s.creating[c].confirmed + groups)
    decreases groups
  {
    if groups == {} {
      ops, t := [], s;
      assert s.creating[c].confirmed + groups == s.creating[c].confirmed;
    } else {
      var h :| h in groups;
      var first, s1 := Activate(s, h, order);
      var s2 := Next(s1, Confirm(c, h), order);
      forall i | i in groups - {h}
        ensures CanBeActive(s2, i)
      {
        SameCanBeActive(s, s1, i);
        assert SameOn(s1, s2, i);
        SameCanBeActive(s1, s2, i);
      }
      var rest;
      rest, t := ConfirmAll(s2, c, groups - {h}, g, order);
      assert s.creating[c].confirmed + {h} + (groups - {h}) == s.creating[c].confirmed + groups;
      assert SameOn(s1, s2, g);
      RunOne(s1, Confirm(c, h), order);
      hide Run, Next, Enabled, SameOn, CanBeActive;
      SameOnThrough(s, s1, s2, g);
      SameOnThrough(s, s2, t, g);
      RunAppend(s, first, s1, [Confirm(c, h)], s2, order);
      RunAppend(s, first + [Confirm(c, h)], s2, rest, t, order);
      NotRecreatedAppend(first, [Confirm(c, h)], g);
      NotRecreatedAppend(first + [Confirm(c, h)], rest, g);
      ops := first + [Confirm(c, h)] + rest;
    }
  }

  /** The call that locked the group lists, erases and closes. */
  lemma CloseCall(s: State, d: nat, g: string, order: Order) returns (ops: seq<Op>, t: State)
    requires CallOn(s, d, g) && s.deleting[d].Listing? && g in s.roles && g in s.status && s.status[g] == DeletePending
    ensures Run(s, ops, t, order) && NotRecreated(ops, g)
    ensures g !in t.status && t.creating == s.creating
  {
    var listed, s1 := ListOut(s, d, order);
    var s2 := Next(s1, RemoveRole(d), order);
    t := Next(s2, Finish(d), order);
    RunOne(s2, Finish(d), order);
    RunCons(s1, RemoveRole(d), [Finish(d)], t, order);
    var rest := [RemoveRole(d)] + [Finish(d)];
    RunAppend(s, listed, s1, rest, t, order);
    NotRecreatedAppend(listed, rest, g);
    ops := listed + rest;
  }

  /** With the group deleted, the rows in the way of a create can go, and then it commits. */
  lemma CommitLate(s: State, c: nat, k: PermKey, order: Order) returns (ops: seq<Op>, t: State)
    requires c in s.creating && GroupsOf(s.creating[c].keys) <= s.creating[c].confirmed
        && |s.creating[c].keys| <= MAX_BATCH
    requires k in s.creating[c].keys && k.identity.kind == GROUP && k.identity.id !in s.status
    ensures Run(s, ops, t, order) && TakesNoName(ops)
    ensures k.identity.id !in t.status && k in Held(t.perms, k.identity.id)
  {
    var keys := s.creating[c].keys;
    var s1 := Next(s, DeletePermissions(keys), order);
    t := Next(s1, Commit(c), order);
    RunOne(s1, Commit(c), order);
    RunCons(s, DeletePermissions(keys), [Commit(c)], t, order);
    ops := [DeletePermissions(keys)] + [Commit(c)];
  }

  /** After a lock that does not wait for it, a create that saw the group active commits behind the deletion. */
  lemma LockEscapes(s: State, d: nat, g: string, c: nat, order: Order) returns (ops: seq<Op>, t: State)
    requires Inv(s, order) && Enabled(s, Lock(d, g), order) && CanStillCommit(s, c, g)
    ensures Run(Next(s, Lock(d, g), order), ops, t, order) && NotRecreated(ops, g)
    ensures g !in t.status && Held(t.perms, g) != {}
  {
    var s1 := Next(s, Lock(d, g), order);
    var keys := s.creating[c].keys;
    var others := set h | h in GroupsOf(keys) && h !in s.creating[c].confirmed;
    var k :| k in keys && k.identity.kind == GROUP && k.identity.id == g;
    forall h | h in others
      ensures CanBeActive(s1, h)
    {
      assert SameOn(s, s1, h);
      SameCanBeActive(s, s1, h);
    }
    var seen, s2 := ConfirmAll(s1, c, others, g, order);
    assert CallOn(s1, d, g) && s1.deleting[d] == Listing(g, 0, {});
    assert CallOn(s2, d, g);
    var done, s3 := CloseCall(s2, d, g, order);
    var late;
    late, t := CommitLate(s3, c, k, order);
    hide Run, Next, Enabled, Inv;
    RunAppend(s1, seen, s2, done, s3, order);
    RunAppend(s1, seen + done, s3, late, t, order);
    NotRecreatedAppend(seen, done, g);
    NotRecreatedAppend(seen + done, late, g);
    ops := seen + done + late;
  }

  /**
   * Locking a group is safe, over every run that does not take its name again, whatever else goes on: the group,
   * once deleted, holds nothing, if and only if at the lock no create that saw it active can still commit.
   */
  lemma LockSafeIff(s: State, d: nat, g: string, order: Order)
    requires Inv(s, order) && Enabled(s, Lock(d, g), order)
    ensures
      (forall ops, t :: Run(Next(s, Lock(d, g), order), ops, t, order) && NotRecreated(ops, g) && g !in t.status ==>
        Held(t.perms, g) == {})
      <==> !exists c :: CanStillCommit(s, c, g)
  {
    if c :| CanStillCommit(s, c, g) {
      var ops, t := LockEscapes(s, d, g, c, order);
    } else {
      LockSeals(s, d, g, order);
      var s1 := Next(s, Lock(d, g), order);
      forall ops, t | Run(s1, ops, t, order) && NotRecreated(ops, g) && g !in t.status
        ensures Held(t.perms, g) == {}
      {
        SealedRun(s1, ops, t, g, order);
      }
    }
  }

  /**
   * Whatever else is going on: if a create call names an active group and has seen, or can come to see, all its other
   * groups active, it can see this one too, and commit only after the group has been locked and deleted.
   */
  lemma LateCommitEscapes(s: State, c: nat, d: nat, g: string, order: Order) returns (ops: seq<Op>, t: State)
    requires Inv(s, order) && d !in s.deleting && g in s.status && s.status[g] == Active
    requires c in s.creating && g in GroupsOf(s.creating[c].keys)
    requires forall h :: h in GroupsOf(s.creating[c].keys) ==> h in s.creating[c].confirmed || CanBeActive(s, h)
    ensures Run(s, ops, t, order) && NotRecreated(ops, g)
    ensures g !in t.status && Held(t.perms, g) != {}
  {
    var s1 := Next(s, Confirm(c, g), order);
    StepKeeps(s, Confirm(c, g), order);
    forall h | h in GroupsOf(s1.creating[c].keys)
      ensures h in s1.creating[c].confirmed || CanBeActive(s1, h)
    {
      assert SameOn(s, s1, h);
      if h !in s.creating[c].confirmed {
        SameCanBeActive(s, s1, h);
      }
    }
    var rest;
    rest, t := LockEscapes(s1, d, g, c, order);
    RunCons(s1, Lock(d, g), rest, t, order);
    RunCons(s, Confirm(c, g), [Lock(d, g)] + rest, t, order);
    ops := [Confirm(c, g)] + ([Lock(d, g)] + rest);
  }

  /** From the first call on: a group ends up deleted while a create that saw it active is still to commit. */
  lemma LateCommitHappens(k: PermKey, order: Order) returns (ops: seq<Op>, t: State)
    requires k.identity.kind == GROUP
    ensures Run(Empty(), ops, t, order)
    ensures k.identity.id !in t.status && Held(t.perms, k.identity.id) != {}
  {
    var g := k.identity.id;
    EmptyKeeps(order);
    var s1 := Next(Empty(), CreateGroup(g), order);
    StepKeeps(Empty(), CreateGroup(g), order);
    var s2 := Next(s1, BeginCreate(0, {k}), order);
    StepKeeps(s1, BeginCreate(0, {k}), order);
    assert GroupsOf({k}) == {g};
    var rest;
    rest, t := LateCommitEscapes(s2, 0, 0, g, order);
    RunCons(s1, BeginCreate(0, {k}), rest, t, order);
    RunCons(Empty(), CreateGroup(g), [BeginCreate(0, {k})] + rest, t, order);
    ops := [CreateGroup(g)] + ([BeginCreate(0, {k})] + rest);
  }
}
