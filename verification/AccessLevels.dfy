/**
 * Dataset access levels over identity permissions: requests become READ and UPDATE entries, and entries are
 * folded back into one level per identity.
 */
module AccessLevels {
  import opened Prelude
  import opened PermissionKeys
  import opened PermissionStore
  import opened Authorization

  const DATASET_SUBJECT: string := "Dataset"

  datatype Level = ReadOnly | ReadWrite

  /** The level one identity has on a dataset. */
  datatype Access = Access(identity: Identity, level: Level)

  /** The accesses reported for one dataset. */
  datatype Response = Response(dataSetId: string, permissions: seq<Access>)

  datatype AccessError = UnsupportedAction | UnsupportedEffect

  // ----- From levels to permissions -----

  function Describe(level: Level, dataSetId: string): Payload {
    Payload(None, None,
        Some((if level == ReadOnly then "'read-only'" else "'read-write'") + " access on DataSet '" + dataSetId + "'"))
  }

  function AccessKey(dataSetId: string, action: Action, identity: Identity): PermKey {
    PermKey(DATASET_SUBJECT, dataSetId, action, ALLOW, identity)
  }

  function Expand(dataSetId: string, a: Access): seq<Permission> {
    [Permission(AccessKey(dataSetId, READ, a.identity), Describe(a.level, dataSetId))]
    + if a.level == ReadOnly then []
      else [Permission(AccessKey(dataSetId, UPDATE, a.identity), Describe(ReadWrite, dataSetId))]
  }

  function ExpandAll(dataSetId: string, requests: seq<Access>): seq<Permission> {
    if requests == [] then []
    else ExpandAll(dataSetId, requests[..|requests| - 1]) + Expand(dataSetId, requests[|requests| - 1])
  }

  /** What a request asks for: READ, and for read-write UPDATE too, without conditions, described by its level. */
  ghost predicate AsksFor(dataSetId: string, request: Access, p: Permission) {
    && p.key.subjectType == "Dataset" && p.key.subjectId == dataSetId
    && p.key.effect == ALLOW && p.key.identity == request.identity
    && (p.key.action == READ || (p.key.action == UPDATE && request.level == ReadWrite))
    && p.payload == Payload(None, None, Some(
         if request.level == ReadOnly then "'read-only' access on DataSet '" + dataSetId + "'"
         else "'read-write' access on DataSet '" + dataSetId + "'"))
  }

  lemma DescribeIs(level: Level, dataSetId: string)
    ensures Describe(level, dataSetId) == Payload(None, None, Some(
      if level == ReadOnly then "'read-only' access on DataSet '" + dataSetId + "'"
      else "'read-write' access on DataSet '" + dataSetId + "'"))
  {
    assert "'read-only'" + " access on DataSet '" == "'read-only' access on DataSet '";
    assert "'read-write'" + " access on DataSet '" == "'read-write' access on DataSet '";
  }

  lemma ExpandAsks(dataSetId: string, request: Access, p: Permission)
    ensures p in Expand(dataSetId, request) <==> AsksFor(dataSetId, request, p)
  {
    DescribeIs(request.level, dataSetId);
    hide Describe;
    var key := p.key;
    assert key == PermKey(key.subjectType, key.subjectId, key.action, key.effect, key.identity);
  }

  lemma {:induction false} ExpansionAsks(dataSetId: string, requests: seq<Access>)
    ensures forall p :: p in ExpandAll(dataSetId, requests) <==>
      exists i :: 0 <= i < |requests| && AsksFor(dataSetId, requests[i], p)
  {
    if requests == [] {
    } else {
      var front, last := requests[..|requests| - 1], requests[|requests| - 1];
      ExpansionAsks(dataSetId, front);
      hide Expand, AsksFor;
      forall p
        ensures p in ExpandAll(dataSetId, requests) <==>
          exists i :: 0 <= i < |requests| && AsksFor(dataSetId, requests[i], p)
      {
        ExpandAsks(dataSetId, last, p);
        assert forall i :: 0 <= i < |front| ==> front[i] == requests[i];
      }
    }
  }

  method ToIdentityPermissions(dataSetId: string, requests: seq<Access>) returns (permissions: seq<Permission>)
    ensures permissions == ExpandAll(dataSetId, requests)
    ensures forall p :: p in permissions <==> exists i :: 0 <= i < |requests| && AsksFor(dataSetId, requests[i], p)
  {
    ExpansionAsks(dataSetId, requests);
    hide AsksFor;
    permissions := [];
    for i := 0 to |requests|
      invariant permissions == ExpandAll(dataSetId, requests[..i])
    {
      assert requests[..i + 1][..i] == requests[..i];
      permissions := permissions
          + [Permission(AccessKey(dataSetId, READ, requests[i].identity), Describe(requests[i].level, dataSetId))];
      if requests[i].level == ReadWrite {
        permissions := permissions
            + [Permission(AccessKey(dataSetId, UPDATE, requests[i].identity), Describe(ReadWrite, dataSetId))];
      }
    }
    assert requests[..|requests|] == requests;
  }

  // ----- From permissions to levels -----

  function LevelOf(a: Action): Level {
    if a == UPDATE then ReadWrite else ReadOnly
  }

  function FindAccess(s: seq<Access>, identity: Identity): Option<nat> {
    if s == [] then None
    else if s[0].identity == identity then Some(0)
    else match FindAccess(s[1..], identity) case Some(i) => Some(i + 1) case None => None
  }

  function FindResponse(s: seq<Response>, dataSetId: string): Option<nat> {
    if s == [] then None
    else if s[0].dataSetId == dataSetId then Some(0)
    else match FindResponse(s[1..], dataSetId) case Some(i) => Some(i + 1) case None => None
  }

  lemma {:induction false} FindAccessFinds(s: seq<Access>, identity: Identity)
    ensures FindAccess(s, identity).Some? ==>
      var i := FindAccess(s, identity).value;
      i < |s| && s[i].identity == identity && forall j :: 0 <= j < i ==> s[j].identity != identity
    ensures FindAccess(s, identity).None? ==> forall j :: 0 <= j < |s| ==> s[j].identity != identity
  {
    if s == [] {
    } else {
      FindAccessFinds(s[1..], identity);
    }
  }

  lemma {:induction false} FindResponseFinds(s: seq<Response>, dataSetId: string)
    ensures FindResponse(s, dataSetId).Some? ==>
      var i := FindResponse(s, dataSetId).value; i < |s| && s[i].dataSetId == dataSetId
    ensures FindResponse(s, dataSetId).None? ==> forall j :: 0 <= j < |s| ==> s[j].dataSetId != dataSetId
  {
    if s == [] {
    } else {
      FindResponseFinds(s[1..], dataSetId);
    }
  }

  /** Some permission of the list mentions this identity on this dataset. */
  ghost predicate Mentions(permissions: seq<Permission>, dataSetId: string, identity: Identity) {
    exists p :: p in permissions && p.key.subjectId == dataSetId && p.key.identity == identity
  }

  ghost predicate Updates(permissions: seq<Permission>, dataSetId: string, identity: Identity) {
    exists p :: p in permissions && p.key.subjectId == dataSetId && p.key.identity == identity && p.key.action == UPDATE
  }

  /** The identities of a dataset in the order in which they are first mentioned. */
  ghost function FirstSeen(permissions: seq<Permission>, dataSetId: string): seq<Identity> {
    if permissions == [] then []
    else
      var front, last := permissions[..|permissions| - 1], permissions[|permissions| - 1].key;
      FirstSeen(front, dataSetId)
      + if last.subjectId == dataSetId && !Mentions(front, dataSetId, last.identity) then [last.identity] else []
  }

  /** The reference answer: each identity once, in first-seen order, read-write iff it has an UPDATE. */
  ghost function Summary(permissions: seq<Permission>, dataSetId: string): seq<Access> {
    var seen := FirstSeen(permissions, dataSetId);
    seq(|seen|, i requires 0 <= i < |seen| => Reported(permissions, dataSetId, seen[i]))
  }

  lemma {:induction false} FirstSeenOnce(permissions: seq<Permission>, dataSetId: string)
    ensures Distinct(FirstSeen(permissions, dataSetId))
    ensures forall id :: id in FirstSeen(permissions, dataSetId) <==> Mentions(permissions, dataSetId, id)
  {
    if permissions == [] {
    } else {
      var front, last := permissions[..|permissions| - 1], permissions[|permissions| - 1];
      assert permissions == front + [last];
      FirstSeenOnce(front, dataSetId);
      assert forall id :: Mentions(permissions, dataSetId, id) <==>
        Mentions(front, dataSetId, id) || (last.key.subjectId == dataSetId && last.key.identity == id);
    }
  }

  /** The place where an identity is first mentioned. */
  ghost predicate FirstAt(permissions: seq<Permission>, dataSetId: string, identity: Identity, a: nat) {
    && a < |permissions|
    && permissions[a].key.subjectId == dataSetId && permissions[a].key.identity == identity
    && !Mentions(permissions[..a], dataSetId, identity)
  }

  /** Identities stand in the order in which they are first mentioned. */
  lemma {:induction false} SeenInOrder(permissions: seq<Permission>, dataSetId: string, i: nat, j: nat, a: nat, b: nat)
    requires i < j < |FirstSeen(permissions, dataSetId)|
    requires FirstAt(permissions, dataSetId, FirstSeen(permissions, dataSetId)[i], a)
    requires FirstAt(permissions, dataSetId, FirstSeen(permissions, dataSetId)[j], b)
    ensures a < b
    decreases |permissions|
  {
    var n := |permissions| - 1;
    var front, seen := permissions[..n], FirstSeen(permissions, dataSetId);
    assert permissions == front + [permissions[n]];
    FirstSeenStep(front, permissions[n], dataSetId);
    FirstSeenOnce(front, dataSetId);
    SeenEarlier(front, permissions[n], dataSetId, i, seen[i], a);
    hide Mentions, FirstSeen;
    if j < |FirstSeen(front, dataSetId)| {
      SeenEarlier(front, permissions[n], dataSetId, j, seen[j], b);
      SeenInOrder(front, dataSetId, i, j, a, b);
    } else {
      SeenLast(front, permissions[n], dataSetId, seen[j], b);
    }
  }

  lemma SeenEarlier(front: seq<Permission>, last: Permission, dataSetId: string, i: nat, identity: Identity, a: nat)
    requires FirstAt(front + [last], dataSetId, identity, a)
    requires i < |FirstSeen(front, dataSetId)| && FirstSeen(front, dataSetId)[i] == identity
    ensures a < |front| && FirstAt(front, dataSetId, identity, a)
  {
    FirstSeenOnce(front, dataSetId);
    assert identity in FirstSeen(front, dataSetId) && Mentions(front, dataSetId, identity);
    assert (front + [last])[..|front|] == front;
    hide FirstSeen;
    if a < |front| {
      assert (front + [last])[..a] == front[..a];
    }
  }

  lemma SeenLast(front: seq<Permission>, last: Permission, dataSetId: string, identity: Identity, b: nat)
    requires FirstAt(front + [last], dataSetId, identity, b) && !Mentions(front, dataSetId, identity)
    ensures b == |front|
  {
    assert forall i :: 0 <= i < |front| ==> front[i] in front && (front + [last])[i] == front[i];
  }

  /** One more permission of a dataset: a new identity is appended, a known one is upgraded by an UPDATE. */
  function AddAccess(permissions: seq<Access>, p: Permission): seq<Access> {
    match FindAccess(permissions, p.key.identity)
    case None => permissions + [Access(p.key.identity, LevelOf(p.key.action))]
    case Some(i) =>
      FindAccessFinds(permissions, p.key.identity);
      if permissions[i].level == ReadOnly && p.key.action == UPDATE
      then permissions[i := Access(p.key.identity, ReadWrite)] else permissions
  }

  lemma OneMore(front: seq<Permission>, p: Permission, dataSetId: string, id: Identity)
    ensures Mentions(front + [p], dataSetId, id) <==>
      Mentions(front, dataSetId, id) || (p.key.subjectId == dataSetId && p.key.identity == id)
    ensures Updates(front + [p], dataSetId, id) <==>
      Updates(front, dataSetId, id) || (p.key.subjectId == dataSetId && p.key.identity == id && p.key.action == UPDATE)
  {
    assert forall q :: q in front + [p] <==> q in front || q == p;
  }

  lemma FirstSeenStep(front: seq<Permission>, p: Permission, dataSetId: string)
    ensures FirstSeen(front + [p], dataSetId)
         == FirstSeen(front, dataSetId)
            + if p.key.subjectId == dataSetId
                && !Mentions(front, dataSetId, p.key.identity) then [p.key.identity] else []
  {
    assert (front + [p])[..|front|] == front;
  }

  ghost function Reported(permissions: seq<Permission>, dataSetId: string, id: Identity): Access {
    Access(id, if Updates(permissions, dataSetId, id) then ReadWrite else ReadOnly)
  }

  lemma SummaryStep(front: seq<Permission>, p: Permission, dataSetId: string)
    ensures Summary(front + [p], dataSetId)
         == if p.key.subjectId == dataSetId then AddAccess(Summary(front, dataSetId), p) else Summary(front, dataSetId)
  {
    var before, after, seen := Summary(front, dataSetId), Summary(front + [p], dataSetId), FirstSeen(front, dataSetId);
    FirstSeenStep(front, p, dataSetId);
    FirstSeenOnce(front, dataSetId);
    forall i | 0 <= i < |seen| && (p.key.subjectId != dataSetId || seen[i] != p.key.identity)
      ensures after[i] == before[i]
    {
      OneMore(front, p, dataSetId, seen[i]);
    }
    if p.key.subjectId == dataSetId {
      SummaryStepHere(front, p, dataSetId);
    }
  }

  /** The summary holds an identity exactly when it is mentioned, at the place where it was first seen. */
  lemma SummaryFinds(permissions: seq<Permission>, dataSetId: string, who: Identity)
    ensures
      var at := FindAccess(Summary(permissions, dataSetId), who);
      && (at.Some? <==> Mentions(permissions, dataSetId, who))
      && (at.Some? <==> who in FirstSeen(permissions, dataSetId))
      && (at.Some? ==>
            && at.value < |FirstSeen(permissions, dataSetId)|
            && FirstSeen(permissions, dataSetId)[at.value] == who)
  {
    var summary, seen := Summary(permissions, dataSetId), FirstSeen(permissions, dataSetId);
    FirstSeenOnce(permissions, dataSetId);
    FindAccessFinds(summary, who);
    assert who in seen <==> Mentions(permissions, dataSetId, who);
    assert forall i :: 0 <= i < |seen| ==> summary[i].identity == seen[i];
    hide Mentions, FirstSeen, FindAccess, Summary;
    if who in seen {
      var i :| 0 <= i < |seen| && seen[i] == who;
      assert summary[i].identity == who;
    }
  }

  lemma SummaryStepHere(front: seq<Permission>, p: Permission, dataSetId: string)
    requires p.key.subjectId == dataSetId
    requires var seen := FirstSeen(front, dataSetId);
      && Distinct(seen)
      && |Summary(front + [p], dataSetId)| == |FirstSeen(front + [p], dataSetId)| >= |seen|
      && forall i :: 0 <= i < |seen| && seen[i] != p.key.identity ==>
          Summary(front + [p], dataSetId)[i] == Summary(front, dataSetId)[i]
    ensures Summary(front + [p], dataSetId) == AddAccess(Summary(front, dataSetId), p)
  {
    var before, after, seen := Summary(front, dataSetId), Summary(front + [p], dataSetId), FirstSeen(front, dataSetId);
    var who := p.key.identity;
    FirstSeenStep(front, p, dataSetId);
    SummaryFinds(front, dataSetId, who);
    OneMore(front, p, dataSetId, who);
    assert Updates(front, dataSetId, who) ==> Mentions(front, dataSetId, who);
    assert |before| == |seen| && forall i :: 0 <= i < |seen| ==> before[i] == Reported(front, dataSetId, seen[i]);
    assert forall i :: 0 <= i < |after| ==>
        after[i] == Reported(front + [p], dataSetId, FirstSeen(front + [p], dataSetId)[i]);
    hide Mentions, Updates, FirstSeen, Summary, FindAccess;
    if FindAccess(before, who).None? {
      assert after[|seen|] == Access(who, LevelOf(p.key.action));
      assert forall j :: 0 <= j < |seen| ==> seen[j] != who && after[j] == before[j];
    } else {
      var i := FindAccess(before, who).value;
      assert seen[i] == who && before[i] == Reported(front, dataSetId, who);
      assert after[i] == Reported(front + [p], dataSetId, who);
      assert forall j :: 0 <= j < |seen| && j != i ==> seen[j] != who && after[j] == before[j];
    }
  }

  ghost predicate OnDataSet(permissions: seq<Permission>, dataSetId: string) {
    exists p :: p in permissions && p.key.subjectId == dataSetId
  }

  /** One response for each dataset met, holding that dataset's summary. */
  ghost predicate Summarizes(response: seq<Response>, permissions: seq<Permission>) {
    && (forall i, j :: 0 <= i < j < |response| ==> response[i].dataSetId != response[j].dataSetId)
    && (forall i :: 0 <= i < |response| ==>
          && OnDataSet(permissions, response[i].dataSetId)
          && response[i].permissions == Summary(permissions, response[i].dataSetId))
    && (forall d :: OnDataSet(permissions, d) ==> FindResponse(response, d).Some?)
  }

  lemma NotMentionedNotSummarized(permissions: seq<Permission>, dataSetId: string)
    requires !OnDataSet(permissions, dataSetId)
    ensures Summary(permissions, dataSetId) == []
  {
    FirstSeenOnce(permissions, dataSetId);
    var seen := FirstSeen(permissions, dataSetId);
    assert seen != [] ==> Mentions(permissions, dataSetId, seen[0]);
  }

  lemma {:induction false} FindResponseAt(s: seq<Response>, i: nat)
    requires i < |s|
    ensures FindResponse(s, s[i].dataSetId).Some?
  {
    if i == 0 || s[0].dataSetId == s[i].dataSetId {
    } else {
      FindResponseAt(s[1..], i - 1);
    }
  }

  lemma StillFound(before: seq<Response>, after: seq<Response>, d: string)
    requires |before| <= |after| && forall i :: 0 <= i < |before| ==> after[i].dataSetId == before[i].dataSetId
    requires FindResponse(before, d).Some? || exists i :: 0 <= i < |after| && after[i].dataSetId == d
    ensures FindResponse(after, d).Some?
  {
    FindResponseFinds(before, d);
    var i :| 0 <= i < |after| && after[i].dataSetId == d;
    FindResponseAt(after, i);
  }

  function WithPermission(response: seq<Response>, p: Permission): seq<Response> {
    match FindResponse(response, p.key.subjectId)
    case None => response + [Response(p.key.subjectId, [Access(p.key.identity, LevelOf(p.key.action))])]
    case Some(i) =>
      FindResponseFinds(response, p.key.subjectId);
      response[i := Response(p.key.subjectId, AddAccess(response[i].permissions, p))]
  }

  lemma SummarizesMore(response: seq<Response>, front: seq<Permission>, p: Permission)
    requires Summarizes(response, front)
    ensures Summarizes(WithPermission(response, p), front + [p])
  {
    var r := WithPermission(response, p);
    FindResponseFinds(response, p.key.subjectId);
    forall d
      ensures OnDataSet(front + [p], d) <==> OnDataSet(front, d) || d == p.key.subjectId
    {
      assert forall q :: q in front + [p] <==> q in front || q == p;
    }
    WithPermissionFinds(response, p);
    WithPermissionSummary(response, front, p);
    hide Summary, OnDataSet, AddAccess;
  }

  lemma WithPermissionFinds(response: seq<Response>, p: Permission)
    ensures forall d :: FindResponse(response, d).Some? || d == p.key.subjectId ==>
        FindResponse(WithPermission(response, p), d).Some?
  {
    var r, id := WithPermission(response, p), p.key.subjectId;
    FindResponseFinds(response, id);
    assert exists i :: 0 <= i < |r| && r[i].dataSetId == id by {
      var i := if FindResponse(response, id).None? then |response| else FindResponse(response, id).value;
      assert r[i].dataSetId == id;
    }
    hide AddAccess;
    forall d | FindResponse(response, d).Some? || d == id
      ensures FindResponse(r, d).Some?
    {
      StillFound(response, r, d);
    }
  }

  lemma WithPermissionSummary(response: seq<Response>, front: seq<Permission>, p: Permission)
    requires Summarizes(response, front)
    ensures forall i :: 0 <= i < |WithPermission(response, p)| ==>
      var r := WithPermission(response, p)[i];
      r.permissions == Summary(front + [p], r.dataSetId)
  {
    var r, id := WithPermission(response, p), p.key.subjectId;
    assert AddAccess([], p) == [Access(p.key.identity, LevelOf(p.key.action))];
    FindResponseFinds(response, id);
    if !OnDataSet(front, id) {
      NotMentionedNotSummarized(front, id);
    }
    hide Summary, AddAccess, OnDataSet;
    forall i | 0 <= i < |r|
      ensures r[i].permissions == Summary(front + [p], r[i].dataSetId)
    {
      SummaryStep(front, p, r[i].dataSetId);
    }
  }

  /** Folds permissions into levels, upgrading an identity in place when its UPDATE is met. */
  method ToPermissionsResponse(permissions: seq<Permission>) returns (r: Result<seq<Response>, AccessError>)
    ensures r.Failure? <==> exists p ::
        p in permissions && ((p.key.action != READ && p.key.action != UPDATE) || p.key.effect != ALLOW)
    ensures r.Success? ==> Summarizes(r.value, permissions)
  {
    if exists p :: p in permissions && p.key.action != READ && p.key.action != UPDATE {
      return Failure(UnsupportedAction);
    }
    if exists p :: p in permissions && p.key.effect != ALLOW {
      return Failure(UnsupportedEffect);
    }
    var response: seq<Response> := [];
    for n := 0 to |permissions|
      invariant Summarizes(response, permissions[..n])
    {
      assert permissions[..n + 1] == permissions[..n] + [permissions[n]];
      SummarizesMore(response, permissions[..n], permissions[n]);
      response := WithPermission(response, permissions[n]);
    }
    assert permissions[..|permissions|] == permissions;
    r := Success(response);
  }

  // ----- Round trip -----

  ghost predicate Requested(requests: seq<Access>, identity: Identity) {
    exists a :: a in requests && a.identity == identity
  }

  ghost predicate RequestedWrite(requests: seq<Access>, identity: Identity) {
    exists a :: a in requests && a.identity == identity && a.level == ReadWrite
  }

  /** The identities of a request list in first-seen order. */
  ghost function FirstRequested(requests: seq<Access>): seq<Identity> {
    if requests == [] then []
    else
      var front, last := requests[..|requests| - 1], requests[|requests| - 1];
      FirstRequested(front) + if Requested(front, last.identity) then [] else [last.identity]
  }

  function ReadEntry(dataSetId: string, a: Access): Permission {
    Permission(AccessKey(dataSetId, READ, a.identity), Describe(a.level, dataSetId))
  }

  function UpdateEntry(dataSetId: string, a: Access): Permission {
    Permission(AccessKey(dataSetId, UPDATE, a.identity), Describe(ReadWrite, dataSetId))
  }

  lemma ExpandStep(dataSetId: string, front: seq<Access>, last: Access)
    ensures ExpandAll(dataSetId, front + [last])
         == ExpandAll(dataSetId, front) + [ReadEntry(dataSetId, last)]
            + if last.level == ReadOnly then [] else [UpdateEntry(dataSetId, last)]
  {
    assert (front + [last])[..|front|] == front;
  }

  lemma {:induction false} ExpansionMentions(dataSetId: string, requests: seq<Access>, identity: Identity)
    ensures Mentions(ExpandAll(dataSetId, requests), dataSetId, identity) <==> Requested(requests, identity)
    ensures Updates(ExpandAll(dataSetId, requests), dataSetId, identity) <==> RequestedWrite(requests, identity)
  {
    if requests == [] {
    } else {
      var front, last := requests[..|requests| - 1], requests[|requests| - 1];
      assert requests == front + [last];
      ExpansionMentions(dataSetId, front, identity);
      ExpandStep(dataSetId, front, last);
      var expanded, read := ExpandAll(dataSetId, front), ReadEntry(dataSetId, last);
      OneMore(expanded, read, dataSetId, identity);
      OneMore(expanded + [read], UpdateEntry(dataSetId, last), dataSetId, identity);
      assert expanded + [read] + [] == expanded + [read];
      hide ExpandAll, Mentions, Updates;
    }
  }

  lemma {:induction false} ExpansionOrder(dataSetId: string, requests: seq<Access>)
    ensures FirstSeen(ExpandAll(dataSetId, requests), dataSetId) == FirstRequested(requests)
  {
    if requests == [] {
    } else {
      var front, last := requests[..|requests| - 1], requests[|requests| - 1];
      assert requests == front + [last];
      ExpansionOrder(dataSetId, front);
      ExpandStep(dataSetId, front, last);
      ExpansionMentions(dataSetId, front, last.identity);
      var expanded, read := ExpandAll(dataSetId, front), ReadEntry(dataSetId, last);
      FirstSeenStep(expanded, read, dataSetId);
      OneMore(expanded, read, dataSetId, last.identity);
      FirstSeenStep(expanded + [read], UpdateEntry(dataSetId, last), dataSetId);
      assert expanded + [read] + [] == expanded + [read];
      hide ExpandAll, Mentions, Updates, Requested, FirstSeen;
    }
  }

  /** There and back: each requested identity once, in first-seen order, read-write iff some request for it was. */
  lemma LevelsRoundTrip(dataSetId: string, requests: seq<Access>)
    ensures
      var back := Summary(ExpandAll(dataSetId, requests), dataSetId);
      var seen := FirstRequested(requests);
      && |back| == |seen| && Distinct(seen)
      && (forall id :: id in seen <==> Requested(requests, id))
      && forall i :: 0 <= i < |back| ==>
          back[i] == Access(seen[i], if RequestedWrite(requests, seen[i]) then ReadWrite else ReadOnly)
  {
    ExpansionOrder(dataSetId, requests);
    FirstSeenOnce(ExpandAll(dataSetId, requests), dataSetId);
    forall id {
      ExpansionMentions(dataSetId, requests, id);
    }
  }

  // ----- Reading page by page -----

  /** The best level a list reports for an identity. */
  ghost function Best(accesses: seq<Access>, identity: Identity): Option<Level> {
    if Access(identity, ReadWrite) in accesses then Some(ReadWrite)
    else if Access(identity, ReadOnly) in accesses then Some(ReadOnly)
    else None
  }

  lemma BestOfSummary(permissions: seq<Permission>, dataSetId: string, identity: Identity)
    ensures Best(Summary(permissions, dataSetId), identity)
         == if Updates(permissions, dataSetId, identity) then Some(ReadWrite)
            else if Mentions(permissions, dataSetId, identity) then Some(ReadOnly)
            else None
  {
    FirstSeenOnce(permissions, dataSetId);
    var seen, summary := FirstSeen(permissions, dataSetId), Summary(permissions, dataSetId);
    assert forall i :: 0 <= i < |seen| ==> summary[i] == Reported(permissions, dataSetId, seen[i]);
    if Mentions(permissions, dataSetId, identity) {
      var i :| 0 <= i < |seen| && seen[i] == identity;
      assert summary[i] in summary;
      assert forall j :: 0 <= j < |seen| && j != i ==> summary[j].identity != identity;
    }
  }

  ghost function Summaries(pages: seq<seq<Permission>>, dataSetId: string): seq<seq<Access>> {
    seq(|pages|, i requires 0 <= i < |pages| => Summary(pages[i], dataSetId))
  }

  lemma MentionsEither(a: seq<Permission>, b: seq<Permission>, dataSetId: string, identity: Identity)
    ensures Mentions(a + b, dataSetId, identity)
        <==> Mentions(a, dataSetId, identity) || Mentions(b, dataSetId, identity)
    ensures Updates(a + b, dataSetId, identity) <==> Updates(a, dataSetId, identity) || Updates(b, dataSetId, identity)
  {
    assert forall q :: q in a + b <==> q in a || q in b;
  }

  /** Summarizing page by page can repeat an identity, yet reports the same level for it as the unsplit list. */
  lemma {:induction false} PagesReportSameLevels(pages: seq<seq<Permission>>, dataSetId: string, identity: Identity)
    ensures Best(Joined(Summaries(pages, dataSetId)), identity) == Best(Summary(Joined(pages), dataSetId), identity)
  {
    if pages == [] {
      BestOfSummary([], dataSetId, identity);
    } else {
      var front, last := pages[..|pages| - 1], pages[|pages| - 1];
      PagesReportSameLevels(front, dataSetId, identity);
      assert Summaries(pages, dataSetId) == Summaries(front, dataSetId) + [Summary(last, dataSetId)];
      assert Summaries(pages, dataSetId)[..|pages| - 1] == Summaries(front, dataSetId);
      MentionsEither(Joined(front), last, dataSetId, identity);
      BestOfSummary(Joined(front), dataSetId, identity);
      BestOfSummary(last, dataSetId, identity);
      BestOfSummary(Joined(pages), dataSetId, identity);
    }
  }

  // ----- The plugin over the store -----

  datatype AccessPage = AccessPage(permissions: seq<Access>, next: Option<nat>)

  function LevelEntry(): Permission -> bool {
    (p: Permission) => p.key.action == READ || p.key.action == UPDATE
  }

  /** The entries a page holds that speak about levels. */
  ghost function LevelEntries(scanned: seq<Row>, filter: Row -> bool): seq<Permission> {
    Filter(LevelEntry(), Gathered(filter, scanned))
  }

  ghost function DatasetRows(rows: seq<Row>, dataSetId: string): seq<Row> {
    Filter(InSubject(PartitionKey(DATASET_SUBJECT, dataSetId), Prefix(None)), rows)
  }

  /** Entries of one dataset's page all belong to that dataset. */
  lemma PageOnSubject(rows: seq<Row>, perms: Perms, dataSetId: string, from: nat, scanned: seq<Row>,
                      filter: Row -> bool)
    requires Represents(rows, perms)
    requires from + |scanned| <= |DatasetRows(rows, dataSetId)|
        && scanned == DatasetRows(rows, dataSetId)[from..from + |scanned|]
    ensures forall p :: p in Gathered(filter, scanned) ==>
      Holds(perms, p) && OnSubject(p.key, DATASET_SUBJECT, dataSetId, None) && filter(RowOf(p)) && RowOf(p) in scanned
  {
    hide DecodeRow, RowOf, EncodePk, EncodeSk, DistinctRowKeys;
    var listing := DatasetRows(rows, dataSetId);
    var kept := Filter(filter, scanned);
    FilterMembers(filter, scanned);
    FilterMembers(InSubject(PartitionKey(DATASET_SUBJECT, dataSetId), Prefix(None)), rows);
    assert forall x :: x in scanned ==> x in listing;
    assert forall i :: 0 <= i < |kept| ==> kept[i] in kept;
    CollectEach(DecodeRow, kept);
    forall p | p in Gathered(filter, scanned)
      ensures Holds(perms, p) && OnSubject(p.key, DATASET_SUBJECT, dataSetId, None) && filter(RowOf(p))
    {
      var i :| 0 <= i < |kept| && p == DecodeRow(kept[i]).value;
      assert p == Permission(p.key, p.payload);
      SelectedBySubject(p.key, p.payload, DATASET_SUBJECT, dataSetId, None);
    }
  }

  /** An answer about one dataset: at most one response can come back, and none means no access. */
  method SingleResponse(items: seq<Permission>, dataSetId: string) returns (r: Result<seq<Access>, AccessError>)
    requires forall p :: p in items ==> p.key.subjectId == dataSetId && (p.key.action == READ || p.key.action == UPDATE)
    ensures r.Failure? <==> exists p :: p in items && p.key.effect == DENY
    ensures r.Success? ==> r.value == Summary(items, dataSetId)
  {
    var responses := ToPermissionsResponse(items);
    if responses.Failure? {
      return Failure(responses.error);
    }
    OneDataSet(responses.value, items, dataSetId);
    if responses.value == [] {
      NotMentionedNotSummarized(items, dataSetId);
      return Success([]);
    }
    r := Success(responses.value[0].permissions);
  }

  lemma OneDataSet(responses: seq<Response>, items: seq<Permission>, dataSetId: string)
    requires Summarizes(responses, items)
    requires forall p :: p in items ==> p.key.subjectId == dataSetId
    ensures |responses| <= 1
    ensures responses == [] <==> !OnDataSet(items, dataSetId)
    ensures responses != [] ==> responses[0].dataSetId == dataSetId
  {
    forall i | 0 <= i < |responses|
      ensures responses[i].dataSetId == dataSetId
    {
      assert OnDataSet(items, responses[i].dataSetId);
    }
    if responses != [] {
      var last := |responses| - 1;
      assert responses[0].dataSetId == responses[last].dataSetId;
    }
    FindResponseFinds(responses, dataSetId);
  }

  /** One page of a dataset's access levels. */
  method GetAllDataSetAccessPermissions(table: PermissionTable, dataSetId: string, limit: Option<nat>, start: nat)
    returns (r: Result<AccessPage, AccessError>, ghost scanned: seq<Row>, ghost next: Option<nat>)
    requires table.Valid()
    requires limit.Some? ==> limit.value > 0
    ensures PageOf(DatasetRows(table.rows, dataSetId), start, Limit(limit), table.least, scanned, next)
    ensures r.Success? ==> r.value == AccessPage(Summary(LevelEntries(scanned, All()), dataSetId), next)
    ensures r.Failure? <==> exists p :: p in LevelEntries(scanned, All()) && p.key.effect == DENY
  {
    var page;
    page, scanned := table.PageBySubject(DATASET_SUBJECT, dataSetId, None, None, limit, start);
    next := page.value.next;
    var items := Filter(LevelEntry(), page.value.items);
    FilterMembers(LevelEntry(), page.value.items);
    PageOnSubject(table.rows, table.perms, dataSetId, Min(start, |DatasetRows(table.rows, dataSetId)|), scanned, All());
    var single := SingleResponse(items, dataSetId);
    match single
    case Failure(e) => r := Failure(e);
    case Success(permissions) => r := Success(AccessPage(permissions, page.value.next));
  }

  /** The level of one identity, read from the first page only; the identity filter is applied after the limit. */
  method GetAccessPermissions(table: PermissionTable, dataSetId: string, identity: Identity)
    returns (r: Result<seq<Access>, AccessError>, ghost scanned: seq<Row>, ghost next: Option<nat>)
    requires table.Valid()
    ensures r.Success? ==> |r.value| <= 1 && forall a :: a in r.value ==> a.identity == identity
    ensures FirstPage(table.rows, dataSetId, table.least, scanned, next)
    ensures r.Success? ==> r.value == Summary(LevelEntries(scanned, IdentityIn(IdentityKeys([identity]))), dataSetId)
    ensures r.Failure? <==> exists p ::
        p in LevelEntries(scanned, IdentityIn(IdentityKeys([identity]))) && p.key.effect == DENY
    ensures WellShared(table.perms, dataSetId) ==> r.Success?
    ensures
      && WellShared(table.perms, dataSetId)
      && SurelyShown(table.rows, table.perms, dataSetId, identity, table.least)
      ==> Best(r.value, identity) == LevelHeld(table.perms, dataSetId, identity)
    ensures
      && WellShared(table.perms, dataSetId)
      && |Entries(table.perms, dataSetId)| <= Min(table.least, DEFAULT_API_PAGE_SIZE)
      ==> Best(r.value, identity) == LevelHeld(table.perms, dataSetId, identity)
  {
    var page;
    page, scanned := table.PageBySubject(DATASET_SUBJECT, dataSetId, None, Some([identity]), None, 0);
    next := page.value.next;
    var items := Filter(LevelEntry(), page.value.items);
    FilterMembers(LevelEntry(), page.value.items);
    PageOnSubject(table.rows, table.perms, dataSetId, 0, scanned, IdentityIn(IdentityKeys([identity])));
    forall p | p in items
      ensures p.key.identity == identity
    {
      assert p == Permission(p.key, p.payload);
      SelectedByIdentity(p.key, p.payload, [identity]);
    }
    OneIdentity(items, dataSetId, identity);
    r := SingleResponse(items, dataSetId);
    ReadOnWellShared(table.rows, table.perms, dataSetId, identity, table.least, scanned, next);
    hide WellShared, SurelyShown, Summary, LevelEntries, DatasetRows, Entries;
  }

  /** What the first page of a well-shared dataset tells about an identity. */
  lemma ReadOnWellShared(rows: seq<Row>, perms: Perms, dataSetId: string, identity: Identity, least: nat,
                         scanned: seq<Row>, next: Option<nat>)
    requires Represents(rows, perms) && least > 0 && FirstPage(rows, dataSetId, least, scanned, next)
    ensures WellShared(perms, dataSetId) ==>
      forall p :: p in LevelEntries(scanned, IdentityIn(IdentityKeys([identity]))) ==> p.key.effect == ALLOW
    ensures
      && WellShared(perms, dataSetId)
      && (SurelyShown(rows, perms, dataSetId, identity, least)
          || |Entries(perms, dataSetId)| <= Min(least, DEFAULT_API_PAGE_SIZE))
      ==> ReportedFrom(scanned, dataSetId, identity) == LevelHeld(perms, dataSetId, identity)
  {
    var filter := IdentityIn(IdentityKeys([identity]));
    PageOnSubject(rows, perms, dataSetId, 0, scanned, filter);
    FilterMembers(LevelEntry(), Gathered(filter, scanned));
    hide Gathered, RowOf, Represents, ReportedFrom, IdentityIn, IdentityKeys;
    if WellShared(perms, dataSetId) {
      FirstPageAgreesIff(rows, perms, dataSetId, identity, least);
      ListingSize(rows, perms, dataSetId);
      if |Entries(perms, dataSetId)| <= Min(least, DEFAULT_API_PAGE_SIZE) {
        SmallListingShows(rows, perms, dataSetId, identity, least);
      }
    }
  }

  lemma OneIdentity(items: seq<Permission>, dataSetId: string, identity: Identity)
    requires forall p :: p in items ==> p.key.identity == identity
    ensures |Summary(items, dataSetId)| <= 1 && forall a :: a in Summary(items, dataSetId) ==> a.identity == identity
  {
    FirstSeenOnce(items, dataSetId);
    var seen := FirstSeen(items, dataSetId);
    assert |seen| < 2 || seen[0] != seen[1];
    forall i | 0 <= i < |seen|
      ensures seen[i] == identity
    {
      assert seen[i] in seen;
    }
  }

  /** Requests expand to READ and UPDATE entries on their dataset, all of them ALLOWs. */
  lemma {:induction false} ExpansionOnDataSet(dataSetId: string, requests: seq<Access>)
    ensures forall p :: p in ExpandAll(dataSetId, requests) ==>
      p.key == AccessKey(dataSetId, p.key.action, p.key.identity) && p.key.action in {READ, UPDATE}
  {
    if requests == [] {
    } else {
      ExpansionOnDataSet(dataSetId, requests[..|requests| - 1]);
    }
  }

  /** Creates the entries the requests expand to, and answers with the levels they amount to. */
  method AddAccessPermission(table: PermissionTable, dataSetId: string, requests: seq<Access>, active: set<string>)
    returns (r: Result<seq<Access>, ServiceError>)
    requires table.Usable()
    modifies table
    ensures table.Usable()
    ensures
      var batch := ExpandAll(dataSetId, requests);
      && r == Answer(RowsCreationError(old(table.rows), batch, active), Summary(batch, dataSetId))
      && (r.Failure? ==> table.rows == old(table.rows) && table.perms == old(table.perms))
      && (r.Success? ==> forall x :: x in table.rows <==> x in old(table.rows) || x in RowsOf(batch))
      && (old(table.Valid()) && AllClean(batch) ==>
            && table.Valid()
            && r == Answer(CreationError(old(table.perms), batch, active), Summary(batch, dataSetId))
            && table.perms == if r.Failure? then old(table.perms) else old(table.perms) + BatchMap(batch))
  {
    var batch := ToIdentityPermissions(dataSetId, requests);
    ExpansionOnDataSet(dataSetId, requests);
    var error := CreateIdentityPermissions(table, batch, active);
    hide ExpandAll, Summary, BatchMap, AllClean, CreationError, RowsCreationError;
    if error.Some? {
      return Failure(error.value);
    }
    var levels := SingleResponse(batch, dataSetId);
    r := Success(levels.value);
  }

  /** Deletes the entries the requests expand to, held or not, and answers with the levels they amount to. */
  method RemoveAccessPermissions(table: PermissionTable, dataSetId: string, requests: seq<Access>)
    returns (r: Result<seq<Access>, StoreError>)
    requires table.Usable()
    modifies table
    ensures table.Usable() && (old(table.Valid()) ==> table.Valid())
    ensures
      var batch := ExpandAll(dataSetId, requests);
      && r == Answer(RowsDeleteError(batch), Summary(batch, dataSetId))
      && (AllClean(batch) ==> RowsDeleteError(batch) == DeleteError(batch))
      && table.rows == After(RowsDeleteError(batch), old(table.rows),
          Filter(NotAddressed(RowsOf(batch)), old(table.rows)))
      && table.perms == After(RowsDeleteError(batch), old(table.perms), old(table.perms) - KeysOf(batch))
  {
    var batch := ToIdentityPermissions(dataSetId, requests);
    ExpansionOnDataSet(dataSetId, requests);
    var removed := table.Delete(batch);
    hide ExpandAll, Summary, AllClean, DeleteError, RowsDeleteError;
    if removed.Failure? {
      return Failure(removed.error);
    }
    var levels := SingleResponse(batch, dataSetId);
    r := Success(levels.value);
  }

  function DataSetOperation(dataSetId: string, action: Action): Operation {
    Operation(action, DATASET_SUBJECT, dataSetId, None, map[])
  }

  /** Whether a caller may use a dataset at a level: READ always, and UPDATE for read-write. */
  method IsAuthorizedOnDataSet(table: PermissionTable, dataSetId: string, level: Level, userId: string,
                               groups: seq<string>, matches: Matcher)
    returns (r: Decision)
    requires table.Valid()
    ensures r == TooManyIdentities <==> |groups| >= 100
    ensures r != TooManyIdentities ==>
      (r == Allowed <==> LevelGranted(table.perms, dataSetId, level, Identities(userId, groups), matches))
    ensures r == Allowed ==>
      Grants(table.perms, Operation(READ, "Dataset", dataSetId, None, map[]), Identities(userId, groups), matches)
    ensures r == Forbidden && level == ReadOnly ==>
      !Grants(table.perms, Operation(READ, "Dataset", dataSetId, None, map[]), Identities(userId, groups), matches)
    ensures r != TooManyIdentities && level == ReadWrite ==>
      (r == Allowed <==>
        && Grants(table.perms, Operation(READ, "Dataset", dataSetId, None, map[]), Identities(userId, groups), matches)
        && Grants(table.perms, Operation(UPDATE, "Dataset", dataSetId, None, map[]), Identities(userId, groups),
             matches))
  {
    r := IsAuthorizedOnSubject(table, userId, groups, DataSetOperation(dataSetId, READ), matches);
    if r == Allowed && level == ReadWrite {
      r := IsAuthorizedOnSubject(table, userId, groups, DataSetOperation(dataSetId, UPDATE), matches);
    }
  }

  ghost predicate LevelGranted(perms: Perms, dataSetId: string, level: Level, identities: set<Identity>,
                               matches: Matcher) {
    && Grants(perms, DataSetOperation(dataSetId, READ), identities, matches)
    && (level == ReadWrite ==> Grants(perms, DataSetOperation(dataSetId, UPDATE), identities, matches))
  }

  // ----- The reported level against the decision -----

  /**
   * The state the sharing operations keep a dataset in, seen from the access levels: only ALLOW entries without
   * conditions, nothing on the wildcard, and no UPDATE without READ.
   */
  ghost predicate WellShared(perms: Perms, dataSetId: string) {
    && (forall k :: k in perms && k.subjectType == DATASET_SUBJECT ==> k.subjectId != WILDCARD)
    && (forall k :: k in perms && OnSubject(k, DATASET_SUBJECT, dataSetId, None) ==>
          && k.effect == ALLOW && k.action in {READ, UPDATE}
          && perms[k].conditions.None? && perms[k].fields.None?
          && (k.action == UPDATE ==> AccessKey(dataSetId, READ, k.identity) in perms))
  }

  /** A permission without conditions and fields admits every operation. */
  ghost predicate AdmitsUnconditional(matches: Matcher) {
    forall inverted: bool, payload: Payload, op: Operation ::
      payload.conditions.None? && payload.fields.None? ==> matches(inverted, payload, op)
  }

  lemma GrantedToSome(perms: Perms, dataSetId: string, action: Action, identities: set<Identity>, matches: Matcher)
    requires WellShared(perms, dataSetId) && AdmitsUnconditional(matches) && action in {READ, UPDATE}
    ensures Grants(perms, DataSetOperation(dataSetId, action), identities, matches)
       <==> exists id :: id in identities && AccessKey(dataSetId, action, id) in perms
  {
    var op := DataSetOperation(dataSetId, action);
    forall p | Holds(perms, p) && Speaks(p, op, identities, matches)
      ensures p.key == AccessKey(dataSetId, action, p.key.identity)
    {
      assert OnSubject(p.key, DATASET_SUBJECT, dataSetId, None);
    }
    if id :| id in identities && AccessKey(dataSetId, action, id) in perms {
      var k := AccessKey(dataSetId, action, id);
      assert OnSubject(k, DATASET_SUBJECT, dataSetId, None);
      assert Holds(perms, Permission(k, perms[k])) && Speaks(Permission(k, perms[k]), op, identities, matches);
    }
  }

  /** The highest level an identity is due on a well-shared dataset. */
  ghost function LevelHeld(perms: Perms, dataSetId: string, identity: Identity): Option<Level> {
    if AccessKey(dataSetId, UPDATE, identity) in perms then Some(ReadWrite)
    else if AccessKey(dataSetId, READ, identity) in perms then Some(ReadOnly)
    else None
  }

  /** Whether a level held or reported is enough for the level asked for. */
  predicate Suffices(held: Option<Level>, asked: Level) {
    held == Some(ReadWrite) || (asked == ReadOnly && held == Some(ReadOnly))
  }

  /** A caller is authorized at a level exactly when one of the caller's identities holds it or better. */
  lemma LevelHeldIsAuthorized(perms: Perms, dataSetId: string, identities: set<Identity>, level: Level,
                              matches: Matcher)
    requires WellShared(perms, dataSetId) && AdmitsUnconditional(matches)
    ensures LevelGranted(perms, dataSetId, level, identities, matches) <==>
      exists id :: id in identities && Suffices(LevelHeld(perms, dataSetId, id), level)
  {
    GrantedToSome(perms, dataSetId, READ, identities, matches);
    GrantedToSome(perms, dataSetId, UPDATE, identities, matches);
    forall id
      ensures AccessKey(dataSetId, UPDATE, id) in perms ==> AccessKey(dataSetId, READ, id) in perms
    {
      var update := AccessKey(dataSetId, UPDATE, id);
      assert update in perms ==> OnSubject(update, DATASET_SUBJECT, dataSetId, None);
    }
    hide Grants, WellShared;
    if id :| id in identities && AccessKey(dataSetId, UPDATE, id) in perms {
      assert Suffices(LevelHeld(perms, dataSetId, id), level);
    }
    if id :| id in identities && AccessKey(dataSetId, READ, id) in perms && level == ReadOnly {
      assert Suffices(LevelHeld(perms, dataSetId, id), level);
    }
  }

  /** A row read back from a page is the permission it was written for. */
  lemma PageEntry(perms: Perms, scanned: seq<Row>, filter: Row -> bool, p: Permission)
    requires Clean(p.key)
    requires forall r :: r in scanned ==> DecodeRow(r).Some?
    ensures filter(RowOf(p)) && RowOf(p) in scanned ==> p in Gathered(filter, scanned)
  {
    var kept := Filter(filter, scanned);
    FilterMembers(filter, scanned);
    DecodeRowOf(p);
    hide RowOf, DecodeRow, Clean, Filter;
    assert forall i :: 0 <= i < |kept| ==> kept[i] in kept;
    CollectEach(DecodeRow, kept);
    if filter(RowOf(p)) && RowOf(p) in scanned {
      var i :| 0 <= i < |kept| && kept[i] == RowOf(p);
      assert Gathered(filter, scanned)[i] == p;
    }
  }

  /** The entries of one identity among the rows of a page. */
  lemma PageEntries(rows: seq<Row>, perms: Perms, dataSetId: string, identity: Identity, scanned: seq<Row>)
    requires Represents(rows, perms) && scanned <= DatasetRows(rows, dataSetId)
    ensures forall p :: p in Gathered(IdentityIn(IdentityKeys([identity])), scanned) <==>
      Holds(perms, p) && OnSubject(p.key, DATASET_SUBJECT, dataSetId, None) && p.key.identity == identity
          && RowOf(p) in scanned
  {
    var filter := IdentityIn(IdentityKeys([identity]));
    PageOnSubject(rows, perms, dataSetId, 0, scanned, filter);
    FilterMembers(InSubject(PartitionKey(DATASET_SUBJECT, dataSetId), Prefix(None)), rows);
    assert forall x :: x in scanned ==> x in DatasetRows(rows, dataSetId);
    forall p | Holds(perms, p)
      ensures p in Gathered(filter, scanned) <==> filter(RowOf(p)) && RowOf(p) in scanned
      ensures filter(RowOf(p)) <==> p.key.identity == identity
    {
      assert p == Permission(p.key, p.payload);
      SelectedByIdentity(p.key, p.payload, [identity]);
      SelectedBySubject(p.key, p.payload, DATASET_SUBJECT, dataSetId, None);
      PageEntry(perms, scanned, filter, p);
    }
    hide Represents, RowOf, Gathered, DatasetRows, IdentityIn;
  }

  ghost predicate OnPage(perms: Perms, k: PermKey, scanned: seq<Row>) {
    k in perms && RowOf(Permission(k, perms[k])) in scanned
  }

  /** What a first page reports for an identity, in terms of which of its two rows made it onto the page. */
  lemma PageLevelEntries(rows: seq<Row>, perms: Perms, dataSetId: string, identity: Identity, scanned: seq<Row>)
    requires Represents(rows, perms) && WellShared(perms, dataSetId) && scanned <= DatasetRows(rows, dataSetId)
    ensures
      var entries := LevelEntries(scanned, IdentityIn(IdentityKeys([identity])));
      && (forall p :: p in entries ==>
          p.key == AccessKey(dataSetId, p.key.action, identity) && OnPage(perms, p.key, scanned))
      && forall action :: action in {READ, UPDATE} && OnPage(perms, AccessKey(dataSetId, action, identity), scanned) ==>
        Permission(AccessKey(dataSetId, action, identity), perms[AccessKey(dataSetId, action, identity)]) in entries
  {
    var filter := IdentityIn(IdentityKeys([identity]));
    var entries := LevelEntries(scanned, filter);
    PageEntries(rows, perms, dataSetId, identity, scanned);
    FilterMembers(LevelEntry(), Gathered(filter, scanned));
    hide Represents, Gathered, LevelEntries, RowOf, DatasetRows;
    forall p | p in entries
      ensures p.key == AccessKey(dataSetId, p.key.action, identity) && OnPage(perms, p.key, scanned)
    {
      assert p == Permission(p.key, p.payload);
    }
  }

  /** What is reported for an identity from the rows a page scanned. */
  ghost function ReportedFrom(scanned: seq<Row>, dataSetId: string, identity: Identity): Option<Level> {
    Best(Summary(LevelEntries(scanned, IdentityIn(IdentityKeys([identity]))), dataSetId), identity)
  }

  lemma PageReports(rows: seq<Row>, perms: Perms, dataSetId: string, identity: Identity, scanned: seq<Row>)
    requires Represents(rows, perms) && WellShared(perms, dataSetId) && scanned <= DatasetRows(rows, dataSetId)
    ensures ReportedFrom(scanned, dataSetId, identity)
      == if OnPage(perms, AccessKey(dataSetId, UPDATE, identity), scanned) then Some(ReadWrite)
         else if OnPage(perms, AccessKey(dataSetId, READ, identity), scanned) then Some(ReadOnly)
         else None
  {
    PageLevelEntries(rows, perms, dataSetId, identity, scanned);
    BestOfSummary(LevelEntries(scanned, IdentityIn(IdentityKeys([identity]))), dataSetId, identity);
    hide Represents, WellShared, Gathered, Summary, LevelEntries, RowOf, DatasetRows, OnPage, IdentityIn, IdentityKeys;
  }

  /** The entry that decides an identity's level: its UPDATE, or failing that its READ. */
  ghost function DecisiveKey(perms: Perms, dataSetId: string, identity: Identity): PermKey {
    if AccessKey(dataSetId, UPDATE, identity) in perms then AccessKey(dataSetId, UPDATE, identity)
    else AccessKey(dataSetId, READ, identity)
  }

  /** The rows that every first page of a dataset's entries shows, whatever page the database serves. */
  ghost function AlwaysShown(rows: seq<Row>, dataSetId: string, least: nat): seq<Row> {
    var listing := DatasetRows(rows, dataSetId);
    listing[..Min(Min(least, DEFAULT_API_PAGE_SIZE), |listing|)]
  }

  /** The identity holds nothing on the dataset, or its decisive row is among the rows every first page shows. */
  ghost predicate SurelyShown(rows: seq<Row>, perms: Perms, dataSetId: string, identity: Identity, least: nat) {
    var k := DecisiveKey(perms, dataSetId, identity);
    k in perms ==> OnPage(perms, k, AlwaysShown(rows, dataSetId, least))
  }

  /** A first page of a dataset's entries that the database may serve. */
  ghost predicate FirstPage(rows: seq<Row>, dataSetId: string, least: nat, scanned: seq<Row>, next: Option<nat>) {
    PageOf(DatasetRows(rows, dataSetId), 0, DEFAULT_API_PAGE_SIZE, least, scanned, next)
  }

  /** A report is right for a page exactly when the decisive row is on it, and it never is too high. */
  lemma PageAgreesIff(rows: seq<Row>, perms: Perms, dataSetId: string, identity: Identity, scanned: seq<Row>)
    requires Represents(rows, perms) && WellShared(perms, dataSetId) && scanned <= DatasetRows(rows, dataSetId)
    ensures
      var k := DecisiveKey(perms, dataSetId, identity);
      ReportedFrom(scanned, dataSetId, identity) == LevelHeld(perms, dataSetId, identity)
      <==> (k in perms ==> OnPage(perms, k, scanned))
    ensures forall level :: Suffices(ReportedFrom(scanned, dataSetId, identity), level) ==>
      Suffices(LevelHeld(perms, dataSetId, identity), level)
  {
    PageReports(rows, perms, dataSetId, identity, scanned);
    hide Represents, WellShared, ReportedFrom, DatasetRows;
  }

  lemma ShownFirst(rows: seq<Row>, dataSetId: string, least: nat)
    ensures forall scanned, next :: FirstPage(rows, dataSetId, least, scanned, next) ==>
      AlwaysShown(rows, dataSetId, least) <= scanned <= DatasetRows(rows, dataSetId)
  {}

  /**
   * Judged on the table before the call: whatever first page the database serves, the level reported is the level
   * held, if and only if the identity's decisive row is missing or among the rows every first page shows.
   */
  lemma FirstPageAgreesIff(rows: seq<Row>, perms: Perms, dataSetId: string, identity: Identity, least: nat)
    requires Represents(rows, perms) && WellShared(perms, dataSetId) && least > 0
    ensures
      (forall scanned, next :: FirstPage(rows, dataSetId, least, scanned, next) ==>
        ReportedFrom(scanned, dataSetId, identity) == LevelHeld(perms, dataSetId, identity))
      <==> SurelyShown(rows, perms, dataSetId, identity, least)
  {
    var shown, next := AlwaysShown(rows, dataSetId, least), ShortestNext(rows, dataSetId, least);
    ShortestPage(rows, dataSetId, least);
    ShownFirst(rows, dataSetId, least);
    PageAgreesIff(rows, perms, dataSetId, identity, shown);
    if SurelyShown(rows, perms, dataSetId, identity, least) {
      hide Represents, WellShared, ReportedFrom, DatasetRows, LevelHeld, AlwaysShown, FirstPage, DecisiveKey, RowOf;
      forall scanned, next' | FirstPage(rows, dataSetId, least, scanned, next')
        ensures ReportedFrom(scanned, dataSetId, identity) == LevelHeld(perms, dataSetId, identity)
      {
        PageAgreesIff(rows, perms, dataSetId, identity, scanned);
      }
    } else {
      hide Represents, WellShared, ReportedFrom, DatasetRows, LevelHeld, AlwaysShown, FirstPage, RowOf;
      assert ReportedFrom(shown, dataSetId, identity) != LevelHeld(perms, dataSetId, identity);
    }
  }

  /** The token that comes with the shortest first page. */
  ghost function ShortestNext(rows: seq<Row>, dataSetId: string, least: nat): Option<nat> {
    var shown := AlwaysShown(rows, dataSetId, least);
    if |shown| == |DatasetRows(rows, dataSetId)| then None else Some(|shown|)
  }

  lemma ShortestPage(rows: seq<Row>, dataSetId: string, least: nat)
    requires least > 0
    ensures FirstPage(rows, dataSetId, least, AlwaysShown(rows, dataSetId, least), ShortestNext(rows, dataSetId, least))
  {
    hide DatasetRows;
  }

  /** Every held row is in the listing of its dataset. */
  lemma HeldIsListed(rows: seq<Row>, perms: Perms, dataSetId: string, k: PermKey)
    requires Represents(rows, perms) && k in perms && OnSubject(k, DATASET_SUBJECT, dataSetId, None)
    ensures OnPage(perms, k, DatasetRows(rows, dataSetId))
  {
    SelectedBySubject(k, perms[k], DATASET_SUBJECT, dataSetId, None);
    FilterMembers(InSubject(PartitionKey(DATASET_SUBJECT, dataSetId), Prefix(None)), rows);
  }

  /** A listing that fits into every first page shows every identity's decisive row. */
  lemma SmallListingShows(rows: seq<Row>, perms: Perms, dataSetId: string, identity: Identity, least: nat)
    requires Represents(rows, perms) && |DatasetRows(rows, dataSetId)| <= Min(least, DEFAULT_API_PAGE_SIZE)
    ensures SurelyShown(rows, perms, dataSetId, identity, least)
  {
    var k := DecisiveKey(perms, dataSetId, identity);
    assert AlwaysShown(rows, dataSetId, least) == DatasetRows(rows, dataSetId);
    if k in perms {
      HeldIsListed(rows, perms, dataSetId, k);
    }
  }

  // ----- How many entries a dataset has -----

  /** The keys held on a dataset; how many there are does not depend on the order of the rows. */
  ghost function Entries(perms: Perms, dataSetId: string): set<PermKey> {
    set k | k in perms && OnSubject(k, DATASET_SUBJECT, dataSetId, None)
  }

  ghost function ElementsOf<T(!new)>(s: seq<T>): set<T> {
    set x | x in s
  }

  lemma {:induction false} FewElements<T(!new)>(s: seq<T>)
    ensures |ElementsOf(s)| <= |s|
    ensures Distinct(s) ==> |ElementsOf(s)| == |s|
  {
    if s == [] {
    } else {
      FewElements(s[1..]);
      assert s == [s[0]] + s[1..];
      assert ElementsOf(s) == {s[0]} + ElementsOf(s[1..]);
    }
  }

  /** The listing of a dataset has exactly as many rows as the dataset has entries. */
  lemma ListingSize(rows: seq<Row>, perms: Perms, dataSetId: string)
    requires Represents(rows, perms)
    ensures |DatasetRows(rows, dataSetId)| == |Entries(perms, dataSetId)|
  {
    var listing := DatasetRows(rows, dataSetId);
    var held := DecodeAll(listing);
    SubjectListing(rows, perms, DATASET_SUBJECT, dataSetId, None);
    FilterMembers(InSubject(PartitionKey(DATASET_SUBJECT, dataSetId), Prefix(None)), rows);
    assert forall i :: 0 <= i < |listing| ==> listing[i] in listing;
    CollectEach(DecodeRow, listing);
    DistinctHeld(perms, held);
    KeysListed(perms, dataSetId, held);
  }

  lemma KeysListed(perms: Perms, dataSetId: string, held: seq<Permission>)
    requires DistinctKeys(held)
    requires forall p :: p in held <==> Holds(perms, p) && OnSubject(p.key, DATASET_SUBJECT, dataSetId, None)
    ensures |held| == |Entries(perms, dataSetId)|
  {
    var keys := seq(|held|, i requires 0 <= i < |held| => held[i].key);
    FewElements(keys);
    forall k
      ensures k in keys <==> k in Entries(perms, dataSetId)
    {
      if k in keys {
        var i :| 0 <= i < |keys| && keys[i] == k;
        assert held[i] in held;
      }
      if k in Entries(perms, dataSetId) {
        assert Permission(k, perms[k]) in held;
        var i :| 0 <= i < |held| && held[i] == Permission(k, perms[k]);
        assert keys[i] == k;
      }
    }
    assert ElementsOf(keys) == Entries(perms, dataSetId);
  }

  // ----- A crowd that hides a reader from the first page -----

  ghost function IndexValues(identities: set<Identity>): set<string> {
    set id | id in identities :: IdentityKey(id)
  }

  lemma {:induction false} IndexValuesSize(identities: set<Identity>)
    ensures |IndexValues(identities)| == |identities|
    decreases identities
  {
    if identities == {} {
      assert IndexValues(identities) == {};
    } else {
      var id :| id in identities;
      var rest := identities - {id};
      IndexValuesSize(rest);
      forall other | other in rest
        ensures IdentityKey(other) != IdentityKey(id)
      {
        IdentityKeyInjective(other, id);
      }
      assert IndexValues(identities) == IndexValues(rest) + {IdentityKey(id)};
    }
  }

  /**
   * With more readers than the rows every first page shows, some reader's report is too low, in whatever order the
   * database lists the rows.
   */
  lemma CrowdHidesReader(rows: seq<Row>, perms: Perms, dataSetId: string, readers: set<Identity>, least: nat)
    returns (hidden: Identity)
    requires Represents(rows, perms) && WellShared(perms, dataSetId) && least > 0
    requires forall id :: id in readers ==> AccessKey(dataSetId, READ, id) in perms
    requires |readers| > Min(least, DEFAULT_API_PAGE_SIZE)
    ensures hidden in readers && !SurelyShown(rows, perms, dataSetId, hidden, least)
  {
    var shown := AlwaysShown(rows, dataSetId, least);
    if forall id :: id in readers ==> SurelyShown(rows, perms, dataSetId, id, least) {
      var values := seq(|shown|, i requires 0 <= i < |shown| => shown[i].identity);
      forall id | id in readers
        ensures IdentityKey(id) in ElementsOf(values)
      {
        var k := DecisiveKey(perms, dataSetId, id);
        var i :| 0 <= i < |shown| && shown[i] == RowOf(Permission(k, perms[k]));
        assert values[i] == IdentityKey(id);
      }
      SubsetSize(IndexValues(readers), ElementsOf(values));
      IndexValuesSize(readers);
      FewElements(values);
      assert false;
    }
    hidden :| hidden in readers && !SurelyShown(rows, perms, dataSetId, hidden, least);
  }

  lemma {:induction false} SubsetSize<T>(a: set<T>, b: set<T>)
    requires a <= b
    ensures |a| <= |b|
    decreases a
  {
    if a == {} {
    } else {
      var x :| x in a;
      SubsetSize(a - {x}, b - {x});
    }
  }

  lemma TooLow(reported: Option<Level>, held: Option<Level>) returns (level: Level)
    requires reported != held && forall l :: Suffices(reported, l) ==> Suffices(held, l)
    ensures Suffices(held, level) && !Suffices(reported, level)
  {
    assert reported.Some? ==> reported.value.ReadOnly? || reported.value.ReadWrite?;
    assert held.Some? ==> held.value.ReadOnly? || held.value.ReadWrite?;
    assert reported.Some? ==> Suffices(reported, ReadOnly);
    assert reported == Some(ReadWrite) ==> Suffices(reported, ReadWrite);
    level := if held == Some(ReadWrite) then ReadWrite else ReadOnly;
  }

  /** A report that the page may get wrong does get too low on some page the database may serve. */
  lemma HiddenIsUnderreported(rows: seq<Row>, perms: Perms, dataSetId: string, hidden: Identity, least: nat)
    returns (scanned: seq<Row>, next: Option<nat>, level: Level)
    requires Represents(rows, perms) && WellShared(perms, dataSetId) && least > 0
    requires !SurelyShown(rows, perms, dataSetId, hidden, least)
    ensures FirstPage(rows, dataSetId, least, scanned, next)
    ensures Suffices(LevelHeld(perms, dataSetId, hidden), level)
        && !Suffices(ReportedFrom(scanned, dataSetId, hidden), level)
  {
    FirstPageAgreesIff(rows, perms, dataSetId, hidden, least);
    ShownFirst(rows, dataSetId, least);
    hide *;
    scanned, next :| FirstPage(rows, dataSetId, least, scanned, next)
      && ReportedFrom(scanned, dataSetId, hidden) != LevelHeld(perms, dataSetId, hidden);
    PageAgreesIff(rows, perms, dataSetId, hidden, scanned);
    level := TooLow(ReportedFrom(scanned, dataSetId, hidden), LevelHeld(perms, dataSetId, hidden));
  }
}
