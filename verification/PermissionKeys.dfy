/**
 * How a permission becomes the key of a database row and how it is read back.
 * Ids are free-form strings joined by '|', and the reader splits on that same character.
 */
module PermissionKeys {
  import opened Prelude

  datatype Action = CREATE | READ | UPDATE | DELETE

  datatype Effect = ALLOW | DENY

  datatype IdentityType = GROUP | USER

  datatype Identity = Identity(kind: IdentityType, id: string)

  /** Everything that identifies a permission. */
  datatype PermKey = PermKey(
    subjectType: string,
    subjectId: string,
    action: Action,
    effect: Effect,
    identity: Identity)

  /** Everything else; conditions are kept as their serialized text. */
  datatype Payload = Payload(conditions: Option<string>, fields: Option<seq<string>>, description: Option<string>)

  datatype Permission = Permission(key: PermKey, payload: Payload)

  const DELIMITER: char := '|'

  function ActionName(a: Action): string {
    match a
    case CREATE => "CREATE"
    case READ => "READ"
    case UPDATE => "UPDATE"
    case DELETE => "DELETE"
  }

  function EffectName(e: Effect): string {
    match e
    case ALLOW => "ALLOW"
    case DENY => "DENY"
  }

  function KindName(k: IdentityType): string {
    match k
    case GROUP => "GROUP"
    case USER => "USER"
  }

  function ParseAction(s: string): Option<Action> {
    if s == "CREATE" then Some(CREATE)
    else if s == "READ" then Some(READ)
    else if s == "UPDATE" then Some(UPDATE)
    else if s == "DELETE" then Some(DELETE)
    else None
  }

  function ParseEffect(s: string): Option<Effect> {
    if s == "ALLOW" then Some(ALLOW) else if s == "DENY" then Some(DENY) else None
  }

  function ParseKind(s: string): Option<IdentityType> {
    if s == "GROUP" then Some(GROUP) else if s == "USER" then Some(USER) else None
  }

  /** JavaScript's split on a one-character separator. */
  function Split(s: string, d: char): (r: seq<string>)
    ensures |r| >= 1
  {
    if s == [] then [""]
    else
      var rest := Split(s[1..], d);
      if s[0] == d then [""] + rest else [[s[0]] + rest[0]] + rest[1..]
  }

  lemma {:induction false} SplitPlain(s: string, d: char)
    requires d !in s
    ensures Split(s, d) == [s]
  {
    if s == [] {
    } else {
      SplitPlain(s[1..], d);
      assert s == [s[0]] + s[1..];
    }
  }

  /** The first part never contains the separator. */
  lemma {:induction false} SplitHead(s: string, d: char)
    ensures d !in Split(s, d)[0]
    ensures d in s ==> |Split(s, d)| >= 2 && |Split(s, d)[0]| < |s|
  {
    if s == [] {
    } else {
      SplitHead(s[1..], d);
    }
  }

  lemma SplitStep(c: char, s: string, d: char)
    ensures Split([c] + s, d) == if c == d then [""] + Split(s, d) else [[c] + Split(s, d)[0]] + Split(s, d)[1..]
  {
    assert ([c] + s)[1..] == s;
  }

  /** One more character in front of the first part, whatever follows the parts. */
  lemma Glue(c: char, front: seq<string>, back: seq<string>)
    requires front != []
    ensures [[c] + (front + back)[0]] + (front + back)[1..] == ([[c] + front[0]] + front[1..]) + back
    ensures [""] + (front + back) == ([""] + front) + back
  {}

  lemma {:induction false} SplitJoined(a: string, b: string, d: char)
    ensures Split(a + [d] + b, d) == Split(a, d) + Split(b, d)
  {
    if a == [] {
      SplitStep(d, b, d);
      assert a + [d] + b == [d] + b;
    } else {
      SplitJoined(a[1..], b, d);
      assert a == [a[0]] + a[1..];
      JoinedStep(a[0], a[1..], b, d);
    }
  }

  lemma JoinedStep(c: char, rest: string, b: string, d: char)
    requires Split(rest + [d] + b, d) == Split(rest, d) + Split(b, d)
    ensures Split([c] + rest + [d] + b, d) == Split([c] + rest, d) + Split(b, d)
  {
    hide *;
    SplitStep(c, rest, d);
    SplitStep(c, rest + [d] + b, d);
    Glue(c, Split(rest, d), Split(b, d));
    assert [c] + rest + [d] + b == [c] + (rest + [d] + b);
  }

  function PartitionKey(subjectType: string, subjectId: string): string {
    subjectType + [DELIMITER] + subjectId
  }

  function IdentityKey(i: Identity): string {
    KindName(i.kind) + [DELIMITER] + i.id
  }

  function SortKey(a: Action, e: Effect, i: Identity): string {
    ActionName(a) + [DELIMITER] + (EffectName(e) + [DELIMITER] + IdentityKey(i))
  }

  function DecomposePartitionKey(pk: string): Option<(string, string)> {
    var values := Split(pk, DELIMITER);
    if |values| < 2 then None else Some((values[0], values[1]))
  }

  function DecomposeSortKey(sk: string): Option<(Action, Effect, Identity)> {
    var values := Split(sk, DELIMITER);
    if |values| < 4 then None else
    match (ParseAction(values[0]), ParseEffect(values[1]), ParseKind(values[2]))
    case (Some(a), Some(e), Some(k)) => Some((a, e, Identity(k, values[3])))
    case _ => None
  }

  /** The ids a key can carry without being misread. */
  predicate Clean(k: PermKey) {
    DELIMITER !in k.subjectType && DELIMITER !in k.subjectId && DELIMITER !in k.identity.id
  }

  lemma NamesArePlain(a: Action, e: Effect, k: IdentityType)
    ensures DELIMITER !in ActionName(a) && DELIMITER !in EffectName(e) && DELIMITER !in KindName(k)
  {}

  lemma SplitAfter(name: string, rest: string)
    requires DELIMITER !in name
    ensures Split(name + [DELIMITER] + rest, DELIMITER) == [name] + Split(rest, DELIMITER)
  {
    SplitJoined(name, rest, DELIMITER);
    SplitPlain(name, DELIMITER);
  }

  lemma SplitSortKey(a: Action, e: Effect, i: Identity)
    ensures Split(SortKey(a, e, i), DELIMITER)
         == [ActionName(a), EffectName(e), KindName(i.kind)] + Split(i.id, DELIMITER)
  {
    NamesArePlain(a, e, i.kind);
    hide ActionName, EffectName, KindName;
    SplitAfter(KindName(i.kind), i.id);
    SplitAfter(EffectName(e), IdentityKey(i));
    SplitAfter(ActionName(a), EffectName(e) + [DELIMITER] + IdentityKey(i));
    hide Split;
  }

  function DecodeKey(pk: string, sk: string): Option<PermKey> {
    match (DecomposePartitionKey(pk), DecomposeSortKey(sk))
    case (Some(p), Some(s)) => Some(PermKey(p.0, p.1, s.0, s.1, s.2))
    case _ => None
  }

  function EncodePk(k: PermKey): string {
    PartitionKey(k.subjectType, k.subjectId)
  }

  function EncodeSk(k: PermKey): string {
    SortKey(k.action, k.effect, k.identity)
  }

  /** How the key of a permission is spelled. */
  lemma KeySpelled(k: PermKey)
    ensures EncodePk(k) == k.subjectType + "|" + k.subjectId
    ensures EncodeSk(k) ==
      (match k.action case CREATE => "CREATE" case READ => "READ" case UPDATE => "UPDATE" case DELETE => "DELETE")
      + "|" + (if k.effect == ALLOW then "ALLOW" else "DENY")
      + "|" + (if k.identity.kind == GROUP then "GROUP" else "USER") + "|" + k.identity.id
    ensures IdentityKey(k.identity) == (if k.identity.kind == GROUP then "GROUP" else "USER") + "|" + k.identity.id
  {
    assert [DELIMITER] == "|";
    Rejoined(ActionName(k.action), EffectName(k.effect), KindName(k.identity.kind), k.identity.id);
  }

  lemma Rejoined(a: string, e: string, kind: string, id: string)
    ensures a + "|" + (e + "|" + (kind + "|" + id)) == a + "|" + e + "|" + kind + "|" + id
  {}

  lemma HeadIff(s: string, d: char)
    ensures Split(s, d)[0] == s <==> d !in s
    ensures d in s <==> |Split(s, d)| >= 2
  {
    SplitHead(s, d);
    if d !in s {
      SplitPlain(s, d);
    }
  }

  lemma EachActionIsRead(a: Action, e: Effect, k: IdentityType)
    ensures ParseAction(ActionName(a)) == Some(a) && ParseEffect(EffectName(e)) == Some(e)
        && ParseKind(KindName(k)) == Some(k)
  {}

  lemma SortKeyIsRead(a: Action, e: Effect, i: Identity)
    ensures DecomposeSortKey(SortKey(a, e, i)) == Some((a, e, Identity(i.kind, Split(i.id, DELIMITER)[0])))
  {
    SplitSortKey(a, e, i);
    EachActionIsRead(a, e, i.kind);
    hide Split, SortKey, ActionName, EffectName, KindName, ParseAction, ParseEffect, ParseKind;
  }

  lemma PartitionKeyIsRead(subjectType: string, subjectId: string)
    ensures
      var parts := Split(subjectType, DELIMITER) + Split(subjectId, DELIMITER);
      DecomposePartitionKey(PartitionKey(subjectType, subjectId)) == Some((parts[0], parts[1]))
  {
    SplitJoined(subjectType, subjectId, DELIMITER);
    hide Split;
  }

  /** The permission a key is taken for when it is read back. */
  ghost function ReadAs(k: PermKey): PermKey {
    var parts := Split(k.subjectType, DELIMITER) + Split(k.subjectId, DELIMITER);
    PermKey(parts[0], parts[1], k.action, k.effect, Identity(k.identity.kind, Split(k.identity.id, DELIMITER)[0]))
  }

  /** Every key that is written can be read back; with a delimiter in an id it is cut short. */
  lemma KeyIsReadAs(k: PermKey)
    ensures DecodeKey(EncodePk(k), EncodeSk(k)) == Some(ReadAs(k))
  {
    PartitionKeyIsRead(k.subjectType, k.subjectId);
    SortKeyIsRead(k.action, k.effect, k.identity);
    hide Split, PartitionKey, SortKey, DecomposePartitionKey, DecomposeSortKey;
  }

  lemma ReadAsItselfIff(k: PermKey)
    ensures ReadAs(k) == k <==> Clean(k)
  {
    HeadIff(k.subjectType, DELIMITER);
    HeadIff(k.subjectId, DELIMITER);
    HeadIff(k.identity.id, DELIMITER);
    if DELIMITER !in k.subjectType {
      SplitPlain(k.subjectType, DELIMITER);
    }
    hide Split;
  }

  /** Reading a key back gives the permission that was written exactly when its ids are free of the delimiter. */
  lemma KeyRoundTripIff(k: PermKey)
    ensures DecodeKey(EncodePk(k), EncodeSk(k)) == Some(k) <==> Clean(k)
  {
    KeyIsReadAs(k);
    ReadAsItselfIff(k);
    hide ReadAs;
  }

  /** A clean partition key names one subject only, whatever subject is asked for. */
  lemma PartitionKeyNamesSubject(k: PermKey, subjectType: string, subjectId: string)
    requires Clean(k)
    ensures EncodePk(k) == PartitionKey(subjectType, subjectId)
       <==> k.subjectType == subjectType && k.subjectId == subjectId
  {
    SplitJoined(k.subjectType, k.subjectId, DELIMITER);
    SplitJoined(subjectType, subjectId, DELIMITER);
    SplitPlain(k.subjectType, DELIMITER);
    SplitPlain(k.subjectId, DELIMITER);
    if EncodePk(k) == PartitionKey(subjectType, subjectId) {
      SplitHead(subjectType, DELIMITER);
      SplitHead(subjectId, DELIMITER);
      var parts := Split(subjectType, DELIMITER) + Split(subjectId, DELIMITER);
      assert parts == [k.subjectType] + [k.subjectId];
      assert |parts| == 2;
      SplitPlain(subjectType, DELIMITER);
      SplitPlain(subjectId, DELIMITER);
      assert parts[0] == subjectType && parts[1] == subjectId;
    }
  }

  lemma SamePrefix(front: string, x: string, y: string)
    requires front + x == front + y
    ensures x == y
  {
    assert (front + x)[|front|..] == x && (front + y)[|front|..] == y;
  }

  /** A sort key names its action, its effect, its kind of identity and its identity, whatever the id is. */
  lemma SortKeyInjective(a: Action, e: Effect, i: Identity, a': Action, e': Effect, i': Identity)
    requires SortKey(a, e, i) == SortKey(a', e', i')
    ensures a == a' && e == e' && i == i'
  {
    SameNames(a, e, i, a', e', i');
    SamePrefix(ActionName(a) + [DELIMITER], EffectName(e) + [DELIMITER] + IdentityKey(i), EffectName(e) + [DELIMITER]
        + IdentityKey(i')) by {
      hide ActionName, EffectName, IdentityKey;
    }
    hide ActionName, EffectName, KindName, SortKey;
    SamePrefix(EffectName(e) + [DELIMITER], IdentityKey(i), IdentityKey(i'));
    SamePrefix(KindName(i.kind) + [DELIMITER], i.id, i'.id);
  }

  lemma SameNames(a: Action, e: Effect, i: Identity, a': Action, e': Effect, i': Identity)
    requires SortKey(a, e, i) == SortKey(a', e', i')
    ensures a == a' && e == e' && i.kind == i'.kind
  {
    SplitSortKey(a, e, i);
    SplitSortKey(a', e', i');
    EachActionIsRead(a, e, i.kind);
    EachActionIsRead(a', e', i'.kind);
    hide *;
    var parts := Split(SortKey(a, e, i), DELIMITER);
    assert parts[0] == ActionName(a) == ActionName(a');
    assert parts[1] == EffectName(e) == EffectName(e');
    assert parts[2] == KindName(i.kind) == KindName(i'.kind);
  }

  /** Two permissions whose subject types are free of the delimiter share a row only if they are the same. */
  lemma DistinctPermissionsDistinctKeys(a: PermKey, b: PermKey)
    requires DELIMITER !in a.subjectType && DELIMITER !in b.subjectType
    requires EncodePk(a) == EncodePk(b) && EncodeSk(a) == EncodeSk(b)
    ensures a == b
  {
    SplitPrefix(a.subjectType, a.subjectId, b.subjectType, b.subjectId);
    SortKeyInjective(a.action, a.effect, a.identity, b.action, b.effect, b.identity);
  }

  lemma SplitPrefix(t: string, i: string, t': string, i': string)
    requires DELIMITER !in t && DELIMITER !in t'
    requires t + [DELIMITER] + i == t' + [DELIMITER] + i'
    ensures t == t' && i == i'
  {
    SplitAfter(t, i);
    SplitAfter(t', i');
    hide *;
    assert ([t] + Split(i, DELIMITER))[0] == t && ([t'] + Split(i', DELIMITER))[0] == t';
    SamePrefix(t + [DELIMITER], i, i');
  }

  /** A delimiter inside a subject type makes two different permissions collide on one row. */
  lemma DelimiterInSubjectTypeCollides()
    ensures exists a: PermKey, b: PermKey :: a != b && EncodePk(a) == EncodePk(b) && EncodeSk(a) == EncodeSk(b)
  {
    var who := Identity(GROUP, "g");
    var a := PermKey("A|b", "c", READ, ALLOW, who);
    var b := PermKey("A", "b|c", READ, ALLOW, who);
    assert EncodePk(a) == "A|b|c";
    assert EncodePk(b) == "A|b|c";
    assert a.subjectType != b.subjectType;
  }

  /** A sort-key prefix query for an action selects that action and no other. */
  lemma PrefixSelectsAction(k: PermKey, a: Action)
    ensures ActionName(a) <= EncodeSk(k) <==> k.action == a
  {
    var n := ActionName(a);
    var sk := EncodeSk(k);
    assert ActionName(k.action) <= sk;
    assert sk[0] == ActionName(k.action)[0];
    if n <= sk {
      assert n[0] == sk[0];
    }
  }

  /** The index attribute names one identity only. */
  lemma IdentityKeyInjective(i: Identity, j: Identity)
    ensures IdentityKey(i) == IdentityKey(j) <==> i == j
  {
    if IdentityKey(i) == IdentityKey(j) {
      assert IdentityKey(i)[0] == KindName(i.kind)[0];
      assert IdentityKey(j)[0] == KindName(j.kind)[0];
      assert i.kind == j.kind;
      var n := |KindName(i.kind)| + 1;
      assert IdentityKey(i)[n..] == i.id;
      assert IdentityKey(j)[n..] == j.id;
    }
  }
}
