/** Revoked access tokens: a record per signature that the database may sweep for a while after its time to live. */
module TokenRevocation {
  import opened Prelude
  import opened PermissionKeys

  datatype Claims = Claims(exp: Option<int>)

  datatype TokenError = InvalidJWT

  datatype Record = Record(key: string, ttl: int)

  /** Reads the payload part of a token, where it can be read. */
  type Decoder = string -> Option<Claims>

  const RECORD_TYPE: string := "REVOKEDTOKEN#"

  function ClaimsOf(token: string, decode: Decoder): Option<Claims> {
    var parts := Split(token, '.');
    if |parts| < 2 then None else decode(parts[1])
  }

  /** The record of a token is filed under its signature and lives as long as the token, or not at all. */
  function RecordOf(token: string, decode: Decoder): Result<Record, TokenError> {
    var parts := Split(token, '.');
    match ClaimsOf(token, decode)
    case None => Failure(InvalidJWT)
    case Some(claims) =>
      Success(Record(RECORD_TYPE + (if |parts| > 2 then parts[2] else "undefined"),
                     match claims.exp case Some(e) => e case None => 0))
  }

  datatype State = State(records: map<string, int>, now: int)

  datatype Op = Revoke(token: string) | Tick(seconds: nat) | Sweep(keys: set<string>)

  /**
   * A sweep may take any records whose time to live has passed no longer than `window` ago, and need not take all of
   * them. The database leaves older ones alone.
   */
  ghost predicate Enabled(s: State, op: Op, window: nat) {
    op.Sweep? ==> forall k :: k in op.keys && k in s.records ==> s.now - window <= s.records[k] <= s.now
  }

  function Next(s: State, op: Op, decode: Decoder): State {
    match op
    case Revoke(token) =>
      (match RecordOf(token, decode)
       case Success(record) => s.(records := s.records[record.key := record.ttl])
       case Failure(_) => s)
    case Tick(seconds) => s.(now := s.now + seconds)
    case Sweep(keys) => s.(records := s.records - keys)
  }

  ghost predicate Run(s: State, ops: seq<Op>, t: State, decode: Decoder, window: nat)
    decreases |ops|
  {
    if ops == [] then s == t
    else Enabled(s, ops[0], window) && Run(Next(s, ops[0], decode), ops[1..], t, decode, window)
  }

  /** The signature verifier's contract, section 4.1.4 of RFC 7519: refused from the expiry on, if there is one. */
  ghost predicate Verifies(claims: Claims, now: int) {
    claims.exp.Some? ==> now < claims.exp.value
  }

  /** Whether a token with a good signature is let in: it is not on record and not expired. */
  ghost predicate Accepts(s: State, token: string, decode: Decoder) {
    && RecordOf(token, decode).Success?
    && RecordOf(token, decode).value.key !in s.records
    && Verifies(ClaimsOf(token, decode).value, s.now)
  }

  /** The run revokes none but these tokens. */
  ghost predicate RevokesOnly(ops: seq<Op>, tokens: iset<string>) {
    forall op :: op in ops && op.Revoke? ==> op.token in tokens
  }

  /** The token is refused at the end of every run from here that revokes none but the given tokens. */
  ghost predicate NeverAccepted(s: State, token: string, tokens: iset<string>, decode: Decoder, window: nat) {
    forall ops, t :: Run(s, ops, t, decode, window) && RevokesOnly(ops, tokens) ==> !Accepts(t, token, decode)
  }

  /** Both tokens are filed under one key, by a common signature. */
  ghost predicate SameKey(other: string, token: string, decode: Decoder) {
    && RecordOf(token, decode).Success? && RecordOf(other, decode).Success?
    && RecordOf(other, decode).value.key == RecordOf(token, decode).value.key
  }

  /**
   * Revoking the other token files, under the same key, a record that a sweep can take from `now` on while the token
   * itself is still valid.
   */
  ghost predicate Undoes(other: string, token: string, now: int, decode: Decoder, window: nat) {
    && SameKey(other, token, decode)
    && var ttl := RecordOf(other, decode).value.ttl;
       && now <= ttl + window
       && Verifies(ClaimsOf(token, decode).value, now) && Verifies(ClaimsOf(token, decode).value, ttl)
  }

  /** The record on file for the token is one that none of the given revocations could undo, or the token is over. */
  ghost predicate Barred(s: State, token: string, since: int, decode: Decoder, window: nat)
    requires RecordOf(token, decode).Success?
  {
    var key, claims := RecordOf(token, decode).value.key, ClaimsOf(token, decode).value;
    && since <= s.now
    && (|| !Verifies(claims, s.now)
        || (key in s.records
            && (since > s.records[key] + window || !Verifies(claims, since) || !Verifies(claims, s.records[key]))))
  }

  lemma StepStaysBarred(s: State, op: Op, token: string, since: int, decode: Decoder, window: nat)
    requires RecordOf(token, decode).Success? && Barred(s, token, since, decode, window) && Enabled(s, op, window)
    requires op.Revoke? ==> !Undoes(op.token, token, since, decode, window)
    ensures Barred(Next(s, op, decode), token, since, decode, window)
  {}

  lemma {:induction false} StaysBarred(s: State, ops: seq<Op>, t: State, token: string, since: int,
                                       tokens: iset<string>, decode: Decoder, window: nat)
    requires RecordOf(token, decode).Success? && Barred(s, token, since, decode, window)
    requires Run(s, ops, t, decode, window) && RevokesOnly(ops, tokens)
    requires forall other :: other in tokens ==> !Undoes(other, token, since, decode, window)
    ensures Barred(t, token, since, decode, window)
    decreases |ops|
  {
    if ops == [] {
    } else {
      assert ops[0] in ops;
      StepStaysBarred(s, ops[0], token, since, decode, window);
      StaysBarred(Next(s, ops[0], decode), ops[1..], t, token, since, tokens, decode, window);
    }
  }

  /** A revocation that undoes the token's does so in a run: it replaces the record, which is then swept in time. */
  lemma UndoneBy(s: State, token: string, other: string, decode: Decoder, window: nat)
    returns (ops: seq<Op>, t: State)
    requires Undoes(other, token, s.now, decode, window)
    ensures Run(Next(s, Revoke(token), decode), ops, t, decode, window) && RevokesOnly(ops, iset{other})
    ensures Accepts(t, token, decode)
  {
    var s1 := Next(s, Revoke(token), decode);
    var record := RecordOf(other, decode).value;
    var wait: nat := if record.ttl > s.now then record.ttl - s.now else 0;
    var s2 := Next(s1, Revoke(other), decode);
    var s3 := Next(s2, Tick(wait), decode);
    t := Next(s3, Sweep({record.key}), decode);
    ops := [Revoke(other), Tick(wait), Sweep({record.key})];
    assert Run(s3, ops[2..], t, decode, window);
    assert Run(s2, ops[1..], t, decode, window);
  }

  /**
   * For every token, every clock and every set of tokens that may be revoked later on: the token is never accepted
   * again in any run if and only if neither its own revocation nor any of those files a record under its key that can
   * be swept while the token is still valid.
   */
  lemma RevocationLastsIff(s: State, token: string, others: iset<string>, decode: Decoder, window: nat)
    requires RecordOf(token, decode).Success?
    ensures
      NeverAccepted(Next(s, Revoke(token), decode), token, others + iset{token}, decode, window)
      <==> forall other :: other in others + iset{token} ==> !Undoes(other, token, s.now, decode, window)
  {
    var revoked := Next(s, Revoke(token), decode);
    if other :| other in others + iset{token} && Undoes(other, token, s.now, decode, window) {
      var ops, t := UndoneBy(s, token, other, decode, window);
      assert RevokesOnly(ops, others + iset{token});
    } else {
      assert !Undoes(token, token, s.now, decode, window);
      assert Barred(revoked, token, s.now, decode, window);
      forall ops, t | Run(revoked, ops, t, decode, window) && RevokesOnly(ops, others + iset{token})
        ensures !Accepts(t, token, decode)
      {
        StaysBarred(revoked, ops, t, token, s.now, others + iset{token}, decode, window);
      }
    }
  }

  /** The other token, if it is filed under the same key at all, is filed with no earlier expiry. */
  ghost predicate NoEarlier(other: string, token: string, decode: Decoder) {
    SameKey(other, token, decode) ==> RecordOf(other, decode).value.ttl >= RecordOf(token, decode).value.ttl
  }

  /** A token with an expiry is never accepted again as long as no earlier one is filed under its signature. */
  lemma RevokedNeverAccepted(s: State, token: string, ops: seq<Op>, t: State, decode: Decoder, window: nat)
    requires RecordOf(token, decode).Success? && ClaimsOf(token, decode).value.exp.Some?
    requires Run(Next(s, Revoke(token), decode), ops, t, decode, window)
    requires forall op :: op in ops && op.Revoke? ==> NoEarlier(op.token, token, decode)
    ensures !Accepts(t, token, decode)
  {
    var others := iset other | NoEarlier(other, token, decode);
    assert RevokesOnly(ops, others + iset{token});
    RevocationLastsIff(s, token, others, decode, window);
  }

  /**
   * A token without an expiry, with no other expiry filed under its signature, stays revoked exactly if the window in
   * which a time to live of zero is swept is over.
   */
  lemma WithoutExpiryLastsIff(s: State, token: string, decode: Decoder, window: nat)
    requires RecordOf(token, decode).Success? && ClaimsOf(token, decode).value.exp.None?
    ensures
      var others := iset other | SameKey(other, token, decode) ==> RecordOf(other, decode).value.ttl == 0;
      NeverAccepted(Next(s, Revoke(token), decode), token, others + iset{token}, decode, window) <==> s.now > window
  {
    var others := iset other | SameKey(other, token, decode) ==> RecordOf(other, decode).value.ttl == 0;
    RevocationLastsIff(s, token, others, decode, window);
    assert Undoes(token, token, s.now, decode, window) <==> s.now <= window;
    assert forall other :: other in others + iset{token} && Undoes(other, token, s.now, decode, window) ==>
        s.now <= window;
  }

  // ----- Other tokens -----

  /** Revoking a token with another signature changes nothing for this one. */
  lemma OtherRevocationHarmless(s: State, a: string, b: string, decode: Decoder)
    requires |Split(a, '.')| >= 3 && |Split(b, '.')| >= 3 && Split(a, '.')[2] != Split(b, '.')[2]
    ensures Accepts(Next(s, Revoke(a), decode), b, decode) <==> Accepts(s, b, decode)
  {
    DifferentKeys(a, b, decode);
  }

  lemma DifferentKeys(a: string, b: string, decode: Decoder)
    requires |Split(a, '.')| >= 3 && |Split(b, '.')| >= 3 && Split(a, '.')[2] != Split(b, '.')[2]
    ensures !SameKey(a, b, decode)
  {
    var x, y := Split(a, '.')[2], Split(b, '.')[2];
    assert (RECORD_TYPE + x)[|RECORD_TYPE|..] == x && (RECORD_TYPE + y)[|RECORD_TYPE|..] == y;
    hide Split;
  }

  /** Every token the run revokes is in three parts, with a signature other than this. */
  ghost predicate RevokesOthers(ops: seq<Op>, signature: string) {
    forall op :: op in ops && op.Revoke? ==> |Split(op.token, '.')| >= 3 && Split(op.token, '.')[2] != signature
  }

  /**
   * A token that is not on record stays accepted until it expires, in every run that revokes none but tokens with
   * other signatures.
   */
  lemma {:induction false} AcceptedUntilExpiry(s: State, token: string, ops: seq<Op>, t: State, decode: Decoder,
                                               window: nat)
    requires RecordOf(token, decode).Success? && RecordOf(token, decode).value.key !in s.records
    requires |Split(token, '.')| >= 3 && RevokesOthers(ops, Split(token, '.')[2])
    requires Run(s, ops, t, decode, window)
    ensures Accepts(t, token, decode) <==> Verifies(ClaimsOf(token, decode).value, t.now)
    decreases |ops|
  {
    hide Split, ClaimsOf;
    if ops == [] {
    } else {
      assert ops[0] in ops;
      if ops[0].Revoke? {
        DifferentKeys(ops[0].token, token, decode);
      }
      AcceptedUntilExpiry(Next(s, ops[0], decode), token, ops[1..], t, decode, window);
    }
  }

  class TokenRevocationService {
    var records: map<string, int>
    const decode: Decoder

    constructor (decode: Decoder)
      ensures this.decode == decode && records == map[]
    {
      this.decode := decode;
      records := map[];
    }

    method RevokeToken(token: string) returns (r: Result<(), TokenError>)
      modifies this
      ensures r.Failure? <==> RecordOf(token, decode).Failure?
      ensures r.Failure? ==> records == old(records)
      ensures r.Success? && |Split(token, '.')| >= 3 ==>
        var exp := decode(Split(token, '.')[1]).value.exp;
        records == old(records)["REVOKEDTOKEN#" + Split(token, '.')[2] := if exp.Some? then exp.value else 0]
      ensures forall now :: State(records, now) == Next(State(old(records), now), Revoke(token), decode)
    {
      var record := RecordOf(token, decode);
      if record.Failure? {
        return Failure(record.error);
      }
      records := records[record.value.key := record.value.ttl];
      r := Success(());
    }

    method IsRevoked(token: string) returns (r: Result<bool, TokenError>)
      ensures r.Failure? <==> RecordOf(token, decode).Failure?
      ensures r.Success? ==> r.value == (RecordOf(token, decode).value.key in records)
      ensures r.Success? && |Split(token, '.')| >= 3 ==>
        (r.value <==> "REVOKEDTOKEN#" + Split(token, '.')[2] in records)
    {
      var record := RecordOf(token, decode);
      r := match record case Success(found) => Success(found.key in records) case Failure(e) => Failure(e);
    }
  }

  /** A token is let in when it is not revoked and the verifier, whose verdict is `verified`, accepts it. */
  method ValidateToken(service: TokenRevocationService, token: string, now: int, verified: bool)
    returns (r: Result<Claims, TokenError>)
    requires verified ==> ClaimsOf(token, service.decode).Some? && Verifies(ClaimsOf(token, service.decode).value, now)
    ensures r.Success? <==> verified && Accepts(State(service.records, now), token, service.decode)
    ensures verified && |Split(token, '.')| >= 3 ==>
      (r.Success? <==> "REVOKEDTOKEN#" + Split(token, '.')[2] !in service.records)
    ensures r.Success? ==> Some(r.value) == ClaimsOf(token, service.decode)
  {
    var revoked := service.IsRevoked(token);
    if revoked.Failure? {
      return Failure(InvalidJWT);
    }
    if revoked.value || !verified {
      return Failure(InvalidJWT);
    }
    r := Success(ClaimsOf(token, service.decode).value);
  }
}
