/** Refresh sessions: one-time tokens with rotation and reuse detection. A token is known by its hash. */
module Sessions {
  import opened Common

  datatype Session = Session(userId: nat, tokenHash: string, expiresAt: int, revokedAt: Option<int>)
  type Table = map<nat, Session>
  datatype Outcome = Ok | InvalidRefreshToken | TokenRevoked | TokenExpired | UniqueViolation

  // ---- The table and its transitions ---------------------------------------------------------------------

  ghost predicate UniqueHashes(t: Table) {
    forall i, j :: i in t && j in t && t[i].tokenHash == t[j].tokenHash ==> i == j
  }

  ghost function ByHash(t: Table, tokenHash: string): (i: Option<nat>)
    ensures i.Some? ==> i.value in t && t[i.value].tokenHash == tokenHash
    ensures i.None? ==> forall j :: j in t ==> t[j].tokenHash != tokenHash
  {
    if i :| i in t && t[i].tokenHash == tokenHash then Some(i) else None
  }

  predicate HashStored(t: Table, tokenHash: string) {
    exists i :: i in t && t[i].tokenHash == tokenHash
  }

  /** createRefreshSession; the columns id and tokenHash are unique. */
  function Created(t: Table, id: nat, userId: nat, tokenHash: string, expiresAt: int): (Table, Outcome) {
    if id in t || HashStored(t, tokenHash) then (t, UniqueViolation)
    else (t[id := Session(userId, tokenHash, expiresAt, None)], Ok)
  }

  /** revokeAllUserSessions: every unrevoked session of the user, at this time. */
  function AllRevoked(t: Table, userId: nat, now: int): Table {
    map i | i in t :: if t[i].userId == userId && t[i].revokedAt.None? then t[i].(revokedAt := Some(now)) else t[i]
  }

  function HashRevoked(t: Table, tokenHash: string, now: int): Table {
    map i | i in t ::
        if t[i].tokenHash == tokenHash && t[i].revokedAt.None? then t[i].(revokedAt := Some(now)) else t[i]
  }

  /** rotateRefreshSession: the old row is revoked without a look at its state, the new one created, or neither. */
  function Rotated(t: Table, oldId: nat, userId: nat, newId: nat, newHash: string, now: int,
                   expiresAt: int): (Table, Outcome)
    requires oldId in t
  {
    var (t', o) := Created(t[oldId := t[oldId].(revokedAt := Some(now))], newId, userId, newHash, expiresAt);
    if o == Ok then (t', Ok) else (t, o)
  }

  /** What refresh decides from the stored row, before it rotates. */
  ghost function Verdict(t: Table, jwtOk: bool, tokenHash: string, now: int): Outcome {
    var found := ByHash(t, tokenHash);
    if !jwtOk || found.None? then InvalidRefreshToken
    else if t[found.value].revokedAt.Some? then TokenRevoked
    else if t[found.value].expiresAt < now then TokenExpired
    else Ok
  }

  ghost function Refreshed(t: Table, jwtOk: bool, tokenHash: string, now: int, newId: nat, newHash: string,
                           expiresAt: int): (Table, Outcome) {
    var verdict, found := Verdict(t, jwtOk, tokenHash, now), ByHash(t, tokenHash);
    if verdict == TokenRevoked then (AllRevoked(t, t[found.value].userId, now), TokenRevoked)
    else if verdict == Ok then Rotated(t, found.value, t[found.value].userId, newId, newHash, now, expiresAt)
    else (t, verdict)
  }

  predicate Stale(s: Session, now: int) {
    s.expiresAt < now || s.revokedAt.Some?
  }

  function CleanedUp(t: Table, now: int): Table {
    map i | i in t && !Stale(t[i], now) :: t[i]
  }

  // ---- Runs -------------------------------------------------------------------------------------------------

  datatype Step =
    | SignIn(userId: nat, id: nat, tokenHash: string, expiresAt: int)
    | Refresh(jwtOk: bool, tokenHash: string, now: int, newId: nat, newHash: string, expiresAt: int)
    | Logout(tokenHash: string, now: int)
    | ChangePassword(userId: nat, now: int)
    | Cleanup(now: int)
  /** `issued` and `accepted` record the token hashes handed out and those refresh accepted. */
  datatype System = System(table: Table, issued: set<string>, accepted: seq<string>)

  const START: System := System(map[], {}, [])

  ghost function Take(s: System, step: Step): System {
    match step
    case SignIn(userId, id, tokenHash, expiresAt) =>
      var (t, o) := Created(s.table, id, userId, tokenHash, expiresAt);
      if o == Ok then s.(table := t, issued := s.issued + {tokenHash}) else s
    case Refresh(jwtOk, tokenHash, now, newId, newHash, expiresAt) =>
      var (t, o) := Refreshed(s.table, jwtOk, tokenHash, now, newId, newHash, expiresAt);
      if o == Ok then System(t, s.issued + {newHash}, s.accepted + [tokenHash]) else s.(table := t)
    case Logout(tokenHash, now) => s.(table := HashRevoked(s.table, tokenHash, now))
    case ChangePassword(userId, now) => s.(table := AllRevoked(s.table, userId, now))
    case Cleanup(now) => s.(table := CleanedUp(s.table, now))
  }

  /** Tokens carry a random id, so a token newly made is none that was made before. */
  ghost predicate MakesFreshToken(s: System, step: Step) {
    && (step.SignIn? ==> step.tokenHash !in s.issued)
    && (step.Refresh? ==> step.newHash !in s.issued)
  }

  ghost function Run(steps: seq<Step>): System {
    if steps == [] then START else Take(Run(steps[..|steps| - 1]), steps[|steps| - 1])
  }

  ghost predicate FreshTokens(steps: seq<Step>) {
    steps == [] || (FreshTokens(steps[..|steps| - 1]) && MakesFreshToken(Run(steps[..|steps| - 1]), steps[|steps| - 1]))
  }

  ghost predicate Inv(s: System) {
    && UniqueHashes(s.table)
    && (forall i :: i in s.table ==> s.table[i].tokenHash in s.issued)
    && (forall i :: i in s.table && s.table[i].tokenHash in s.accepted ==> s.table[i].revokedAt.Some?)
    && (forall h :: h in s.accepted ==> h in s.issued)
    && (forall j, k :: 0 <= j < k < |s.accepted| ==> s.accepted[j] != s.accepted[k])
  }

  lemma RotationShape(t: Table, oldId: nat, userId: nat, newId: nat, newHash: string, now: int, expiresAt: int)
    requires oldId in t
    ensures var r := Rotated(t, oldId, userId, newId, newHash, now, expiresAt);
            && (r.1 == Ok ==>
                  && newId !in t && newHash != t[oldId].tokenHash && !HashStored(t, newHash)
                  && r.0 == t[oldId := t[oldId].(revokedAt := Some(now))]
                             [newId := Session(userId, newHash, expiresAt, None)])
            && (r.1 != Ok ==> r == (t, UniqueViolation))
  {
    var t1 := t[oldId := t[oldId].(revokedAt := Some(now))];
    assert forall i :: i in t ==> t1[i].tokenHash == t[i].tokenHash;
  }

  lemma RotationKeepsInv(s: System, i: nat, now: int, newId: nat, new_: Session)
    requires Inv(s) && i in s.table && s.table[i].revokedAt.None? && newId !in s.table && new_.tokenHash !in s.issued
    ensures Inv(System(s.table[i := s.table[i].(revokedAt := Some(now))][newId := new_], s.issued + {new_.tokenHash},
                       s.accepted + [s.table[i].tokenHash]))
  {
  }

  lemma TakeKeepsInv(s: System, step: Step)
    requires Inv(s) && MakesFreshToken(s, step)
    ensures Inv(Take(s, step))
  {
    if step.Refresh? && Verdict(s.table, step.jwtOk, step.tokenHash, step.now) == Ok {
      var i := ByHash(s.table, step.tokenHash).value;
      var u := s.table[i].userId;
      RotationShape(s.table, i, u, step.newId, step.newHash, step.now, step.expiresAt);
      if Take(s, step) != s {
        RotationKeepsInv(s, i, step.now, step.newId, Session(u, step.newHash, step.expiresAt, None));
      }
    }
  }

  lemma {:induction false} EveryRunKeepsInv(steps: seq<Step>)
    requires FreshTokens(steps)
    ensures Inv(Run(steps))
  {
    if steps != [] {
      EveryRunKeepsInv(steps[..|steps| - 1]);
      TakeKeepsInv(Run(steps[..|steps| - 1]), steps[|steps| - 1]);
    }
  }

  /** In every run refresh accepts each token at most once. */
  lemma TokensAreSingleUse(steps: seq<Step>)
    requires FreshTokens(steps)
    ensures var a := Run(steps).accepted; forall j, k :: 0 <= j < k < |a| ==> a[j] != a[k]
  {
    EveryRunKeepsInv(steps);
  }

  /** No step un-revokes a session or moves the time of its revocation. */
  lemma RevokedStaysRevoked(s: System, step: Step, i: nat)
    requires UniqueHashes(s.table) && i in s.table && s.table[i].revokedAt.Some? && i in Take(s, step).table
    ensures Take(s, step).table[i] == s.table[i]
  {
    if step.Refresh? && Verdict(s.table, step.jwtOk, step.tokenHash, step.now) == Ok {
      var found := ByHash(s.table, step.tokenHash);
      RotationShape(s.table, found.value, s.table[found.value].userId, step.newId, step.newHash, step.now,
                    step.expiresAt);
    }
  }

  // ---- Live sessions -------------------------------------------------------------------------------------------

  ghost function LiveSessions(t: Table, userId: nat): (live: set<nat>)
    ensures forall i :: i in live <==> i in t && t[i].userId == userId && t[i].revokedAt.None?
  {
    set i | i in t && t[i].userId == userId && t[i].revokedAt.None?
  }

  lemma LiveAfterRotation(t: Table, i: nat, now: int, newId: nat, new_: Session, other: nat)
    requires i in t && newId !in t && t[i].revokedAt.None? && new_.revokedAt.None? && new_.userId == t[i].userId
    ensures var t', u := t[i := t[i].(revokedAt := Some(now))][newId := new_], t[i].userId;
            && i in LiveSessions(t, u) && LiveSessions(t', u) == LiveSessions(t, u) - {i} + {newId}
            && |LiveSessions(t', u)| == |LiveSessions(t, u)|
            && (other != u ==> LiveSessions(t', other) == LiveSessions(t, other))
  {
    var t', u := t[i := t[i].(revokedAt := Some(now))][newId := new_], t[i].userId;
    assert LiveSessions(t', u) == LiveSessions(t, u) - {i} + {newId};
  }

  /** A successful refresh trades one unrevoked session of the user for one new one, and touches no other user's. */
  lemma RefreshConservesSessions(t: Table, tokenHash: string, now: int, newId: nat, newHash: string, expiresAt: int,
                                 other: nat)
    requires UniqueHashes(t) && Refreshed(t, true, tokenHash, now, newId, newHash, expiresAt).1 == Ok
    ensures var t', i := Refreshed(t, true, tokenHash, now, newId, newHash, expiresAt).0, ByHash(t, tokenHash).value;
            && var u := t[i].userId;
            && i in LiveSessions(t, u) && LiveSessions(t', u) == LiveSessions(t, u) - {i} + {newId}
            && |LiveSessions(t', u)| == |LiveSessions(t, u)|
            && (other != u ==> LiveSessions(t', other) == LiveSessions(t, other))
            && t'[newId] == Session(u, newHash, expiresAt, None)
  {
    var i := ByHash(t, tokenHash).value;
    var u := t[i].userId;
    RotationShape(t, i, u, newId, newHash, now, expiresAt);
    LiveAfterRotation(t, i, now, newId, Session(u, newHash, expiresAt, None), other);
  }

  lemma AllRevokedLeavesNone(t: Table, userId: nat, now: int, other: nat)
    ensures LiveSessions(AllRevoked(t, userId, now), userId) == {}
    ensures other != userId ==> LiveSessions(AllRevoked(t, userId, now), other) == LiveSessions(t, other)
  {
    var t' := AllRevoked(t, userId, now);
    assert other != userId ==> forall i :: i in t && t[i].userId == other ==> t'[i] == t[i];
  }

  /** A token was handed out and no unrevoked session has its hash. */
  ghost predicate Ended(s: System, tokenHash: string) {
    tokenHash in s.issued && forall i :: i in s.table && s.table[i].tokenHash == tokenHash ==>
        s.table[i].revokedAt.Some?
  }

  lemma TakeKeepsEnded(s: System, step: Step, tokenHash: string)
    requires UniqueHashes(s.table) && MakesFreshToken(s, step) && Ended(s, tokenHash)
    ensures Ended(Take(s, step), tokenHash)
  {
    if step.Refresh? && Verdict(s.table, step.jwtOk, step.tokenHash, step.now) == Ok {
      var i := ByHash(s.table, step.tokenHash).value;
      RotationShape(s.table, i, s.table[i].userId, step.newId, step.newHash, step.now, step.expiresAt);
    }
  }

  lemma {:induction false} EndedStaysEnded(steps: seq<Step>, n: nat, tokenHash: string)
    requires n <= |steps| && FreshTokens(steps) && Ended(Run(steps[..n]), tokenHash)
    ensures Ended(Run(steps), tokenHash)
  {
    if n < |steps| {
      var init := steps[..|steps| - 1];
      assert init[..n] == steps[..n];
      EndedStaysEnded(init, n, tokenHash);
      EveryRunKeepsInv(init);
      TakeKeepsEnded(Run(init), steps[|steps| - 1], tokenHash);
    } else {
      assert steps[..n] == steps;
    }
  }

  /** Refreshes, logouts and password changes end tokens. */
  lemma WhatEndsTokens(s: System, userId: nat, tokenHash: string, now: int)
    requires Inv(s)
    ensures tokenHash in s.accepted ==> Ended(s, tokenHash)
    ensures tokenHash in s.issued ==> Ended(Take(s, Logout(tokenHash, now)), tokenHash)
    ensures forall i :: i in s.table && s.table[i].userId == userId ==>
              Ended(Take(s, ChangePassword(userId, now)), s.table[i].tokenHash)
  {
  }

  /**
   Replaying an ended token at any later time: while its row is stored the replay is recognised and leaves the user
   without an unrevoked session, and others theirs; once cleanup has removed the row the replay is refused like an
   unknown token.
   */
  lemma ReplayIsDetectedIff(steps: seq<Step>, n: nat, replay: Step, other: nat)
    requires replay.Refresh? && replay.jwtOk
    requires n <= |steps| && FreshTokens(steps) && Ended(Run(steps[..n]), replay.tokenHash)
    ensures var s := Run(steps);
            var (t, o) := Refreshed(s.table, true, replay.tokenHash, replay.now, replay.newId, replay.newHash,
                                    replay.expiresAt);
            && (o == TokenRevoked <==> HashStored(s.table, replay.tokenHash))
            && (o == TokenRevoked ==>
                  var u := s.table[ByHash(s.table, replay.tokenHash).value].userId;
                  LiveSessions(t, u) == {} && (other != u ==> LiveSessions(t, other) == LiveSessions(s.table, other)))
            && (o != TokenRevoked ==> t == s.table && o == InvalidRefreshToken)
  {
    EndedStaysEnded(steps, n, replay.tokenHash);
    var s := Run(steps);
    var found := ByHash(s.table, replay.tokenHash);
    if found.Some? {
      AllRevokedLeavesNone(s.table, s.table[found.value].userId, replay.now, other);
    }
  }

  /** A password change ends every session of the user, and logout the one it is given. */
  lemma EndedSessions(s: System, userId: nat, tokenHash: string, now: int)
    ensures LiveSessions(Take(s, ChangePassword(userId, now)).table, userId) == {}
    ensures var t := Take(s, Logout(tokenHash, now)).table;
            forall i :: i in t ==> t[i].tokenHash == tokenHash ==> t[i].revokedAt.Some?
    ensures var t := Take(s, Logout(tokenHash, now)).table;
            forall i :: i in t && t[i].tokenHash != tokenHash ==> t[i] == s.table[i]
  {
    AllRevokedLeavesNone(s.table, userId, now, 0);
  }

  // ---- What the calls do, told from the rows ---------------------------------------------------------------------

  predicate StoredAs(t: Table, i: nat, tokenHash: string) {
    i in t && t[i].tokenHash == tokenHash
  }

  lemma FoundIs(t: Table, tokenHash: string)
    requires UniqueHashes(t)
    ensures forall i: nat :: StoredAs(t, i, tokenHash) <==> ByHash(t, tokenHash) == Some(i)
  {
    var found := ByHash(t, tokenHash);
    assert found.Some? ==> StoredAs(t, found.value, tokenHash);
  }

  /** When a refresh is accepted or refused, and why. */
  lemma RefreshOutcome(t: Table, jwtOk: bool, tokenHash: string, now: int, newId: nat, newHash: string, expiresAt: int)
    requires UniqueHashes(t)
    ensures var o := Refreshed(t, jwtOk, tokenHash, now, newId, newHash, expiresAt).1;
            && (o == InvalidRefreshToken <==> !jwtOk || forall i: nat :: !StoredAs(t, i, tokenHash))
            && (o == TokenRevoked <==> jwtOk && exists i: nat :: StoredAs(t, i, tokenHash) && t[i].revokedAt.Some?)
            && (o == TokenExpired <==>
                  jwtOk && exists i: nat :: StoredAs(t, i, tokenHash) && t[i].revokedAt.None? && t[i].expiresAt < now)
            && (o == Ok <==>
                  && jwtOk && newId !in t && (forall j: nat :: !StoredAs(t, j, newHash))
                  && exists i: nat :: StoredAs(t, i, tokenHash) && t[i].revokedAt.None? && t[i].expiresAt >= now)
            && (o == UniqueViolation <==>
                  && jwtOk && (newId in t || exists j: nat :: StoredAs(t, j, newHash))
                  && exists i: nat :: StoredAs(t, i, tokenHash) && t[i].revokedAt.None? && t[i].expiresAt >= now)
  {
    FoundIs(t, tokenHash);
    var found := ByHash(t, tokenHash);
    if found.Some? {
      var i := found.value;
      assert StoredAs(t, i, tokenHash);
      RotationIs(t, i, newId, newHash, now, expiresAt);
    }
  }

  /** A rotation succeeds when the new id and hash are free; then the old row is revoked now and the new one stored. */
  lemma RotationIs(t: Table, i: nat, newId: nat, newHash: string, now: int, expiresAt: int)
    requires i in t
    ensures var r := Rotated(t, i, t[i].userId, newId, newHash, now, expiresAt);
            && (r.1 == Ok <==> newId !in t && forall j: nat :: !StoredAs(t, j, newHash))
            && (r.1 != Ok ==> r == (t, UniqueViolation))
            && (r.1 == Ok ==>
                  r.0 == t[i := Session(t[i].userId, t[i].tokenHash, t[i].expiresAt, Some(now))]
                          [newId := Session(t[i].userId, newHash, expiresAt, None)])
  {
    var t1 := t[i := t[i].(revokedAt := Some(now))];
    assert forall j: nat :: StoredAs(t1, j, newHash) <==> StoredAs(t, j, newHash);
    if HashStored(t1, newHash) {
      var j :| j in t1 && t1[j].tokenHash == newHash;
      assert StoredAs(t1, j, newHash);
    }
    assert forall j: nat :: StoredAs(t1, j, newHash) ==> HashStored(t1, newHash);
  }

  /** What a refresh leaves: the rotated rows, or all the user's sessions revoked, or everything as it was. */
  lemma RefreshEffect(t: Table, jwtOk: bool, tokenHash: string, now: int, newId: nat, newHash: string, expiresAt: int,
                      i: nat)
    requires UniqueHashes(t) && StoredAs(t, i, tokenHash)
    ensures var (after, o) := Refreshed(t, jwtOk, tokenHash, now, newId, newHash, expiresAt);
            && (o == Ok ==>
                  after == t[i := Session(t[i].userId, tokenHash, t[i].expiresAt, Some(now))]
                            [newId := Session(t[i].userId, newHash, expiresAt, None)])
            && (o == TokenRevoked ==>
                  && after.Keys == t.Keys
                  && forall j :: j in t ==>
                       after[j] == if t[j].userId == t[i].userId && t[j].revokedAt.None?
                                   then Session(t[j].userId, t[j].tokenHash, t[j].expiresAt, Some(now)) else t[j])
            && (o != Ok && o != TokenRevoked ==> after == t)
  {
    FoundIs(t, tokenHash);
    RotationIs(t, i, newId, newHash, now, expiresAt);
  }

  /** A refresh that is accepted is recorded as such, with the token that it hands out; no other is. */
  lemma RefreshRecorded(s: System, jwtOk: bool, tokenHash: string, now: int, newId: nat, newHash: string,
                        expiresAt: int)
    ensures var (t, o) := Refreshed(s.table, jwtOk, tokenHash, now, newId, newHash, expiresAt);
            var after := Take(s, Refresh(jwtOk, tokenHash, now, newId, newHash, expiresAt));
            && after.table == t
            && after.accepted == (if o == Ok then s.accepted + [tokenHash] else s.accepted)
            && after.issued == (if o == Ok then s.issued + {newHash} else s.issued)
  {
  }

  /** Cleanup keeps exactly the rows that can still be refreshed. */
  lemma CleanupEffect(s: System, now: int)
    ensures var after := Take(s, Cleanup(now)).table;
            && (forall i :: i in after <==> i in s.table && s.table[i].revokedAt.None? && s.table[i].expiresAt >= now)
            && (forall i :: i in after ==> after[i] == s.table[i])
  {
  }

  /** A logout revokes the unrevoked row of the hash now, and a password change those of the user. */
  lemma RevocationEffect(s: System, tokenHash: string, userId: nat, now: int)
    ensures var after := Take(s, Logout(tokenHash, now)).table;
            && after.Keys == s.table.Keys
            && forall i :: i in s.table ==>
                 after[i] == if s.table[i].tokenHash == tokenHash && s.table[i].revokedAt.None?
                             then s.table[i].(revokedAt := Some(now)) else s.table[i]
    ensures var after := Take(s, ChangePassword(userId, now)).table;
            && after.Keys == s.table.Keys
            && forall i :: i in s.table ==>
                 after[i] == if s.table[i].userId == userId && s.table[i].revokedAt.None?
                             then s.table[i].(revokedAt := Some(now)) else s.table[i]
  {
  }

  /** A sign-in stores an unrevoked row under a free id and hash, and else changes nothing. */
  lemma SignInEffect(s: System, userId: nat, id: nat, tokenHash: string, expiresAt: int)
    ensures var after := Take(s, SignIn(userId, id, tokenHash, expiresAt));
            if id !in s.table && forall i: nat :: !StoredAs(s.table, i, tokenHash) then
              && after.table == s.table[id := Session(userId, tokenHash, expiresAt, None)]
              && after.issued == s.issued + {tokenHash}
            else after == s
  {
    if HashStored(s.table, tokenHash) {
      var i :| i in s.table && s.table[i].tokenHash == tokenHash;
      assert StoredAs(s.table, i, tokenHash);
    }
    assert forall i: nat :: StoredAs(s.table, i, tokenHash) ==> HashStored(s.table, tokenHash);
  }

  // ---- Two refreshes of one token at once ------------------------------------------------------------------------

  lemma RotationKeepsFinding(t: Table, i: nat, userId: nat, newId: nat, newHash: string, now: int, expiresAt: int)
    requires UniqueHashes(t) && i in t && Rotated(t, i, userId, newId, newHash, now, expiresAt).1 == Ok
    ensures var t1 := Rotated(t, i, userId, newId, newHash, now, expiresAt).0;
            i in t1 && t1[i].revokedAt.Some? && ByHash(t1, t[i].tokenHash) == Some(i)
  {
    RotationShape(t, i, userId, newId, newHash, now, expiresAt);
    var t1 := Rotated(t, i, userId, newId, newHash, now, expiresAt).0;
    assert forall j :: j in t1 && t1[j].tokenHash == t[i].tokenHash ==> j == i;
  }

  /** Two rotations of the same row, the second by a refresh that had looked the row up before the first. */
  lemma SecondRotationAddsSession(t: Table, i: nat, now: int, id1: nat, hash1: string, id2: nat, hash2: string,
                                  expiresAt: int)
    requires i in t && t[i].revokedAt.None? && id1 !in t && id2 !in t && id1 != id2
    requires Rotated(t, i, t[i].userId, id1, hash1, now, expiresAt).1 == Ok && !HashStored(t, hash2) && hash1 != hash2
    ensures var t1 := Rotated(t, i, t[i].userId, id1, hash1, now, expiresAt).0;
            i in t1 && var (t2, o2) := Rotated(t1, i, t[i].userId, id2, hash2, now, expiresAt);
            o2 == Ok && LiveSessions(t2, t[i].userId) == LiveSessions(t, t[i].userId) - {i} + {id1, id2}
  {
    var u := t[i].userId;
    RotationShape(t, i, u, id1, hash1, now, expiresAt);
    var t1 := Rotated(t, i, u, id1, hash1, now, expiresAt).0;
    var t1' := t1[i := t1[i].(revokedAt := Some(now))];
    assert forall j :: j in t1' ==> t1'[j].tokenHash != hash2;
    var t2 := Rotated(t1, i, u, id2, hash2, now, expiresAt).0;
    assert t2 == t1'[id2 := Session(u, hash2, expiresAt, None)];
  }

  /**
   The look-up and the rotation are separate database calls. When a second refresh of the same token looks up after the
   first has rotated, it is refused as a replay; when it looks up before, both succeed and the user gains a session.
   */
  lemma OverlappingRefreshes(t: Table, tokenHash: string, now: int, id1: nat, hash1: string, id2: nat, hash2: string,
                             expiresAt: int)
    requires UniqueHashes(t) && Verdict(t, true, tokenHash, now) == Ok
    requires id1 !in t && id2 !in t && id1 != id2 && !HashStored(t, hash1) && !HashStored(t, hash2) && hash1 != hash2
    ensures var i := ByHash(t, tokenHash).value;
            var u := t[i].userId;
            var (t1, o1) := Rotated(t, i, u, id1, hash1, now, expiresAt);
            && o1 == Ok && Verdict(t1, true, tokenHash, now) == TokenRevoked
            && i in t1 && var (t2, o2) := Rotated(t1, i, u, id2, hash2, now, expiresAt);
            && o2 == Ok && |LiveSessions(t2, u)| == |LiveSessions(t, u)| + 1
  {
    var i := ByHash(t, tokenHash).value;
    assert forall j :: j in t ==> t[j].tokenHash != hash1;
    assert Rotated(t, i, t[i].userId, id1, hash1, now, expiresAt).1 == Ok;
    RotationKeepsFinding(t, i, t[i].userId, id1, hash1, now, expiresAt);
    SecondRotationAddsSession(t, i, now, id1, hash1, id2, hash2, expiresAt);
  }

  // ---- The service -------------------------------------------------------------------------------------------------

  class SessionService {
    var sessions: Table

    constructor ()
      ensures sessions == map[]
    {
      sessions := map[];
    }

    method CreateRefreshSession(id: nat, userId: nat, tokenHash: string, expiresAt: int) returns (o: Outcome)
      modifies this
      ensures (sessions, o) == Created(old(sessions), id, userId, tokenHash, expiresAt)
    {
      if id in sessions || HashStored(sessions, tokenHash) {
        return UniqueViolation;
      }
      sessions := sessions[id := Session(userId, tokenHash, expiresAt, None)];
      return Ok;
    }

    method RevokeAllUserSessions(userId: nat, now: int)
      modifies this
      ensures sessions == AllRevoked(old(sessions), userId, now)
    {
      sessions := map i | i in sessions ::
        if sessions[i].userId == userId && sessions[i].revokedAt.None? then sessions[i].(revokedAt := Some(now))
        else sessions[i];
    }

    method Logout(tokenHash: string, now: int)
      modifies this
      ensures sessions == HashRevoked(old(sessions), tokenHash, now)
    {
      sessions := map i | i in sessions ::
        if sessions[i].tokenHash == tokenHash && sessions[i].revokedAt.None? then sessions[i].(revokedAt := Some(now))
        else sessions[i];
    }

    /** Two writes in one transaction: when the second fails the first is undone. */
    method RotateRefreshSession(oldId: nat, userId: nat, newId: nat, newHash: string, now: int, expiresAt: int)
      returns (o: Outcome)
      requires oldId in sessions
      modifies this
      ensures (sessions, o) == Rotated(old(sessions), oldId, userId, newId, newHash, now, expiresAt)
    {
      var saved := sessions;
      sessions := sessions[oldId := sessions[oldId].(revokedAt := Some(now))];
      o := CreateRefreshSession(newId, userId, newHash, expiresAt);
      if o != Ok {
        sessions := saved;
      }
    }

    method Refresh(jwtOk: bool, tokenHash: string, now: int, newId: nat, newHash: string, expiresAt: int)
      returns (o: Outcome)
      requires UniqueHashes(sessions)
      modifies this
      ensures (sessions, o) == Refreshed(old(sessions), jwtOk, tokenHash, now, newId, newHash, expiresAt)
    {
      if !jwtOk {
        return InvalidRefreshToken;
      }
      if id :| id in sessions && sessions[id].tokenHash == tokenHash {
        var session := sessions[id];
        if session.revokedAt.Some? {
          RevokeAllUserSessions(session.userId, now);
          return TokenRevoked;
        }
        if session.expiresAt < now {
          return TokenExpired;
        }
        o := RotateRefreshSession(id, session.userId, newId, newHash, now, expiresAt);
        return;
      }
      return InvalidRefreshToken;
    }
  }
}
