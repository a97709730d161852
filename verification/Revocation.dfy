/**
 Token revocation: a Bloom-guarded local set per instance, and one Redis denylist shared by all instances.
 Times are milliseconds on one clock; a token's exp is in seconds.
 */
module Revocation {
  import opened Common
  import opened Bloom

  datatype Answer = Revoked | NotRevoked | Unavailable

  const PRUNE_ABOVE: nat := 200_000
  const DEFAULT_TTL: int := 900

  function Max(a: int, b: int): int {
    if a < b then b else a
  }

  /** SETEX with max(1, ttl) seconds: when the key goes away. */
  function Deadline(now: int, ttlSeconds: int): int {
    now + 1000 * Max(1, ttlSeconds)
  }

  predicate InDenylist(denylist: map<string, int>, now: int, jti: string) {
    jti in denylist && now < denylist[jti]
  }

  class Redis {
    var now: int
    /** Each key `revoked:jti:<jti>` with the time at which it expires. */
    var denylist: map<string, int>

    constructor ()
      ensures denylist == map[]
    {
      now, denylist := 0, map[];
    }
  }

  class TokenRevocationBloomService {
    const bloom: BloomFilter
    const redis: Redis
    var authoritativeSet: set<string>

    constructor (redis: Redis, size: nat, hashCount: nat, sha256: string -> Word, md5: string -> Word)
      requires size >= 1024 && 1 <= hashCount <= 16
      ensures Valid() && fresh(bloom) && fresh(bloom.bitArray) && this.redis == redis && authoritativeSet == {}
    {
      this.redis := redis;
      bloom := new BloomFilter(size, hashCount, sha256, md5);
      authoritativeSet := {};
    }

    /** The set holds exactly what the Bloom filter was given, so the filter never hides a member. */
    ghost predicate Valid()
      reads this, bloom, bloom.bitArray
    {
      bloom.Valid() && bloom.added == authoritativeSet
    }

    /** What this instance and the denylist are as instance i of a cluster. */
    ghost predicate Shows(c: Cluster, i: nat)
      reads this, redis
    {
      c.now == redis.now && c.denylist == redis.denylist && LocalOf(c, i) == authoritativeSet
    }

    /** `redisUp` tells whether the write reaches Redis; a failed write is only logged. */
    method Revoke(jti: string, ttlSeconds: int, redisUp: bool)
      requires Valid()
      modifies this, bloom, bloom.bitArray, redis`denylist
      ensures Valid()
      ensures authoritativeSet == old(authoritativeSet) + if jti == "" then {} else {jti}
      ensures redis.denylist ==
              if jti == "" || !redisUp then old(redis.denylist)
              else if ttlSeconds >= 1 then old(redis.denylist)[jti := redis.now + 1000 * ttlSeconds]
              else old(redis.denylist)[jti := redis.now + 1000]
      ensures forall c: Cluster, i: nat :: old(Shows(c, i)) ==>
              Shows(Next(c, Step.Revoke(i, jti, ttlSeconds, redisUp)), i)
    {
      if jti == "" {
        return;
      }
      bloom.Add(jti);
      authoritativeSet := authoritativeSet + {jti};
      var ttl := Max(1, ttlSeconds);
      if redisUp {
        redis.denylist := redis.denylist[jti := redis.now + 1000 * ttl];
      }
    }

    /** The Bloom fast path never changes the answer: it is membership in the set. */
    method IsRevoked(jti: string) returns (revoked: bool)
      requires Valid()
      ensures revoked <==> jti in authoritativeSet
    {
      if jti == "" {
        return false;
      }
      var possibly := bloom.Has(jti);
      if !possibly {
        return false;
      }
      return jti in authoritativeSet;
    }

    method IsRevokedDistributed(jti: string, redisUp: bool) returns (answer: Answer)
      requires Valid()
      modifies this, bloom, bloom.bitArray
      ensures Valid()
      ensures answer == Check(old(authoritativeSet), redis.denylist, redis.now, jti, redisUp)
      ensures answer == Revoked <==>
              jti != "" && (jti in old(authoritativeSet)
                            || (redisUp && jti in redis.denylist && redis.now < redis.denylist[jti]))
      ensures answer == Unavailable <==> jti != "" && jti !in old(authoritativeSet) && !redisUp
      ensures authoritativeSet == old(authoritativeSet) + if answer == Revoked then {jti} else {}
      ensures forall c: Cluster, i: nat :: old(Shows(c, i)) ==>
              Shows(Next(c, Step.IsRevokedDistributed(i, jti, redisUp)), i)
    {
      if jti == "" {
        return NotRevoked;
      }
      var revoked := IsRevoked(jti);
      if revoked {
        return Revoked;
      }
      if !redisUp {
        return Unavailable;
      }
      if InDenylist(redis.denylist, redis.now, jti) {
        bloom.Add(jti);
        authoritativeSet := authoritativeSet + {jti};
        return Revoked;
      }
      return NotRevoked;
    }

    method ClearLocalState()
      requires Valid()
      modifies this, bloom, bloom.bitArray
      ensures Valid() && authoritativeSet == {}
      ensures forall c: Cluster, i: nat :: old(Shows(c, i)) ==> Shows(Next(c, Step.Restart(i)), i)
    {
      bloom.Clear();
      authoritativeSet := {};
    }

    method Prune()
      requires Valid()
      modifies this, bloom, bloom.bitArray
      ensures Valid()
      ensures authoritativeSet == if |old(authoritativeSet)| > 200_000 then {} else old(authoritativeSet)
      ensures forall c: Cluster, i: nat :: old(Shows(c, i)) ==> Shows(Next(c, Step.Prune(i)), i)
    {
      if |authoritativeSet| > PRUNE_ABOVE {
        authoritativeSet := {};
        bloom.Clear();
      }
    }
  }

  /** What a check answers from an instance's set and the shared denylist. */
  function Check(local: set<string>, denylist: map<string, int>, now: int, jti: string, redisUp: bool): Answer {
    if jti == "" then NotRevoked
    else if jti in local then Revoked
    else if !redisUp then Unavailable
    else if InDenylist(denylist, now, jti) then Revoked
    else NotRevoked
  }

  // ---- Several instances over one denylist -------------------------------------------------------------

  datatype Token = Token(jti: string, exp: Option<int>)
  /** `everRevoked` records every token id some revoke was called for. */
  datatype Cluster = Cluster(now: int, denylist: map<string, int>, local: map<nat, set<string>>,
                             everRevoked: set<string>)
  datatype Step =
    | Tick(ms: nat)
    | Revoke(i: nat, jti: string, ttlSeconds: int, redisUp: bool)
    | IsRevokedDistributed(i: nat, jti: string, redisUp: bool)
    | Restart(i: nat)
    | Prune(i: nat)

  const START: Cluster := Cluster(0, map[], map[], {})

  function LocalOf(c: Cluster, i: nat): set<string> {
    if i in c.local then c.local[i] else {}
  }

  /** Each step changes one instance's set and the denylist; the service's methods are proved to do the same. */
  function Next(c: Cluster, s: Step): Cluster {
    match s
    case Tick(ms) => c.(now := c.now + ms)
    case Revoke(i, jti, ttlSeconds, redisUp) =>
      if jti == "" then c
      else
        c.(local := c.local[i := LocalOf(c, i) + {jti}],
           denylist := if redisUp then c.denylist[jti := Deadline(c.now, ttlSeconds)] else c.denylist,
           everRevoked := c.everRevoked + {jti})
    case IsRevokedDistributed(i, jti, redisUp) =>
      var answer := Check(LocalOf(c, i), c.denylist, c.now, jti, redisUp);
      c.(local := c.local[i := LocalOf(c, i) + if answer == Revoked then {jti} else {}])
    case Restart(i) => c.(local := c.local[i := {}])
    case Prune(i) => c.(local := c.local[i := if |LocalOf(c, i)| > PRUNE_ABOVE then {} else LocalOf(c, i)])
  }

  function Run(c: Cluster, steps: seq<Step>): Cluster
    decreases |steps|
  {
    if steps == [] then c else Run(Next(c, steps[0]), steps[1..])
  }

  /** jwt.verify refuses a token once the clock's whole seconds reach exp. */
  predicate Expired(t: Token, now: int) {
    t.exp.Some? && now / 1000 >= t.exp.value
  }

  /** The authentication middleware lets a token through on an instance. */
  predicate Accepts(c: Cluster, i: nat, t: Token, redisUp: bool) {
    !Expired(t, c.now) && Check(LocalOf(c, i), c.denylist, c.now, t.jti, redisUp) == NotRevoked
  }

  /** The seconds logout asks for: what is left of the token, at least one; 900 when it carries no exp. */
  function LogoutTtl(t: Token, now: int): int {
    if t.exp.Some? then Max(1, t.exp.value - now / 1000) else DEFAULT_TTL
  }

  // ---- Logout is final -----------------------------------------------------------------------------------

  /** The denylist key outlives the token. */
  predicate Covered(c: Cluster, t: Token) {
    t.jti != "" && t.exp.Some? && t.jti in c.denylist && 1000 * t.exp.value <= c.denylist[t.jti]
  }

  /** A later revoke of the same id replaces the key's deadline; it must reach the token's exp as well. */
  predicate KeepsDeadline(c: Cluster, t: Token, s: Step) {
    s.Revoke? && s.redisUp && s.jti == t.jti && t.exp.Some? ==> 1000 * t.exp.value <= Deadline(c.now, s.ttlSeconds)
  }

  predicate AllKeepDeadline(c: Cluster, t: Token, steps: seq<Step>)
    decreases |steps|
  {
    steps == [] || (KeepsDeadline(c, t, steps[0]) && AllKeepDeadline(Next(c, steps[0]), t, steps[1..]))
  }

  lemma CoveredIsNotAccepted(c: Cluster, i: nat, t: Token, redisUp: bool)
    requires Covered(c, t)
    ensures !Accepts(c, i, t, redisUp)
  {
    assert !Expired(t, c.now) ==> c.now < 1000 * t.exp.value;
  }

  lemma {:induction false} CoveredForever(c: Cluster, t: Token, steps: seq<Step>)
    requires Covered(c, t) && AllKeepDeadline(c, t, steps)
    ensures Covered(Run(c, steps), t)
    decreases |steps|
  {
    if steps != [] {
      CoveredForever(Next(c, steps[0]), t, steps[1..]);
    }
  }

  ghost predicate NoRevoke(steps: seq<Step>) {
    forall k :: 0 <= k < |steps| ==> !steps[k].Revoke?
  }

  lemma {:induction false} NoRevokeKeepsDeadline(c: Cluster, t: Token, steps: seq<Step>)
    requires NoRevoke(steps)
    ensures AllKeepDeadline(c, t, steps)
    decreases |steps|
  {
    if steps != [] {
      assert forall k :: 0 <= k < |steps[1..]| ==> steps[1..][k] == steps[k + 1];
      NoRevokeKeepsDeadline(Next(c, steps[0]), t, steps[1..]);
    }
  }

  lemma {:induction false} TimeGoesOn(c: Cluster, steps: seq<Step>)
    ensures Run(c, steps).now >= c.now
    decreases |steps|
  {
    if steps != [] {
      TimeGoesOn(Next(c, steps[0]), steps[1..]);
    }
  }

  ghost predicate NeverAcceptedAgain(c: Cluster, t: Token) {
    forall steps, j, redisUp :: NoRevoke(steps) ==> !Accepts(Run(c, steps), j, t, redisUp)
  }

  /** A token that has time left after its key accepts again on an instance that has forgotten it. */
  lemma AcceptedLater(c: Cluster, t: Token, j: nat) returns (steps: seq<Step>)
    requires t.jti != "" && !Expired(t, c.now) && !Covered(c, t)
    ensures NoRevoke(steps) && Accepts(Run(c, steps), j, t, true)
  {
    var deadline := if t.jti in c.denylist then Max(c.now, c.denylist[t.jti]) else c.now;
    steps := [Restart(j), Tick(deadline - c.now)];
    assert steps[1..] == [Tick(deadline - c.now)] && steps[1..][1..] == [];
    var forgotten := Next(c, steps[0]);
    assert Run(c, steps) == Run(forgotten, steps[1..]) == Run(Next(forgotten, steps[1]), []);
    assert !Expired(t, deadline);
  }

  /**
   In every state, a token is refused for good, by every instance and whatever restarts, prunes and checks follow, if
   and only if it carries an exp that has passed or that its denylist key reaches.
   */
  lemma NeverAcceptedIff(c: Cluster, t: Token)
    requires t.jti != ""
    ensures NeverAcceptedAgain(c, t) <==> t.exp.Some? && (Expired(t, c.now) || Covered(c, t))
  {
    if t.exp.Some? && (Expired(t, c.now) || Covered(c, t)) {
      forall steps, j, redisUp | NoRevoke(steps) ensures !Accepts(Run(c, steps), j, t, redisUp) {
        TimeGoesOn(c, steps);
        if Covered(c, t) {
          NoRevokeKeepsDeadline(c, t, steps);
          CoveredForever(c, t, steps);
          CoveredIsNotAccepted(Run(c, steps), j, t, redisUp);
        }
      }
    } else {
      var steps := AcceptedLater(c, t, 0);
    }
  }

  /** A revocation with any TTL is final if and only if the token carries an exp and the key lives to it. */
  lemma RevocationIsFinalIff(c: Cluster, i: nat, t: Token, ttlSeconds: int)
    requires t.jti != ""
    ensures NeverAcceptedAgain(Next(c, Revoke(i, t.jti, ttlSeconds, true)), t) <==>
            t.exp.Some? && (1000 * t.exp.value <= Deadline(c.now, ttlSeconds))
  {
    NeverAcceptedIff(Next(c, Revoke(i, t.jti, ttlSeconds, true)), t);
  }

  /** A revoke of the id alone leaves a token refused for good if and only if at most 900 seconds are left of it. */
  lemma DefaultRevokeIsFinalIff(c: Cluster, i: nat, t: Token)
    requires t.jti != "" && t.exp.Some?
    ensures NeverAcceptedAgain(Next(c, Revoke(i, t.jti, DEFAULT_TTL, true)), t) <==>
            1000 * t.exp.value <= c.now + 1000 * DEFAULT_TTL
  {
    RevocationIsFinalIff(c, i, t, DEFAULT_TTL);
  }

  // ---- What logout does --------------------------------------------------------------------------------------

  /**
   What a logout is given: a token that verifies, one that does not, of which it reads the claims nevertheless, or an
   id. A password change revokes by id as well.
   */
  datatype Presented = Verified(token: Token) | Unverified(jti: string, claimed: Option<int>) | IdOnly(jti: string)

  /** The revoke that a logout makes, if it makes one. */
  function LogoutRevoke(i: nat, p: Presented, now: int, redisUp: bool): Option<Step> {
    match p
    case Verified(t) => if t.jti == "" then None else Some(Step.Revoke(i, t.jti, LogoutTtl(t, now), redisUp))
    case Unverified(jti, claimed) =>
      if jti == "" || claimed.None? || claimed.value - now / 1000 <= 0 then None
      else Some(Step.Revoke(i, jti, claimed.value - now / 1000, redisUp))
    case IdOnly(jti) => if jti == "" then None else Some(Step.Revoke(i, jti, DEFAULT_TTL, redisUp))
  }

  class AuthService {
    const revocation: TokenRevocationBloomService

    constructor (revocation: TokenRevocationBloomService)
      ensures this.revocation == revocation
    {
      this.revocation := revocation;
    }

    method Logout(p: Presented, redisUp: bool)
      requires revocation.Valid()
      modifies revocation, revocation.bloom, revocation.bloom.bitArray, revocation.redis`denylist
      ensures revocation.Valid()
      ensures forall c: Cluster, i: nat :: old(revocation.Shows(c, i)) ==>
              revocation.Shows(Act(c, Call.Logout(i, p, redisUp)), i)
      ensures redisUp && p.IdOnly? && p.jti != "" ==>
                revocation.redis.denylist == old(revocation.redis.denylist)[p.jti := revocation.redis.now + 900_000]
      ensures redisUp && p.Verified? && p.token.jti != "" && p.token.exp.None? ==>
                revocation.redis.denylist
                == old(revocation.redis.denylist)[p.token.jti := revocation.redis.now + 900_000]
      ensures redisUp && p.Verified? && p.token.jti != "" && p.token.exp.Some? ==>
                && p.token.jti in revocation.redis.denylist
                && revocation.redis.denylist
                   == old(revocation.redis.denylist)[p.token.jti := revocation.redis.denylist[p.token.jti]]
                && 1000 * p.token.exp.value <= revocation.redis.denylist[p.token.jti]
      ensures redisUp && p.Unverified? && p.jti != "" && p.claimed.Some?
              && 1000 * p.claimed.value >= revocation.redis.now + 1000 ==>
                && p.jti in revocation.redis.denylist
                && revocation.redis.denylist
                   == old(revocation.redis.denylist)[p.jti := revocation.redis.denylist[p.jti]]
                && 1000 * p.claimed.value <= revocation.redis.denylist[p.jti] < 1000 * p.claimed.value + 1000
      ensures p.Unverified? && (p.claimed.None? || 1000 * p.claimed.value <= revocation.redis.now) ==>
                && revocation.redis.denylist == old(revocation.redis.denylist)
                && revocation.authoritativeSet == old(revocation.authoritativeSet)
    {
      var now := revocation.redis.now;
      match p
      case Verified(t) =>
        if t.jti != "" {
          var ttlSeconds := DEFAULT_TTL;
          if t.exp.Some? {
            ttlSeconds := Max(1, t.exp.value - now / 1000);
          }
          revocation.Revoke(t.jti, ttlSeconds, redisUp);
        }
      case Unverified(jti, claimed) =>
        if jti != "" && claimed.Some? {
          var remaining := claimed.value - now / 1000;
          if remaining > 0 {
            revocation.Revoke(jti, remaining, redisUp);
          }
        }
      case IdOnly(jti) =>
        if jti != "" {
          revocation.Revoke(jti, DEFAULT_TTL, redisUp);
        }
    }
  }

  /** A logout, or any other step but a revoke: only logouts and password changes revoke. */
  datatype Call = Other(step: Step) | Logout(i: nat, presented: Presented, redisUp: bool)

  function Act(c: Cluster, call: Call): Cluster {
    match call
    case Other(step) => Next(c, step)
    case Logout(i, p, redisUp) =>
      match LogoutRevoke(i, p, c.now, redisUp)
      case None => c
      case Some(revoke) => Next(c, revoke)
  }

  function ActAll(c: Cluster, calls: seq<Call>): Cluster
    decreases |calls|
  {
    if calls == [] then c else ActAll(Act(c, calls[0]), calls[1..])
  }

  /** Token ids are random: a token that verifies and has the id is the token. */
  predicate CallOk(t: Token, call: Call) {
    match call
    case Other(step) => !step.Revoke?
    case Logout(_, Verified(u), _) => u.jti == t.jti ==> u == t
    case _ => true
  }

  ghost predicate CallsOk(t: Token, calls: seq<Call>) {
    forall k :: 0 <= k < |calls| ==> CallOk(t, calls[k])
  }

  /** The call writes the token's denylist key. */
  predicate WritesKey(c: Cluster, t: Token, call: Call) {
    call.Logout? && call.redisUp &&
    match LogoutRevoke(call.i, call.presented, c.now, true)
    case None => false
    case Some(revoke) => revoke.jti == t.jti
  }

  /** Whether such a write reaches the token's exp, by what the logout is given. */
  predicate ReachesExp(c: Cluster, t: Token, call: Call)
    requires t.exp.Some? && WritesKey(c, t, call)
  {
    match call.presented
    case Verified(_) => true
    case Unverified(_, claimed) => claimed.value >= t.exp.value
    case IdOnly(_) => 1000 * t.exp.value <= c.now + 1000 * DEFAULT_TTL
  }

  lemma WriteReachesIff(c: Cluster, t: Token, call: Call)
    requires t.jti != "" && t.exp.Some? && CallOk(t, call) && WritesKey(c, t, call)
    ensures Covered(Act(c, call), t) <==> ReachesExp(c, t, call)
  {
    assert c.now == 1000 * (c.now / 1000) + c.now % 1000;
  }

  /** Whether the last write of the key in a run reaches exp; `before` tells it of the key at the start. */
  predicate LastWriteReaches(c: Cluster, t: Token, calls: seq<Call>, before: bool)
    requires t.exp.Some?
    decreases |calls|
  {
    if calls == [] then before
    else
      var reaches := if WritesKey(c, t, calls[0]) then ReachesExp(c, t, calls[0]) else before;
      LastWriteReaches(Act(c, calls[0]), t, calls[1..], reaches)
  }

  lemma OtherCallsKeepCovered(c: Cluster, t: Token, call: Call)
    requires CallOk(t, call) && !WritesKey(c, t, call)
    ensures Covered(Act(c, call), t) <==> Covered(c, t)
  {
  }

  lemma {:induction false} LastWriteDecides(c: Cluster, t: Token, calls: seq<Call>)
    requires t.jti != "" && t.exp.Some? && CallsOk(t, calls)
    ensures Covered(ActAll(c, calls), t) <==> LastWriteReaches(c, t, calls, Covered(c, t))
    decreases |calls|
  {
    if calls != [] {
      assert CallOk(t, calls[0]);
      if WritesKey(c, t, calls[0]) {
        WriteReachesIff(c, t, calls[0]);
      } else {
        OtherCallsKeepCovered(c, t, calls[0]);
      }
      assert forall k :: 0 <= k < |calls[1..]| ==> calls[1..][k] == calls[k + 1];
      LastWriteDecides(Act(c, calls[0]), t, calls[1..]);
    }
  }

  lemma LogoutCovers(c: Cluster, i: nat, t: Token)
    requires t.jti != "" && t.exp.Some?
    ensures Covered(Act(c, Logout(i, Verified(t), true)), t)
  {
    WriteReachesIff(c, t, Logout(i, Verified(t), true));
  }

  /**
   After a logout with a token that verifies and carries an exp has reached Redis, and after any later logouts, password
   changes, restarts, prunes and checks, the token is refused for good if and only if it has expired or the last write
   of its denylist key reaches its exp. A logout with the token itself always does, one by id when at most 900 seconds
   are left, and one with a token that does not verify when it claims an exp no earlier than the token's.
   */
  lemma LogoutStaysFinalIff(c: Cluster, i: nat, t: Token, calls: seq<Call>)
    requires t.jti != "" && t.exp.Some? && CallsOk(t, calls)
    ensures var after := Act(c, Logout(i, Verified(t), true));
            var last := ActAll(after, calls);
            NeverAcceptedAgain(last, t) <==> Expired(t, last.now) || LastWriteReaches(after, t, calls, true)
  {
    var after := Act(c, Logout(i, Verified(t), true));
    LogoutCovers(c, i, t);
    LastWriteDecides(after, t, calls);
    NeverAcceptedIff(ActAll(after, calls), t);
  }

  /** Every write of the key in a run reaches exp. */
  predicate EveryWriteReaches(c: Cluster, t: Token, calls: seq<Call>)
    requires t.exp.Some?
    decreases |calls|
  {
    calls == [] ||
    ((WritesKey(c, t, calls[0]) ==> ReachesExp(c, t, calls[0])) && EveryWriteReaches(Act(c, calls[0]), t, calls[1..]))
  }

  lemma {:induction false} EveryWriteKeepsCovered(c: Cluster, t: Token, calls: seq<Call>)
    requires t.jti != "" && t.exp.Some? && CallsOk(t, calls) && Covered(c, t) && EveryWriteReaches(c, t, calls)
    ensures Covered(ActAll(c, calls), t)
    decreases |calls|
  {
    if calls != [] {
      assert CallOk(t, calls[0]);
      if WritesKey(c, t, calls[0]) {
        WriteReachesIff(c, t, calls[0]);
      } else {
        OtherCallsKeepCovered(c, t, calls[0]);
      }
      assert forall k :: 0 <= k < |calls[1..]| ==> calls[1..][k] == calls[k + 1];
      EveryWriteKeepsCovered(Act(c, calls[0]), t, calls[1..]);
    }
  }

  /** As long as every later write of the key reaches exp, no instance accepts the token at any moment. */
  lemma LogoutIsFinal(c: Cluster, i: nat, t: Token, calls: seq<Call>, j: nat, redisUp: bool)
    requires t.jti != "" && t.exp.Some? && CallsOk(t, calls)
    requires EveryWriteReaches(Act(c, Logout(i, Verified(t), true)), t, calls)
    ensures !Accepts(ActAll(Act(c, Logout(i, Verified(t), true)), calls), j, t, redisUp)
  {
    var after := Act(c, Logout(i, Verified(t), true));
    LogoutCovers(c, i, t);
    EveryWriteKeepsCovered(after, t, calls);
    CoveredIsNotAccepted(ActAll(after, calls), j, t, redisUp);
  }

  /**
   A later logout with a token that does not verify but claims the same id and an earlier exp, still to come, ends the
   key early: in the run found here an instance that has forgotten the id accepts the token.
   */
  lemma EarlierClaimEndsFinality(c: Cluster, i: nat, t: Token, claimed: int, j: nat) returns (steps: seq<Step>)
    requires t.jti != "" && t.exp.Some? && c.now / 1000 < claimed < t.exp.value
    ensures var last := Act(Act(c, Logout(i, Verified(t), true)), Logout(i, Unverified(t.jti, Some(claimed)), true));
            NoRevoke(steps) && Accepts(Run(last, steps), j, t, true)
  {
    var after := Act(c, Logout(i, Verified(t), true));
    var call := Logout(i, Unverified(t.jti, Some(claimed)), true);
    WriteReachesIff(after, t, call);
    steps := AcceptedLater(Act(after, call), t, j);
  }

  // ---- What a logout denies --------------------------------------------------------------------------------

  /** Until its key goes away, no instance accepts a token with the id, whatever its other claims are. */
  lemma {:induction false} DeniedUntil(c: Cluster, jti: string, deadline: int, steps: seq<Step>, j: nat, t: Token,
                                       redisUp: bool)
    requires jti != "" && t.jti == jti && jti in c.denylist && c.denylist[jti] == deadline && NoRevoke(steps)
    ensures Run(c, steps).now < deadline ==> !Accepts(Run(c, steps), j, t, redisUp)
    decreases |steps|
  {
    if steps != [] {
      assert forall k :: 0 <= k < |steps[1..]| ==> steps[1..][k] == steps[k + 1];
      DeniedUntil(Next(c, steps[0]), jti, deadline, steps[1..], j, t, redisUp);
    }
  }

  /** A logout by id alone, or a password change: the key lives for 900 seconds, and denies the id to all instances. */
  lemma IdLogoutDenies(c: Cluster, i: nat, jti: string, steps: seq<Step>, j: nat, t: Token, redisUp: bool)
    requires jti != "" && t.jti == jti && NoRevoke(steps)
    ensures var after := Act(c, Logout(i, IdOnly(jti), true));
            && after.denylist == c.denylist[jti := c.now + 900_000]
            && after.local == c.local[i := LocalOf(c, i) + {jti}]
            && (Run(after, steps).now < c.now + 900_000 ==> !Accepts(Run(after, steps), j, t, redisUp))
  {
    DeniedUntil(Act(c, Logout(i, IdOnly(jti), true)), jti, c.now + 900_000, steps, j, t, redisUp);
  }

  /**
   A logout with a token that does not verify, but claims an exp at least a second ahead: the key lives to that exp.
   */
  lemma ClaimLogoutDenies(c: Cluster, i: nat, jti: string, claimed: int, steps: seq<Step>, j: nat, t: Token,
                          redisUp: bool)
    requires jti != "" && t.jti == jti && 1000 * claimed >= c.now + 1000 && NoRevoke(steps)
    ensures var after := Act(c, Logout(i, Unverified(jti, Some(claimed)), true));
            && jti in after.denylist && after.denylist == c.denylist[jti := after.denylist[jti]]
            && 1000 * claimed <= after.denylist[jti] < 1000 * claimed + 1000
            && (Run(after, steps).now < 1000 * claimed ==> !Accepts(Run(after, steps), j, t, redisUp))
  {
    var after := Act(c, Logout(i, Unverified(jti, Some(claimed)), true));
    assert c.now == 1000 * (c.now / 1000) + c.now % 1000;
    DeniedUntil(after, jti, after.denylist[jti], steps, j, t, redisUp);
  }

  /** A logout with a token that verifies: the key lives at least to its exp, or for 900 seconds when it has none. */
  lemma TokenLogoutDenies(c: Cluster, i: nat, u: Token, steps: seq<Step>, j: nat, t: Token, redisUp: bool)
    requires u.jti != "" && t.jti == u.jti && NoRevoke(steps)
    ensures var after := Act(c, Logout(i, Verified(u), true));
            var until := if u.exp.Some? then 1000 * u.exp.value else c.now + 900_000;
            && u.jti in after.denylist && after.denylist == c.denylist[u.jti := after.denylist[u.jti]]
            && until <= after.denylist[u.jti]
            && (1000 + c.now <= until ==> after.denylist[u.jti] < until + 1000)
            && (Run(after, steps).now < until ==> !Accepts(Run(after, steps), j, t, redisUp))
  {
    var after := Act(c, Logout(i, Verified(u), true));
    assert c.now == 1000 * (c.now / 1000) + c.now % 1000;
    DeniedUntil(after, u.jti, after.denylist[u.jti], steps, j, t, redisUp);
  }

  /** When an instance accepts: the token has not expired, and its id is in no set or key that the instance can see. */
  lemma AcceptsIff(c: Cluster, i: nat, t: Token, redisUp: bool)
    ensures Accepts(c, i, t, redisUp) <==>
            && (t.exp.Some? ==> c.now < 1000 * t.exp.value)
            && (t.jti != "" ==>
                  && redisUp && (i in c.local ==> t.jti !in c.local[i])
                  && (t.jti in c.denylist ==> c.denylist[t.jti] <= c.now))
  {
  }

  // ---- No revocation out of nothing -----------------------------------------------------------------------

  ghost predicate OnlyRevoked(c: Cluster) {
    c.denylist.Keys <= c.everRevoked && forall i :: LocalOf(c, i) <= c.everRevoked
  }

  lemma NextKeepsOnlyRevoked(c: Cluster, s: Step)
    requires OnlyRevoked(c)
    ensures OnlyRevoked(Next(c, s))
  {
    var c' := Next(c, s);
    forall i ensures LocalOf(c', i) <= c'.everRevoked {
      assert LocalOf(c, i) <= c.everRevoked;
      match s
      case Tick(_) =>
      case Revoke(j, jti, _, _) => assert LocalOf(c', i) <= LocalOf(c, i) + if jti == "" then {} else {jti};
      case IsRevokedDistributed(j, jti, redisUp) =>
        assert Check(LocalOf(c, j), c.denylist, c.now, jti, redisUp) == Revoked ==>
               jti in LocalOf(c, j) || jti in c.denylist.Keys;
        assert LocalOf(c, j) <= c.everRevoked;
      case Restart(_) =>
      case Prune(_) =>
    }
  }

  lemma {:induction false} RunKeepsOnlyRevoked(c: Cluster, steps: seq<Step>)
    requires OnlyRevoked(c)
    ensures OnlyRevoked(Run(c, steps))
    decreases |steps|
  {
    if steps != [] {
      NextKeepsOnlyRevoked(c, steps[0]);
      RunKeepsOnlyRevoked(Next(c, steps[0]), steps[1..]);
    }
  }

  /** In every run a check answers "revoked" only for an id that some revoke was called for. */
  lemma OnlyRevokedTokensAreRefused(steps: seq<Step>, i: nat, jti: string, redisUp: bool)
    ensures var c := Run(START, steps);
            Check(LocalOf(c, i), c.denylist, c.now, jti, redisUp) == Revoked ==> jti in c.everRevoked
  {
    RunKeepsOnlyRevoked(START, steps);
    var c := Run(START, steps);
    assert LocalOf(c, i) <= c.everRevoked;
  }

  // ---- The entity guard -------------------------------------------------------------------------------------

  class EntityCacheBloomService {
    const bloom: BloomFilter
    ghost var registered: set<(string, string)>

    constructor (size: nat, hashCount: nat, sha256: string -> Word, md5: string -> Word)
      requires size >= 1024 && 1 <= hashCount <= 16
      ensures Valid() && fresh(bloom) && fresh(bloom.bitArray) && registered == {}
    {
      bloom := new BloomFilter(size, hashCount, sha256, md5);
      registered := {};
    }

    ghost predicate Valid()
      reads this, bloom, bloom.bitArray
    {
      bloom.Valid() && forall e :: e in registered ==> e.1 != "" && e.0 + ":" + e.1 in bloom.added
    }

    method Register(entityType: string, entityId: string)
      requires Valid()
      modifies this, bloom, bloom.bitArray
      ensures Valid() && registered == old(registered) + if entityId == "" then {} else {(entityType, entityId)}
    {
      if entityId == "" {
        return;
      }
      bloom.Add(entityType + ":" + entityId);
      registered := registered + {(entityType, entityId)};
    }

    /** Claims exactly of entities with an index that no registered one has set that they do not exist. */
    method DefinitelyDoesNotExist(entityType: string, entityId: string) returns (absent: bool)
      requires Valid()
      ensures absent ==> (entityType, entityId) !in registered
      ensures absent <==>
              entityId == ""
              || exists index :: index in bloom.IndexSet(entityType + ":" + entityId)
                                 && index !in BitsOf(bloom.bitArray[..])
    {
      if entityId == "" {
        return true;
      }
      var possibly := bloom.Has(entityType + ":" + entityId);
      return !possibly;
    }
  }
}
