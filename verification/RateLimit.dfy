/**
 The fixed-window rate limiter for one key. INCR, TTL and EXPIRE are separate steps, so requests may interleave
 between any two of them and may stop for good at any point. Times are milliseconds, windows seconds.
 */
module RateLimit {
  import opened Common

  /** The Redis key; an entry whose time has come counts as absent. */
  datatype Entry = Absent | Present(count: nat, expireAt: Option<int>)

  function Live(e: Entry, now: int): Entry {
    if e.Present? && e.expireAt.Some? && e.expireAt.value <= now then Absent else e
  }

  function AfterIncr(e: Entry, now: int): Entry {
    match Live(e, now)
    case Absent => Present(1, None)
    case Present(count, expireAt) => Present(count + 1, expireAt)
  }

  /** -2 without a key, -1 without an expiry, else the remaining time in rounded seconds. */
  function TtlOf(e: Entry, now: int): int {
    match Live(e, now)
    case Absent => -2
    case Present(_, None) => -1
    case Present(_, Some(t)) => (t - now + 500) / 1000
  }

  function AfterExpire(e: Entry, now: int, windowSeconds: nat): Entry {
    match Live(e, now)
    case Absent => Absent
    case Present(count, _) => Present(count, Some(now + 1000 * windowSeconds))
  }

  // ---- One request on its own ---------------------------------------------------------------------------

  datatype Reply = Next(remaining: nat, reset: int) | TooManyRequests(retryAfter: int) | Bypassed

  class RedisKey {
    var now: int
    var entry: Entry

    constructor ()
      ensures entry == Absent
    {
      now, entry := 0, Absent;
    }

    method Incr() returns (count: nat)
      modifies this`entry
      ensures entry == AfterIncr(old(entry), now) && entry.Present? && count == entry.count
    {
      var live := Live(entry, now);
      if live == Absent {
        entry := Present(1, None);
      } else {
        entry := Present(live.count + 1, live.expireAt);
      }
      count := entry.count;
    }

    method Expire(windowSeconds: nat)
      modifies this`entry
      ensures entry == AfterExpire(old(entry), now, windowSeconds)
    {
      var live := Live(entry, now);
      entry := if live == Absent then Absent else Present(live.count, Some(now + 1000 * windowSeconds));
    }

    /** The middleware without interleaving: counts the request, answers by the count and leaves an expiry behind. */
    method Handle(windowSeconds: nat, maxRequests: nat, redisUp: bool) returns (reply: Reply)
      requires windowSeconds > 0
      modifies this`entry
      ensures reply == Bypassed <==> !redisUp
      ensures !redisUp ==> entry == old(entry)
      ensures redisUp ==>
                var live := old(entry).Present? && (old(entry).expireAt.Some? ==> now < old(entry).expireAt.value);
                var count := if live then old(entry).count + 1 else 1;
                var left := if live && old(entry).expireAt.Some? then (old(entry).expireAt.value - now + 500) / 1000
                            else 0;
                var reset := if left > 0 then left else windowSeconds;
                && entry == Present(count, if live && old(entry).expireAt.Some? then old(entry).expireAt
                                           else Some(now + 1000 * windowSeconds))
                && entry.expireAt.value > now
                && reply == if count <= maxRequests then Next(maxRequests - count, reset) else TooManyRequests(reset)
    {
      if !redisUp {
        return Bypassed;
      }
      var currentCount := Incr();
      var currentTtl := TtlOf(entry, now);
      if currentTtl == -1 {
        Expire(windowSeconds);
      }
      var remaining := if currentCount <= maxRequests then maxRequests - currentCount else 0;
      var resetSeconds: int := if currentTtl > 0 then currentTtl else windowSeconds;
      if currentCount > maxRequests {
        return TooManyRequests(resetSeconds);
      }
      return Next(remaining, resetSeconds);
    }
  }

  // ---- Interleaved requests -------------------------------------------------------------------------------

  /** How far a request has come, and when it was answered. A request without further steps is one that crashed. */
  datatype Phase = Counted | SawTtl(ttl: int) | Windowed | Allowed(at: int) | Rejected(at: int)
  /** A request's own INCR: in which lifetime of the key, as which count, and when. */
  datatype Request = Request(life: nat, count: nat, time: int, phase: Phase)
  /** A lifetime of the key: its first INCR and how many it has seen. */
  datatype Life = Life(start: int, count: nat)
  datatype State = State(now: int, entry: Entry, lives: seq<Life>, requests: map<nat, Request>)
  datatype Step = Tick(ms: nat) | Incr(r: nat) | Ttl(r: nat) | Expire(r: nat) | Decide(r: nat)

  const START: State := State(0, Absent, [], map[])

  function Take(windowSeconds: nat, maxRequests: nat, s: State, step: Step): State {
    match step
    case Tick(ms) => s.(now := s.now + ms)
    case Incr(r) =>
      if r in s.requests then s
      else
        var entry := AfterIncr(s.entry, s.now);
        var lives := if entry.count == 1 || s.lives == [] then s.lives + [Life(s.now, 1)]
                     else s.lives[|s.lives| - 1 := Life(s.lives[|s.lives| - 1].start, entry.count)];
        State(s.now, entry, lives, s.requests[r := Request(|lives| - 1, entry.count, s.now, Counted)])
    case Ttl(r) =>
      if r !in s.requests || s.requests[r].phase != Counted then s
      else s.(requests := s.requests[r := s.requests[r].(phase := SawTtl(TtlOf(s.entry, s.now)))])
    case Expire(r) =>
      if r !in s.requests || s.requests[r].phase != SawTtl(-1) then s
      else s.(entry := AfterExpire(s.entry, s.now, windowSeconds),
              requests := s.requests[r := s.requests[r].(phase := Windowed)])
    case Decide(r) =>
      if r !in s.requests then s
      else
        var q := s.requests[r];
        if q.phase == Windowed || (q.phase.SawTtl? && q.phase.ttl != -1) then
          s.(requests :=
             s.requests[r := q.(phase := if q.count > maxRequests then Rejected(s.now) else Allowed(s.now))])
        else s
  }

  function Run(windowSeconds: nat, maxRequests: nat, steps: seq<Step>): State {
    if steps == [] then START
    else Take(windowSeconds, maxRequests, Run(windowSeconds, maxRequests, steps[..|steps| - 1]), steps[|steps| - 1])
  }

  /** A request whose steps follow one another does what the middleware does alone. */
  lemma WholeRequest(windowSeconds: nat, maxRequests: nat, s: State, r: nat)
    requires r !in s.requests
    ensures var counted := Take(windowSeconds, maxRequests, Take(windowSeconds, maxRequests, s, Incr(r)), Ttl(r));
            var s' := Take(windowSeconds, maxRequests, Take(windowSeconds, maxRequests, counted, Expire(r)), Decide(r));
            var live := s.entry.Present? && (s.entry.expireAt.Some? ==> s.now < s.entry.expireAt.value);
            var count := if live then s.entry.count + 1 else 1;
            && s'.entry == Present(count, if live && s.entry.expireAt.Some? then s.entry.expireAt
                                          else Some(s.now + 1000 * windowSeconds))
            && s'.now == s.now && r in s'.requests && s'.requests[r].count == count && s'.requests[r].time == s.now
            && s'.requests[r].phase == (if count <= maxRequests then Allowed(s.now) else Rejected(s.now))
            && forall q :: q in s.requests ==> q in s'.requests && s'.requests[q] == s.requests[q]
  {
  }

  // ---- What every run keeps -------------------------------------------------------------------------------

  /** Lifetimes start at least a window apart, and the key lives at least a window from its first INCR. */
  ghost predicate LivesApart(windowSeconds: nat, s: State) {
    && (forall k :: 0 <= k < |s.lives| - 1 ==> s.lives[k].start + 1000 * windowSeconds <= s.lives[k + 1].start)
    && (forall k :: 0 <= k < |s.lives| ==> s.lives[k].start <= s.now && s.lives[k].count > 0)
    && (s.entry == Absent && s.lives != [] ==> s.lives[|s.lives| - 1].start + 1000 * windowSeconds <= s.now)
    && (s.entry.Present? ==>
          && s.lives != [] && s.entry.count == s.lives[|s.lives| - 1].count
          && (s.entry.expireAt.Some? ==>
                s.lives[|s.lives| - 1].start + 1000 * windowSeconds <= s.entry.expireAt.value
                && s.entry.expireAt.value <= s.now + 1000 * windowSeconds))
  }

  ghost predicate RequestOk(s: State, q: Request) {
    && q.life < |s.lives| && 1 <= q.count <= s.lives[q.life].count
    && s.lives[q.life].start <= q.time <= s.now
    && (q.life + 1 < |s.lives| ==> q.time <= s.lives[q.life + 1].start)
  }

  /** Within a lifetime the counts of the requests are exactly 1, 2, ..., each once. */
  ghost predicate CountsAreUnique(s: State) {
    && (forall r :: r in s.requests ==> RequestOk(s, s.requests[r]))
    && (forall r, q :: r in s.requests && q in s.requests && r != q ==>
          s.requests[r].life != s.requests[q].life || s.requests[r].count != s.requests[q].count)
  }

  ghost predicate HasRequest(s: State, life: nat, count: nat) {
    exists r :: r in s.requests && s.requests[r].life == life && s.requests[r].count == count
  }

  ghost predicate CountsAreTaken(s: State) {
    forall l: nat, c: nat :: l < |s.lives| && 1 <= c <= s.lives[l].count ==> HasRequest(s, l, c)
  }

  /** Answers follow the counts, and a request of the current lifetime that got past EXPIRE left an expiry behind. */
  ghost predicate AnswersOk(maxRequests: nat, s: State) {
    forall r :: r in s.requests ==>
      var q := s.requests[r];
      && (q.phase.Allowed? ==> q.count <= maxRequests)
      && (q.phase.Rejected? ==> q.count > maxRequests)
      && (q.phase != Counted && q.phase != SawTtl(-1) && q.life == |s.lives| - 1 && s.entry.Present? ==>
          s.entry.expireAt.Some?)
  }

  ghost predicate Inv(windowSeconds: nat, maxRequests: nat, s: State) {
    LivesApart(windowSeconds, s) && CountsAreUnique(s) && CountsAreTaken(s) && AnswersOk(maxRequests, s)
  }

  lemma IncrKeepsLives(w: nat, max: nat, s: State, r: nat)
    requires w > 0 && LivesApart(w, s) && r !in s.requests
    ensures LivesApart(w, Take(w, max, s, Incr(r)))
  {
  }

  lemma IncrKeepsRequest(w: nat, max: nat, s: State, r: nat, q: Request)
    requires w > 0 && LivesApart(w, s) && RequestOk(s, q) && r !in s.requests
    ensures var s' := Take(w, max, s, Incr(r));
            RequestOk(s', q) && (q.life != s'.requests[r].life || q.count != s'.requests[r].count)
  {
  }

  lemma IncrKeepsUnique(w: nat, max: nat, s: State, r: nat)
    requires w > 0 && LivesApart(w, s) && CountsAreUnique(s) && r !in s.requests
    ensures CountsAreUnique(Take(w, max, s, Incr(r)))
  {
    var s' := Take(w, max, s, Incr(r));
    assert RequestOk(s', s'.requests[r]);
    forall q | q in s.requests
      ensures s'.requests[q] == s.requests[q] && RequestOk(s', s'.requests[q])
      ensures s.requests[q].life != s'.requests[r].life || s.requests[q].count != s'.requests[r].count
    {
      IncrKeepsRequest(w, max, s, r, s.requests[q]);
    }
  }

  lemma IncrKeepsTaken(w: nat, max: nat, s: State, r: nat)
    requires w > 0 && LivesApart(w, s) && CountsAreTaken(s) && r !in s.requests
    ensures CountsAreTaken(Take(w, max, s, Incr(r)))
  {
    var s' := Take(w, max, s, Incr(r));
    forall l: nat, c: nat | l < |s'.lives| && 1 <= c <= s'.lives[l].count ensures HasRequest(s', l, c) {
      if l == |s'.lives| - 1 && c == s'.entry.count {
        assert r in s'.requests && s'.requests[r].life == l && s'.requests[r].count == c;
      } else {
        assert HasRequest(s, l, c);
        var q :| q in s.requests && s.requests[q].life == l && s.requests[q].count == c;
        assert q in s'.requests && s'.requests[q] == s.requests[q];
      }
    }
  }

  lemma IncrKeepsAnswers(w: nat, max: nat, s: State, r: nat)
    requires w > 0 && LivesApart(w, s) && CountsAreUnique(s) && AnswersOk(max, s) && r !in s.requests
    ensures AnswersOk(max, Take(w, max, s, Incr(r)))
  {
    var s' := Take(w, max, s, Incr(r));
    forall q | q in s.requests ensures s'.requests[q] == s.requests[q] && s.requests[q].life < |s.lives| {
      assert RequestOk(s, s.requests[q]);
    }
  }

  lemma OtherStepsKeepLives(w: nat, max: nat, s: State, step: Step)
    requires w > 0 && LivesApart(w, s) && !step.Incr?
    ensures LivesApart(w, Take(w, max, s, step))
  {
  }

  /** Steps other than INCR leave every request's lifetime, count and time as they are. */
  lemma OtherStepsKeepRequests(w: nat, max: nat, s: State, step: Step)
    requires !step.Incr?
    ensures var s' := Take(w, max, s, step);
            && s'.lives == s.lives && s'.requests.Keys == s.requests.Keys && s.now <= s'.now
            && forall q :: q in s.requests ==> s'.requests[q].(phase := s.requests[q].phase) == s.requests[q]
  {
  }

  lemma OtherStepsKeepCounts(w: nat, max: nat, s: State, step: Step)
    requires CountsAreUnique(s) && CountsAreTaken(s) && !step.Incr?
    ensures CountsAreUnique(Take(w, max, s, step)) && CountsAreTaken(Take(w, max, s, step))
  {
    var s' := Take(w, max, s, step);
    OtherStepsKeepRequests(w, max, s, step);
    forall q | q in s'.requests ensures RequestOk(s', s'.requests[q]) {
      assert RequestOk(s, s.requests[q]);
    }
    forall l: nat, c: nat | l < |s'.lives| && 1 <= c <= s'.lives[l].count ensures HasRequest(s', l, c) {
      assert HasRequest(s, l, c);
      var q :| q in s.requests && s.requests[q].life == l && s.requests[q].count == c;
      assert q in s'.requests && s'.requests[q].life == l && s'.requests[q].count == c;
    }
  }

  lemma OtherStepsKeepAnswers(w: nat, max: nat, s: State, step: Step)
    requires w > 0 && LivesApart(w, s) && CountsAreUnique(s) && AnswersOk(max, s) && !step.Incr?
    ensures AnswersOk(max, Take(w, max, s, step))
  {
    if step.Ttl? && step.r in s.requests {
      assert RequestOk(s, s.requests[step.r]);
    }
  }

  lemma {:induction false} EveryRunKeepsInv(w: nat, max: nat, steps: seq<Step>)
    requires w > 0
    ensures Inv(w, max, Run(w, max, steps))
  {
    if steps != [] {
      var before, step := Run(w, max, steps[..|steps| - 1]), steps[|steps| - 1];
      EveryRunKeepsInv(w, max, steps[..|steps| - 1]);
      if step.Incr? && step.r !in before.requests {
        IncrKeepsLives(w, max, before, step.r);
        IncrKeepsUnique(w, max, before, step.r);
        IncrKeepsTaken(w, max, before, step.r);
        IncrKeepsAnswers(w, max, before, step.r);
      } else if !step.Incr? {
        OtherStepsKeepLives(w, max, before, step);
        OtherStepsKeepCounts(w, max, before, step);
        OtherStepsKeepAnswers(w, max, before, step);
      }
    }
  }

  // ---- Bounds -------------------------------------------------------------------------------------------------

  /** Distinct members of a set mapped to distinct members of another: the first set is no larger. */
  lemma {:induction false} InjectionBound<T(!new)>(a: set<nat>, f: map<nat, T>, b: set<T>)
    requires a <= f.Keys
    requires forall x :: x in a ==> f[x] in b
    requires forall x, y :: x in a && y in a && x != y ==> f[x] != f[y]
    ensures |a| <= |b|
  {
    if a != {} {
      var x :| x in a;
      InjectionBound(a - {x}, f, b - {f[x]});
    }
  }

  /** The slots 1..max of one lifetime. */
  ghost function Slots(life: nat, max: nat): (slots: set<(nat, nat)>)
    ensures |slots| == max
    ensures forall l, c :: (l, c) in slots <==> l == life && 1 <= c <= max
  {
    if max == 0 then {}
    else
      var rest := Slots(life, max - 1);
      assert (life, max) !in rest;
      rest + {(life, max)}
  }

  ghost function SlotOf(s: State): map<nat, (nat, nat)> {
    map r | r in s.requests :: (s.requests[r].life, s.requests[r].count)
  }

  ghost function AllowedIn(s: State, life: nat): (a: set<nat>)
    ensures forall r :: r in a <==> r in s.requests && s.requests[r].phase.Allowed? && s.requests[r].life == life
  {
    set r | r in s.requests && s.requests[r].phase.Allowed? && s.requests[r].life == life
  }

  /** The requests let through that were counted at a time in [from, to). */
  ghost function AllowedCounted(s: State, from: int, to: int): (a: set<nat>)
    ensures forall r :: r in a <==> r in s.requests && s.requests[r].phase.Allowed? && from <= s.requests[r].time < to
  {
    set r | r in s.requests && s.requests[r].phase.Allowed? && from <= s.requests[r].time < to
  }

  /** The requests that were let through at a time in [from, to). */
  ghost function LetThrough(s: State, from: int, to: int): (a: set<nat>)
    ensures forall r :: r in a <==>
            r in s.requests && s.requests[r].phase.Allowed? && from <= s.requests[r].phase.at < to
  {
    set r | r in s.requests && s.requests[r].phase.Allowed? && from <= s.requests[r].phase.at < to
  }

  /** In every interleaving at most maxRequests requests of one key lifetime are let through. */
  lemma AtMostMaxPerLifetime(w: nat, max: nat, steps: seq<Step>, life: nat)
    requires w > 0
    ensures |AllowedIn(Run(w, max, steps), life)| <= max
  {
    var s := Run(w, max, steps);
    EveryRunKeepsInv(w, max, steps);
    forall r | r in AllowedIn(s, life) ensures SlotOf(s)[r] in Slots(life, max) {
      assert RequestOk(s, s.requests[r]);
    }
    InjectionBound(AllowedIn(s, life), SlotOf(s), Slots(life, max));
  }

  lemma {:induction false} StartsSpread(window: nat, w: nat, s: State, k: nat, m: nat)
    requires LivesApart(w, s) && k <= m < |s.lives| && window == 1000 * w
    ensures s.lives[k].start + (m - k) * window <= s.lives[m].start
  {
    if k < m {
      StartsSpread(window, w, s, k, m - 1);
      assert s.lives[m - 1].start + 1000 * w <= s.lives[m - 1 + 1].start;
      assert (m - k) * window == (m - 1 - k) * window + window;
    }
  }

  /**
   Requests counted within a window and d milliseconds belong to at most 2 + ceil(d / window) consecutive lifetimes.
   */
  lemma IntervalMeetsLives(w: nat, s: State, q: Request, p: Request, from: int, d: nat)
    requires w > 0 && LivesApart(w, s) && RequestOk(s, q) && RequestOk(s, p)
    requires from <= q.time < from + 1000 * w + d && from <= p.time < from + 1000 * w + d
    requires q.life <= p.life
    ensures p.life <= q.life + 1 + CeilDiv(d, 1000 * w)
  {
    if q.life + 1 <= p.life {
      var window := 1000 * w;
      StartsSpread(window, w, s, q.life + 1, p.life);
      FewSteps(p.life - (q.life + 1), window, d);
    }
  }

  lemma FewSteps(k: nat, window: nat, d: nat)
    requires window > 0 && k * window < window + d
    ensures k <= CeilDiv(d, window)
  {
    var n := d + window - 1;
    assert n == CeilDiv(d, window) * window + n % window;
    ProductMonotone(CeilDiv(d, window) + 1, k, window);
  }

  ghost function FirstLife(s: State, a: set<nat>): (life: nat)
    requires a != {} && a <= s.requests.Keys
    ensures exists r :: r in a && s.requests[r].life == life
    ensures forall r :: r in a ==> life <= s.requests[r].life
  {
    var r :| r in a;
    if a == {r} then s.requests[r].life
    else
      assert a == (a - {r}) + {r};
      var rest := FirstLife(s, a - {r});
      if s.requests[r].life < rest then s.requests[r].life else rest
  }

  /** The slots 1..max of n lifetimes from one on. */
  ghost function SlotsFrom(life: nat, n: nat, max: nat): (slots: set<(nat, nat)>)
    ensures |slots| <= n * max
    ensures forall l, c :: (l, c) in slots <==> life <= l < life + n && 1 <= c <= max
  {
    if n == 0 then {}
    else
      var rest := SlotsFrom(life, n - 1, max);
      var last := Slots(life + n - 1, max);
      UnionBound(rest, last);
      assert n * max == (n - 1) * max + max;
      rest + last
  }

  lemma UnionBound<T>(a: set<T>, b: set<T>)
    ensures |a + b| <= |a| + |b|
  {
    assert |a + b| == |a| + |b| - |a * b|;
  }

  lemma CountedSlots(w: nat, max: nat, s: State, from: int, d: nat, a: set<nat>, life: nat, n: nat)
    requires w > 0 && LivesApart(w, s) && CountsAreUnique(s) && AnswersOk(max, s)
    requires a == AllowedCounted(s, from, from + 1000 * w + d) && n == 2 + CeilDiv(d, 1000 * w)
    requires exists r :: r in a && s.requests[r].life == life
    requires forall r :: r in a ==> life <= s.requests[r].life
    ensures forall r :: r in a ==> SlotOf(s)[r] in SlotsFrom(life, n, max)
  {
    var first :| first in a && s.requests[first].life == life;
    forall r | r in a ensures SlotOf(s)[r] in SlotsFrom(life, n, max) {
      assert RequestOk(s, s.requests[r]) && RequestOk(s, s.requests[first]);
      IntervalMeetsLives(w, s, s.requests[first], s.requests[r], from, d);
    }
  }

  lemma CountedBoundIn(w: nat, max: nat, s: State, from: int, d: nat, n: nat)
    requires w > 0 && Inv(w, max, s) && n == 2 + CeilDiv(d, 1000 * w)
    ensures |AllowedCounted(s, from, from + 1000 * w + d)| <= n * max
  {
    var a := AllowedCounted(s, from, from + 1000 * w + d);
    if a != {} {
      var life := FirstLife(s, a);
      CountedSlots(w, max, s, from, d, a, life, n);
      InjectionBound(a, SlotOf(s), SlotsFrom(life, n, max));
    }
  }

  /**
   In every interleaving at most (2 + ceil(d / window)) * maxRequests of the requests counted in an interval of a window
   and d milliseconds are ever let through.
   */
  lemma CountedBound(w: nat, max: nat, steps: seq<Step>, from: int, d: nat)
    requires w > 0
    ensures |AllowedCounted(Run(w, max, steps), from, from + 1000 * w + d)| <= (2 + CeilDiv(d, 1000 * w)) * max
  {
    EveryRunKeepsInv(w, max, steps);
    CountedBoundIn(w, max, Run(w, max, steps), from, d, 2 + CeilDiv(d, 1000 * w));
  }

  /** Of the requests counted in any interval of a window's length at most 2 * maxRequests are ever let through. */
  lemma BurstBound(w: nat, max: nat, steps: seq<Step>, from: int)
    requires w > 0
    ensures |AllowedCounted(Run(w, max, steps), from, from + 1000 * w)| <= 2 * max
  {
    CountedBound(w, max, steps, from, 0);
    Quotient(1000 * w - 1, 1000 * w, 0, 1000 * w - 1);
  }

  /** Every answer comes within d milliseconds of the request's INCR. */
  ghost predicate Prompt(s: State, d: nat) {
    forall r :: r in s.requests && s.requests[r].phase.Allowed? ==> s.requests[r].phase.at <= s.requests[r].time + d
  }

  ghost predicate AnsweredLater(s: State) {
    forall r :: r in s.requests && s.requests[r].phase.Allowed? ==>
        s.requests[r].time <= s.requests[r].phase.at <= s.now
  }

  lemma {:induction false} EveryRunAnswersLater(w: nat, max: nat, steps: seq<Step>)
    requires w > 0
    ensures AnsweredLater(Run(w, max, steps))
  {
    if steps != [] {
      var init := steps[..|steps| - 1];
      EveryRunAnswersLater(w, max, init);
      EveryRunKeepsInv(w, max, init);
      var s := Run(w, max, init);
      assert forall r :: r in s.requests ==> RequestOk(s, s.requests[r]);
    }
  }

  /**
   When every request is answered within d milliseconds of being counted, at most (2 + ceil(d / window)) * maxRequests
   are let through in any interval of a window's length.
   */
  lemma LetThroughBound(w: nat, max: nat, steps: seq<Step>, from: int, d: nat)
    requires w > 0 && Prompt(Run(w, max, steps), d)
    ensures |LetThrough(Run(w, max, steps), from, from + 1000 * w)| <= (2 + CeilDiv(d, 1000 * w)) * max
  {
    var s := Run(w, max, steps);
    EveryRunAnswersLater(w, max, steps);
    CountedBound(w, max, steps, from - d, d);
    var a, b := LetThrough(s, from, from + 1000 * w), AllowedCounted(s, from - d, from - d + 1000 * w + d);
    assert a <= b;
    assert b == a + (b - a);
  }

  lemma RunSnoc(w: nat, max: nat, steps: seq<Step>, step: Step)
    ensures Run(w, max, steps + [step]) == Take(w, max, Run(w, max, steps), step)
  {
    assert (steps + [step])[..|steps|] == steps;
  }

  ghost function Below(n: nat): (b: set<nat>)
    ensures |b| == n && forall r: nat :: r in b <==> r < n
  {
    if n == 0 then {} else Below(n - 1) + {n - 1}
  }

  ghost predicate Waits(s: State, r: nat, k: nat)
    requires r in s.requests
  {
    s.requests[r].count == 1 && s.requests[r].phase == if r < k then Allowed(s.now) else Windowed
  }

  /**
   n requests, each alone in its window, of which the first k have just been let through; the key is gone in a window.
   */
  ghost predicate OneEach(w: nat, s: State, n: nat, k: nat) {
    && s.requests.Keys == Below(n)
    && (forall r :: r in s.requests ==> Waits(s, r, k))
    && Live(s.entry, s.now + 1000 * w) == Absent
  }

  /** A request that meets no key: counted first, it sets the expiry. */
  lemma AloneInWindow(w: nat, max: nat, s: State, n: nat)
    requires w > 0 && n !in s.requests && Live(s.entry, s.now + 1000 * w) == Absent
    ensures var s' := Take(w, max, Take(w, max, Take(w, max, Take(w, max, s, Tick(1000 * w)), Incr(n)), Ttl(n)),
                           Expire(n));
            && n in s'.requests && s'.requests == s.requests[n := s'.requests[n]]
            && s'.requests[n].count == 1 && s'.requests[n].phase == Windowed
            && Live(s'.entry, s'.now + 1000 * w) == Absent
  {
    var s1 := Take(w, max, s, Tick(1000 * w));
    var s2 := Take(w, max, s1, Incr(n));
    assert s2.entry == Present(1, None) && s2.requests[n].count == 1 && s2.requests == s.requests[n := s2.requests[n]];
    var s3 := Take(w, max, s2, Ttl(n));
    assert s3.requests[n].phase == SawTtl(-1) && s3.requests == s.requests[n := s3.requests[n]];
  }

  lemma OneMore(w: nat, max: nat, s: State, n: nat)
    requires w > 0 && OneEach(w, s, n, 0)
    ensures OneEach(w, Take(w, max, Take(w, max, Take(w, max, Take(w, max, s, Tick(1000 * w)), Incr(n)), Ttl(n)),
                            Expire(n)), n + 1, 0)
  {
    AloneInWindow(w, max, s, n);
    var s' := Take(w, max, Take(w, max, Take(w, max, Take(w, max, s, Tick(1000 * w)), Incr(n)), Ttl(n)), Expire(n));
    GrownKeys(w, s, s', n);
  }

  lemma GrownKeys(w: nat, s: State, s': State, n: nat)
    requires OneEach(w, s, n, 0)
    requires n in s'.requests && s'.requests == s.requests[n := s'.requests[n]] && Waits(s', n, 0)
    requires Live(s'.entry, s'.now + 1000 * w) == Absent
    ensures OneEach(w, s', n + 1, 0)
  {
    assert s'.requests.Keys == s.requests.Keys + {n};
    assert Below(n + 1) == Below(n) + {n};
    forall r | r in s'.requests ensures Waits(s', r, 0) {
      assert r != n ==> Waits(s, r, 0);
    }
  }

  lemma DecideNext(w: nat, max: nat, s: State, n: nat, k: nat, next: nat)
    requires max > 0 && k < n && OneEach(w, s, n, k) && next == k + 1
    ensures OneEach(w, Take(w, max, s, Decide(k)), n, next)
  {
    var s' := Take(w, max, s, Decide(k));
    assert Waits(s, k, k);
    assert s'.requests == s.requests[k := s.requests[k].(phase := Allowed(s.now))];
    assert s'.requests.Keys == s.requests.Keys;
    forall r | r in s'.requests ensures Waits(s', r, next) {
      assert Waits(s, r, k);
    }
  }

  lemma {:induction false} ManyWaiting(w: nat, max: nat, n: nat) returns (steps: seq<Step>)
    requires w > 0
    ensures OneEach(w, Run(w, max, steps), n, 0)
  {
    if n == 0 {
      steps := [];
    } else {
      var before := ManyWaiting(w, max, n - 1);
      OneMore(w, max, Run(w, max, before), n - 1);
      RunSnoc(w, max, before, Tick(1000 * w));
      RunSnoc(w, max, before + [Tick(1000 * w)], Incr(n - 1));
      RunSnoc(w, max, before + [Tick(1000 * w)] + [Incr(n - 1)], Ttl(n - 1));
      RunSnoc(w, max, before + [Tick(1000 * w)] + [Incr(n - 1)] + [Ttl(n - 1)], Expire(n - 1));
      steps := before + [Tick(1000 * w)] + [Incr(n - 1)] + [Ttl(n - 1)] + [Expire(n - 1)];
    }
  }

  lemma {:induction false} AllDecide(w: nat, max: nat, steps: seq<Step>, n: nat, k: nat) returns (all: seq<Step>)
    requires w > 0 && max > 0 && k <= n && OneEach(w, Run(w, max, steps), n, 0)
    ensures OneEach(w, Run(w, max, all), n, k)
  {
    if k == 0 {
      all := steps;
    } else {
      var j := k - 1;
      var before := AllDecide(w, max, steps, n, j);
      var s := Run(w, max, before);
      DecideNext(w, max, s, n, j, k);
      RunSnoc(w, max, before, Decide(j));
      all := before + [Decide(j)];
      assert Run(w, max, all) == Take(w, max, s, Decide(j));
    }
  }

  /**
   Nothing bounds what is let through by the time of the answer when answers may be late: for every n some run lets n
   requests through in one millisecond.
   */
  lemma LateAnswersBunch(w: nat, max: nat, n: nat) returns (steps: seq<Step>)
    requires w > 0 && max > 0
    ensures var s := Run(w, max, steps); |LetThrough(s, s.now, s.now + 1)| == n
  {
    var waiting := ManyWaiting(w, max, n);
    steps := AllDecide(w, max, waiting, n, n);
    var s := Run(w, max, steps);
    assert LetThrough(s, s.now, s.now + 1) == Below(n);
  }

  ghost function CountedUpTo(s: State, life: nat, max: nat): (a: set<nat>)
    ensures forall r :: r in a <==> r in s.requests && s.requests[r].life == life && s.requests[r].count <= max
  {
    set r | r in s.requests && s.requests[r].life == life && s.requests[r].count <= max
  }

  lemma {:induction false} SlotsAreTaken(s: State, life: nat, max: nat)
    requires CountsAreUnique(s) && CountsAreTaken(s) && life < |s.lives| && max <= s.lives[life].count
    ensures |CountedUpTo(s, life, max)| == max
  {
    if max == 0 {
      forall r | r in s.requests ensures s.requests[r].count >= 1 {
        assert RequestOk(s, s.requests[r]);
      }
      assert CountedUpTo(s, life, 0) == {};
    } else {
      SlotsAreTaken(s, life, max - 1);
      assert HasRequest(s, life, max);
      var q :| q in s.requests && s.requests[q].life == life && s.requests[q].count == max;
      assert CountedUpTo(s, life, max) == CountedUpTo(s, life, max - 1) + {q};
    }
  }

  /** A request is turned away only when maxRequests others were counted before it in the same lifetime. */
  lemma RejectedOnlyWhenFull(w: nat, max: nat, steps: seq<Step>, r: nat)
    requires w > 0 && r in Run(w, max, steps).requests && Run(w, max, steps).requests[r].phase.Rejected?
    ensures var s := Run(w, max, steps);
            |CountedUpTo(s, s.requests[r].life, max)| == max && r !in CountedUpTo(s, s.requests[r].life, max)
  {
    var s := Run(w, max, steps);
    EveryRunKeepsInv(w, max, steps);
    assert RequestOk(s, s.requests[r]);
    SlotsAreTaken(s, s.requests[r].life, max);
  }

  /** Once any request of the current lifetime has been answered, the key has an expiry at most a window away. */
  lemma AnsweredKeysExpire(w: nat, max: nat, steps: seq<Step>, r: nat)
    requires w > 0 && r in Run(w, max, steps).requests
    requires var s := Run(w, max, steps);
             (s.requests[r].phase.Allowed? || s.requests[r].phase.Rejected?) && s.requests[r].life == |s.lives| - 1
                 && s.entry.Present?
    ensures var s := Run(w, max, steps);
            s.entry.expireAt.Some? && s.entry.expireAt.value <= s.now + 1000 * w
  {
    EveryRunKeepsInv(w, max, steps);
  }
}
