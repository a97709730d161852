/** Batched deletion of sessions and notifications. Each query may return any matching rows, up to the batch size. */
module Cleanups {
  import opened Common
  import opened Sessions

  datatype Notification = Notification(isRead: bool, createdAt: int)
  datatype Report = Report(deletedCount: nat, batches: nat)

  const MS_PER_DAY: int := 24 * 60 * 60 * 1000

  function Cutoff(now: int, olderThanDays: int): int {
    now - olderThanDays * MS_PER_DAY
  }

  predicate Outdated(n: Notification, cutoff: int) {
    n.isRead && n.createdAt < cutoff
  }

  function Recent(notifications: map<nat, Notification>, cutoff: int): map<nat, Notification> {
    map i | i in notifications && !Outdated(notifications[i], cutoff) :: notifications[i]
  }

  /** k full batches and one of r rows are ceil(n / b) batches. */
  lemma BatchCount(k: nat, b: nat, r: nat)
    requires b > 0 && r <= b
    ensures CeilDiv(k * b + r, b) == if r == 0 then k else k + 1
  {
    var n := k * b + r + b - 1;
    var q := if r == 0 then k else k + 1;
    var rest := if r == 0 then b - 1 else r - 1;
    assert n == q * b + rest;
    Quotient(n, b, q, rest);
  }

  /** A query without an order and with a limit: some of the ids, as many as there are up to the limit. */
  method FindMany(ids: set<nat>, take: nat) returns (batch: set<nat>)
    ensures batch <= ids && |batch| == if |ids| < take then |ids| else take
  {
    batch := {};
    var rest := ids;
    while |batch| < take && rest != {}
      invariant batch <= ids && rest == ids - batch && |batch| <= take
      decreases rest
    {
      var id :| id in rest;
      batch, rest := batch + {id}, rest - {id};
    }
    if rest == {} {
      assert batch == ids;
    } else {
      assert |ids| == |batch| + |ids - batch|;
    }
  }

  /** What the loop reports for n matching rows: all of them in ceil(n / b) batches, or nothing at batch size zero. */
  ghost predicate Reports(r: Report, n: nat, batchSize: nat) {
    if batchSize == 0 then r == Report(0, 0) else r == Report(n, CeilDiv(n, batchSize))
  }

  /** All n rows, in as few batches as hold them, or nothing at batch size zero. */
  ghost predicate IsReport(r: Report, n: nat, batchSize: nat) {
    if batchSize == 0 then r == Report(0, 0)
    else r.deletedCount == n && (r.batches - 1) * batchSize < n <= r.batches * batchSize
  }

  lemma ReportsIs(r: Report, n: nat, batchSize: nat)
    requires Reports(r, n, batchSize)
    ensures IsReport(r, n, batchSize)
  {
    if batchSize > 0 {
      var m := n + batchSize - 1;
      assert m == r.batches * batchSize + m % batchSize;
    }
  }

  /** Between two rounds: what has gone so far, and whether the last batch was full. */
  ghost predicate Progress(n: nat, left: nat, batchSize: nat, fetched: nat, r: Report) {
    && r.deletedCount + left == n && (batchSize == 0 ==> r == Report(0, 0))
    && (fetched == batchSize ==> r.deletedCount == r.batches * batchSize)
    && (fetched != batchSize ==> left == 0 && Reports(r, n, batchSize))
  }

  lemma RoundProgress(n: nat, left: nat, batchSize: nat, fetched: nat, r: Report)
    requires Progress(n, left, batchSize, batchSize, r) && fetched == if left < batchSize then left else batchSize
    ensures fetched == 0 ==> Reports(r, n, batchSize) && (batchSize > 0 ==> left == 0)
    ensures fetched > 0 ==>
            Progress(n, left - fetched, batchSize, fetched, Report(r.deletedCount + fetched, r.batches + 1))
  {
    if batchSize > 0 {
      BatchCount(r.batches, batchSize, if fetched < batchSize then fetched else 0);
    }
  }

  class CleanupService {
    var sessions: Table
    var notifications: map<nat, Notification>

    constructor (sessions: Table, notifications: map<nat, Notification>)
      ensures this.sessions == sessions && this.notifications == notifications
    {
      this.sessions, this.notifications := sessions, notifications;
    }

    ghost function StaleIds(now: int): set<nat>
      reads this
    {
      set i | i in sessions && Stale(sessions[i], now)
    }

    ghost function OutdatedIds(cutoff: int): set<nat>
      reads this
    {
      set i | i in notifications && Outdated(notifications[i], cutoff)
    }

    method CleanupExpiredAndRevokedSessions(now: int, batchSize: nat) returns (r: Report)
      modifies this`sessions
      ensures Reports(r, |old(StaleIds(now))|, batchSize)
      ensures sessions == if batchSize == 0 then old(sessions) else CleanedUp(old(sessions), now)
      ensures batchSize > 0 ==> StaleIds(now) == {}
      ensures forall i :: i in sessions <==>
                && i in old(sessions)
                && (batchSize == 0 || (old(sessions)[i].revokedAt.None? && old(sessions)[i].expiresAt >= now))
      ensures forall i :: i in sessions ==> sessions[i] == old(sessions)[i]
      ensures IsReport(r, |set i | i in old(sessions)
                                   && (old(sessions)[i].expiresAt < now || old(sessions)[i].revokedAt.Some?)|,
                                   batchSize)
    {
      r := Report(0, 0);
      var fetchedCount: nat := batchSize;
      ghost var n := |StaleIds(now)|;
      while fetchedCount == batchSize
        invariant sessions.Keys <= old(sessions.Keys)
        invariant forall i :: i in old(sessions) && !Stale(old(sessions)[i], now) ==> i in sessions
        invariant forall i :: i in sessions ==> sessions[i] == old(sessions)[i]
        invariant batchSize == 0 ==> sessions == old(sessions)
        invariant Progress(n, |StaleIds(now)|, batchSize, fetchedCount, r)
        decreases |StaleIds(now)|, if fetchedCount == batchSize then 1 else 0
      {
        var expiredOrRevoked := FindMany((set i | i in sessions && Stale(sessions[i], now)), batchSize);
        RoundProgress(n, |StaleIds(now)|, batchSize, |expiredOrRevoked|, r);
        fetchedCount := |expiredOrRevoked|;
        if fetchedCount == 0 {
          break;
        }
        ghost var before := StaleIds(now);
        sessions := sessions - expiredOrRevoked;
        assert StaleIds(now) == before - expiredOrRevoked;
        r := Report(r.deletedCount + fetchedCount, r.batches + 1);
      }
      if batchSize > 0 {
        assert forall i :: i in sessions ==> i !in StaleIds(now);
        assert sessions == CleanedUp(old(sessions), now);
      }
      ReportsIs(r, n, batchSize);
      assert old(StaleIds(now)) == set i | i in old(sessions)
                                           && (old(sessions)[i].expiresAt < now || old(sessions)[i].revokedAt.Some?);
    }

    method CleanupStaleNotifications(now: int, olderThanDays: int, batchSize: nat) returns (r: Report)
      modifies this`notifications
      ensures Reports(r, |old(OutdatedIds(Cutoff(now, olderThanDays)))|, batchSize)
      ensures notifications == if batchSize == 0 then old(notifications)
              else Recent(old(notifications), Cutoff(now, olderThanDays))
      ensures batchSize > 0 ==> OutdatedIds(Cutoff(now, olderThanDays)) == {}
      ensures forall i :: i in notifications <==>
                && i in old(notifications)
                && (batchSize == 0 || !old(notifications)[i].isRead
                    || old(notifications)[i].createdAt >= now - olderThanDays * 86_400_000)
      ensures forall i :: i in notifications ==> notifications[i] == old(notifications)[i]
      ensures IsReport(r, |set i | i in old(notifications) && old(notifications)[i].isRead
                                   && old(notifications)[i].createdAt < now - olderThanDays * 86_400_000|, batchSize)
    {
      var cutoff := Cutoff(now, olderThanDays);
      r := Report(0, 0);
      var fetchedCount: nat := batchSize;
      ghost var n := |OutdatedIds(cutoff)|;
      while fetchedCount == batchSize
        invariant notifications.Keys <= old(notifications.Keys)
        invariant forall i :: i in old(notifications) && !Outdated(old(notifications)[i], cutoff) ==> i in notifications
        invariant forall i :: i in notifications ==> notifications[i] == old(notifications)[i]
        invariant batchSize == 0 ==> notifications == old(notifications)
        invariant Progress(n, |OutdatedIds(cutoff)|, batchSize, fetchedCount, r)
        decreases |OutdatedIds(cutoff)|, if fetchedCount == batchSize then 1 else 0
      {
        var staleNotifications := FindMany((set i | i in notifications && Outdated(notifications[i], cutoff)),
                                           batchSize);
        RoundProgress(n, |OutdatedIds(cutoff)|, batchSize, |staleNotifications|, r);
        fetchedCount := |staleNotifications|;
        if fetchedCount == 0 {
          break;
        }
        ghost var before := OutdatedIds(cutoff);
        notifications := notifications - staleNotifications;
        assert OutdatedIds(cutoff) == before - staleNotifications;
        r := Report(r.deletedCount + fetchedCount, r.batches + 1);
      }
      if batchSize > 0 {
        assert forall i :: i in notifications ==> i !in OutdatedIds(cutoff);
        assert notifications == Recent(old(notifications), cutoff);
      }
      ReportsIs(r, n, batchSize);
      assert old(OutdatedIds(cutoff)) == set i | i in old(notifications) && old(notifications)[i].isRead
                                                 && old(notifications)[i].createdAt < now - olderThanDays * 86_400_000;
    }
  }
}
