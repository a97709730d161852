/**
 Refreshes as two database calls each: the look-up of the session, and the rotation or the revocation of all sessions.
 Other calls, and other refreshes, may come between them. Steps are numbered by the clock.
 */
module InterleavedSessions {
  import opened Common
  import opened Sessions

  /** A refresh that has looked its session up but not yet written; `lookedUp` numbers the step of the look-up. */
  datatype Pending = ToRotate(row: nat, userId: nat, tokenHash: string, lookedUp: nat) | ToRevokeAll(userId: nat)
  /** A rotation that was made, and whether the row was unrevoked then. */
  datatype Acceptance = Acceptance(row: nat, tokenHash: string, lookedUp: nat, rotated: nat, live: bool)
  /** `issued` maps every token hash handed out so far to its row. */
  datatype World = World(table: Table, issued: map<string, nat>, pending: map<nat, Pending>, accepted: seq<Acceptance>,
                         clock: nat)

  datatype Event =
    | SignIn(userId: nat, id: nat, tokenHash: string, expiresAt: int)
    | LookUp(call: nat, jwtOk: bool, tokenHash: string, now: int)
    | Finish(call: nat, newId: nat, newHash: string, now: int, expiresAt: int)
    | Logout(tokenHash: string, now: int)
    | ChangePassword(userId: nat, now: int)
    | Cleanup(now: int)

  const NEW_WORLD: World := World(map[], map[], map[], [], 0)

  ghost function AfterLookUp(w: World, call: nat, jwtOk: bool, tokenHash: string, now: int): map<nat, Pending> {
    var verdict, found := Verdict(w.table, jwtOk, tokenHash, now), ByHash(w.table, tokenHash);
    if verdict == Ok then w.pending[call := ToRotate(found.value, w.table[found.value].userId, tokenHash, w.clock)]
    else if verdict == TokenRevoked then w.pending[call := ToRevokeAll(w.table[found.value].userId)]
    else w.pending
  }

  /** The rotation fails and changes nothing when the row has been deleted since or the new row violates uniqueness. */
  function AfterFinish(w: World, p: Pending, newId: nat, newHash: string, now: int, expiresAt: int): World {
    match p
    case ToRevokeAll(userId) => w.(table := AllRevoked(w.table, userId, now))
    case ToRotate(row, userId, tokenHash, lookedUp) =>
      if row !in w.table then w
      else
        var (t, o) := Rotated(w.table, row, userId, newId, newHash, now, expiresAt);
        if o != Ok then w
        else w.(table := t, issued := w.issued[newHash := newId],
                accepted := w.accepted + [Acceptance(row, tokenHash, lookedUp, w.clock, w.table[row].revokedAt.None?)])
  }

  ghost function After(w: World, e: Event): World {
    var next := w.(clock := w.clock + 1);
    match e
    case SignIn(userId, id, tokenHash, expiresAt) =>
      var (t, o) := Created(w.table, id, userId, tokenHash, expiresAt);
      if o == Ok then next.(table := t, issued := w.issued[tokenHash := id]) else next
    case LookUp(call, jwtOk, tokenHash, now) =>
      if call in w.pending then next else next.(pending := AfterLookUp(w, call, jwtOk, tokenHash, now))
    case Finish(call, newId, newHash, now, expiresAt) =>
      if call !in w.pending then next
      else AfterFinish(w, w.pending[call], newId, newHash, now,
                       expiresAt).(clock := w.clock + 1, pending := w.pending - {call})
    case Logout(tokenHash, now) => next.(table := HashRevoked(w.table, tokenHash, now))
    case ChangePassword(userId, now) => next.(table := AllRevoked(w.table, userId, now))
    case Cleanup(now) => next.(table := CleanedUp(w.table, now))
  }

  ghost function History(events: seq<Event>): World {
    if events == [] then NEW_WORLD else After(History(events[..|events| - 1]), events[|events| - 1])
  }

  /** New ids and tokens are random, so they are none that were made before. */
  ghost predicate MakesFresh(w: World, e: Event) {
    && (e.SignIn? ==> e.tokenHash !in w.issued && e.id !in w.issued.Values)
    && (e.Finish? ==> e.newHash !in w.issued && e.newId !in w.issued.Values)
  }

  ghost predicate Fresh(events: seq<Event>) {
    events == [] || (Fresh(events[..|events| - 1]) && MakesFresh(History(events[..|events| - 1]), events[|events| - 1]))
  }

  // ---- What every run keeps ------------------------------------------------------------------------------------

  ghost predicate IssuedTo(w: World, tokenHash: string, row: nat) {
    tokenHash in w.issued && w.issued[tokenHash] == row
  }

  ghost predicate RowsOk(w: World) {
    && (forall i :: i in w.table ==> IssuedTo(w, w.table[i].tokenHash, i))
    && (forall g, h :: g in w.issued && h in w.issued && w.issued[g] == w.issued[h] ==> g == h)
  }

  ghost predicate PendingOk(w: World, p: Pending) {
    p.ToRotate? ==>
      && p.lookedUp < w.clock && IssuedTo(w, p.tokenHash, p.row)
      && (p.row in w.table ==> w.table[p.row].userId == p.userId)
      && (forall a :: a in w.accepted && a.row == p.row ==> p.lookedUp < a.rotated)
  }

  ghost predicate AcceptanceOk(w: World, a: Acceptance) {
    && a.lookedUp < a.rotated < w.clock && IssuedTo(w, a.tokenHash, a.row)
    && (a.row in w.table ==> w.table[a.row].revokedAt.Some?)
  }

  /** Of two rotations of one row, the later one had looked the row up before the earlier one rotated. */
  ghost predicate InOrder(a: Acceptance, b: Acceptance) {
    a.rotated < b.rotated && (a.row == b.row ==> b.lookedUp < a.rotated)
  }

  ghost predicate WorldOk(w: World) {
    && RowsOk(w)
    && (forall c :: c in w.pending ==> PendingOk(w, w.pending[c]))
    && (forall a :: a in w.accepted ==> AcceptanceOk(w, a))
    && (forall j, k :: 0 <= j < k < |w.accepted| ==> InOrder(w.accepted[j], w.accepted[k]))
  }

  lemma LookUpKeepsOk(w: World, call: nat, jwtOk: bool, tokenHash: string, now: int)
    requires WorldOk(w)
    ensures WorldOk(After(w, LookUp(call, jwtOk, tokenHash, now)))
  {
    var w' := After(w, LookUp(call, jwtOk, tokenHash, now));
    forall c | c in w'.pending ensures PendingOk(w', w'.pending[c]) {
      if c in w.pending {
        assert PendingOk(w, w.pending[c]);
      } else if w'.pending[c].ToRotate? {
        forall a | a in w.accepted ensures a.row != w'.pending[c].row {
          assert AcceptanceOk(w, a);
        }
      }
    }
    forall a | a in w'.accepted ensures AcceptanceOk(w', a) {
      assert AcceptanceOk(w, a);
    }
  }

  /** What a rotation that is made does to the table. */
  lemma RotationMade(w: World, p: Pending, newId: nat, newHash: string, now: int, expiresAt: int)
    requires RowsOk(w) && p.ToRotate? && p.row in w.table && newHash !in w.issued && newId !in w.issued.Values
    ensures var w' := AfterFinish(w, p, newId, newHash, now, expiresAt);
            && newId !in w.table
            && w'.table
               == w.table[p.row := w.table[p.row].(revokedAt := Some(now))]
                         [newId := Session(p.userId, newHash, expiresAt, None)]
            && w'.issued == w.issued[newHash := newId]
            && w'.accepted == w.accepted
               + [Acceptance(p.row, p.tokenHash, p.lookedUp, w.clock, w.table[p.row].revokedAt.None?)]
  {
    forall i | i in w.table ensures w.table[i].tokenHash != newHash && i != newId {
      assert IssuedTo(w, w.table[i].tokenHash, i);
    }
    var revoked := w.table[p.row := w.table[p.row].(revokedAt := Some(now))];
    assert !HashStored(revoked, newHash);
  }

  lemma AddedRowsOk(w: World, w': World, id: nat, hash: string)
    requires RowsOk(w) && hash !in w.issued && id !in w.issued.Values && w'.issued == w.issued[hash := id]
    requires id in w'.table && w'.table[id].tokenHash == hash
    requires forall i :: i in w'.table && i != id ==> i in w.table && w'.table[i].tokenHash == w.table[i].tokenHash
    ensures RowsOk(w')
    ensures forall h, i :: IssuedTo(w, h, i) ==> IssuedTo(w', h, i) && i != id
  {
    forall i | i in w'.table ensures IssuedTo(w', w'.table[i].tokenHash, i) {
      assert i != id ==> IssuedTo(w, w.table[i].tokenHash, i);
    }
    forall h, i | IssuedTo(w, h, i) ensures IssuedTo(w', h, i) && i != id {
      assert w.issued[h] in w.issued.Values;
    }
    forall g, h | g in w'.issued && h in w'.issued && w'.issued[g] == w'.issued[h] ensures g == h {
      assert g != hash ==> IssuedTo(w, g, w.issued[g]);
      assert h != hash ==> IssuedTo(w, h, w.issued[h]);
    }
  }

  lemma RotationKeepsOk(w: World, call: nat, newId: nat, newHash: string, now: int, expiresAt: int)
    requires WorldOk(w) && call in w.pending && w.pending[call].ToRotate? && w.pending[call].row in w.table
    requires MakesFresh(w, Finish(call, newId, newHash, now, expiresAt))
    ensures WorldOk(After(w, Finish(call, newId, newHash, now, expiresAt)))
  {
    var p, w' := w.pending[call], After(w, Finish(call, newId, newHash, now, expiresAt));
    RotationMade(w, p, newId, newHash, now, expiresAt);
    AddedRowsOk(w, w', newId, newHash);
    assert PendingOk(w, p);
    var made := Acceptance(p.row, p.tokenHash, p.lookedUp, w.clock, w.table[p.row].revokedAt.None?);
    forall a | a in w'.accepted ensures AcceptanceOk(w', a) {
      if a in w.accepted {
        assert AcceptanceOk(w, a);
      } else {
        assert a == made;
      }
    }
    forall c | c in w'.pending ensures PendingOk(w', w'.pending[c]) {
      assert PendingOk(w, w.pending[c]);
      forall a | a in w'.accepted && w.pending[c].ToRotate? && a.row == w.pending[c].row
        ensures w.pending[c].lookedUp < a.rotated {
        assert a in w.accepted || a == made;
      }
    }
    forall j, k | 0 <= j < k < |w'.accepted| ensures InOrder(w'.accepted[j], w'.accepted[k]) {
      if k == |w.accepted| {
        assert w.accepted[j] in w.accepted && AcceptanceOk(w, w.accepted[j]);
      }
    }
  }

  /** A step that only revokes or deletes rows. */
  ghost predicate OnlyEndsSessions(t: Table, t': Table) {
    && t'.Keys <= t.Keys
    && (forall i :: i in t' ==>
        t'[i].userId == t[i].userId && t'[i].tokenHash == t[i].tokenHash && (t[i].revokedAt.Some? ==> t'[i] == t[i]))
  }

  lemma EndingKeepsOk(w: World, w': World)
    requires WorldOk(w) && OnlyEndsSessions(w.table, w'.table) && w'.issued == w.issued && w'.accepted == w.accepted
    requires w'.clock == w.clock + 1 && forall c :: c in w'.pending ==> c in w.pending && w'.pending[c] == w.pending[c]
    ensures WorldOk(w')
  {
    forall i | i in w'.table ensures IssuedTo(w', w'.table[i].tokenHash, i) {
      assert IssuedTo(w, w.table[i].tokenHash, i);
    }
    forall c | c in w'.pending ensures PendingOk(w', w'.pending[c]) {
      assert PendingOk(w, w.pending[c]);
    }
    forall a | a in w'.accepted ensures AcceptanceOk(w', a) {
      assert AcceptanceOk(w, a);
    }
  }

  lemma SignInKeepsOk(w: World, e: Event)
    requires WorldOk(w) && e.SignIn? && MakesFresh(w, e)
    ensures WorldOk(After(w, e))
  {
    var w' := After(w, e);
    forall i | i in w.table ensures w.table[i].tokenHash != e.tokenHash && i != e.id {
      assert IssuedTo(w, w.table[i].tokenHash, i);
    }
    AddedRowsOk(w, w', e.id, e.tokenHash);
    forall c | c in w'.pending ensures PendingOk(w', w'.pending[c]) {
      assert PendingOk(w, w.pending[c]);
    }
    forall a | a in w'.accepted ensures AcceptanceOk(w', a) {
      assert AcceptanceOk(w, a);
    }
  }

  lemma AfterKeepsOk(w: World, e: Event)
    requires WorldOk(w) && MakesFresh(w, e)
    ensures WorldOk(After(w, e))
  {
    match e
    case SignIn(_, _, _, _) => SignInKeepsOk(w, e);
    case LookUp(call, jwtOk, tokenHash, now) => LookUpKeepsOk(w, call, jwtOk, tokenHash, now);
    case Finish(call, newId, newHash, now, expiresAt) =>
      if call in w.pending && w.pending[call].ToRotate? && w.pending[call].row in w.table {
        RotationKeepsOk(w, call, newId, newHash, now, expiresAt);
      } else {
        EndingKeepsOk(w, After(w, e));
      }
    case _ => EndingKeepsOk(w, After(w, e));
  }

  lemma {:induction false} EveryHistoryIsOk(events: seq<Event>)
    requires Fresh(events)
    ensures WorldOk(History(events)) && History(events).clock == |events|
  {
    if events != [] {
      EveryHistoryIsOk(events[..|events| - 1]);
      AfterKeepsOk(History(events[..|events| - 1]), events[|events| - 1]);
    }
  }

  // ---- Exactly when tokens are single-use ------------------------------------------------------------------------

  ghost predicate SingleUse(accepted: seq<Acceptance>) {
    forall j, k :: 0 <= j < k < |accepted| ==> accepted[j].tokenHash != accepted[k].tokenHash
  }

  /** Two accepted refreshes of one token that both looked up before either had rotated. */
  ghost predicate Overlap(a: Acceptance, b: Acceptance) {
    a.tokenHash == b.tokenHash && a.lookedUp < b.rotated && b.lookedUp < a.rotated
  }

  /**
   In every run of sign-ins, refreshes in two steps, logouts, password changes and cleanup, no token is accepted twice
   if and only if no two accepted refreshes of one token both looked up before either had rotated.
   */
  lemma SingleUseIff(events: seq<Event>)
    requires Fresh(events)
    ensures var accepted := History(events).accepted;
            SingleUse(accepted) <==> forall j, k :: 0 <= j < k < |accepted| ==> !Overlap(accepted[j], accepted[k])
  {
    EveryHistoryIsOk(events);
    var w := History(events);
    forall j, k | 0 <= j < k < |w.accepted| && w.accepted[j].tokenHash == w.accepted[k].tokenHash
      ensures Overlap(w.accepted[j], w.accepted[k])
    {
      var a, b := w.accepted[j], w.accepted[k];
      assert a in w.accepted && b in w.accepted;
      assert AcceptanceOk(w, a) && AcceptanceOk(w, b) && InOrder(a, b);
    }
  }

  /** Whenever two refreshes of one stored row are under way, both can be accepted. */
  lemma BothMayBeAccepted(w: World, c: nat, d: nat, e: Event, f: Event)
    requires WorldOk(w) && c != d && c in w.pending && d in w.pending && w.pending[c].ToRotate?
             && w.pending[d].ToRotate?
    requires w.pending[c].row == w.pending[d].row && w.pending[c].row in w.table
    requires e.Finish? && e.call == c && MakesFresh(w, e) && f.Finish? && f.call == d && MakesFresh(After(w, e), f)
    ensures var accepted := After(After(w, e), f).accepted;
            |accepted| == |w.accepted| + 2 && accepted[|w.accepted|].tokenHash == accepted[|w.accepted| + 1].tokenHash
  {
    assert PendingOk(w, w.pending[c]) && PendingOk(w, w.pending[d]);
    RotationMade(w, w.pending[c], e.newId, e.newHash, e.now, e.expiresAt);
    AfterKeepsOk(w, e);
    RotationMade(After(w, e), w.pending[d], f.newId, f.newHash, f.now, f.expiresAt);
  }

  // ---- Exactly when a rotation meets a revoked row ------------------------------------------------------------------

  ghost predicate Live(t: Table, row: nat) {
    row in t && t[row].revokedAt.None?
  }

  /** The step numbered i revoked the row. */
  ghost predicate RevokedAt(events: seq<Event>, i: nat, row: nat)
    requires i < |events|
  {
    var t' := History(events[..i + 1]).table;
    Live(History(events[..i]).table, row) && row in t' && t'[row].revokedAt.Some?
  }

  /** A row known by a token, once deleted, stays away; once revoked, stays revoked. */
  lemma RowsEndForGood(w: World, e: Event, row: nat)
    requires WorldOk(w) && MakesFresh(w, e) && row in w.issued.Values
    ensures row in After(w, e).issued.Values
    ensures row in After(w, e).table ==> row in w.table
    ensures row in After(w, e).table && w.table[row].revokedAt.Some? ==> After(w, e).table[row].revokedAt.Some?
  {
    var h :| h in w.issued && w.issued[h] == row;
    var w' := After(w, e);
    if e.SignIn? {
      SignInIsMade(w, e);
      assert h in w'.issued && w'.issued[h] == row;
    } else if e.Finish? && e.call in w.pending && w.pending[e.call].ToRotate? && w.pending[e.call].row in w.table {
      RotationMade(w, w.pending[e.call], e.newId, e.newHash, e.now, e.expiresAt);
      assert h in w'.issued && w'.issued[h] == row;
    } else {
      assert OnlyEndsSessions(w.table, w'.table) && w'.issued == w.issued;
    }
  }

  lemma SignInIsMade(w: World, e: Event)
    requires RowsOk(w) && e.SignIn? && MakesFresh(w, e)
    ensures After(w, e).table == w.table[e.id := Session(e.userId, e.tokenHash, e.expiresAt, None)]
    ensures e.id !in w.table && After(w, e).issued == w.issued[e.tokenHash := e.id]
  {
    forall i | i in w.table ensures w.table[i].tokenHash != e.tokenHash && i != e.id {
      assert IssuedTo(w, w.table[i].tokenHash, i);
    }
  }

  lemma {:induction false} FreshPrefix(events: seq<Event>, n: nat)
    requires Fresh(events) && n <= |events|
    ensures Fresh(events[..n])
  {
    if n < |events| {
      FreshPrefix(events[..|events| - 1], n);
      assert events[..|events| - 1][..n] == events[..n];
    } else {
      assert events[..n] == events;
    }
  }

  lemma HistoryNext(events: seq<Event>, i: nat, j: nat)
    requires Fresh(events) && i + 1 == j <= |events|
    ensures History(events[..j]) == After(History(events[..i]), events[i])
    ensures WorldOk(History(events[..i])) && MakesFresh(History(events[..i]), events[i])
  {
    FreshPrefix(events, j);
    assert events[..j][..i] == events[..i];
    EveryHistoryIsOk(events[..i]);
  }

  lemma RowsEndForGoodNext(events: seq<Event>, i: nat, j: nat, row: nat)
    requires Fresh(events) && i + 1 == j <= |events| && row in History(events[..i]).issued.Values
    ensures row in History(events[..j]).issued.Values
    ensures StaysEnded(History(events[..i]).table, History(events[..j]).table, row)
  {
    HistoryNext(events, i, j);
    RowsEndForGood(History(events[..i]), events[i], row);
  }

  /** A row of the later table was in the earlier one, and is revoked if it was. */
  ghost predicate StaysEnded(t: Table, t': Table, row: nat) {
    row in t' ==> row in t && (t[row].revokedAt.Some? ==> t'[row].revokedAt.Some?)
  }

  lemma {:induction false} RowsEndForGoodLater(events: seq<Event>, i: nat, j: nat, row: nat)
    requires Fresh(events) && i <= j <= |events| && row in History(events[..i]).issued.Values
    ensures row in History(events[..j]).issued.Values
    ensures StaysEnded(History(events[..i]).table, History(events[..j]).table, row)
    decreases j
  {
    if i < j {
      var k := j - 1;
      RowsEndForGoodLater(events, i, k, row);
      RowsEndForGoodNext(events, k, j, row);
    }
  }

  /** A row unrevoked at one moment and stored but revoked at a later one was revoked at some step between. */
  lemma {:induction false} SomeStepRevokes(events: seq<Event>, i: nat, j: nat, row: nat) returns (k: nat)
    requires Fresh(events) && i <= j <= |events| && row in History(events[..i]).issued.Values
    requires Live(History(events[..i]).table, row) && row in History(events[..j]).table
             && !Live(History(events[..j]).table, row)
    ensures i <= k < j && RevokedAt(events, k, row)
    decreases j
  {
    var m := j - 1;
    RowsEndForGoodLater(events, i, m, row);
    RowsEndForGoodNext(events, m, j, row);
    if Live(History(events[..m]).table, row) {
      k := m;
      RevokedAtLast(events, k, j, row);
    } else {
      k := SomeStepRevokes(events, i, m, row);
    }
  }

  lemma RevokedAtLast(events: seq<Event>, i: nat, j: nat, row: nat)
    requires i + 1 == j <= |events|
    ensures RevokedAt(events, i, row) <==>
            Live(History(events[..i]).table, row) && row in History(events[..j]).table
                && !Live(History(events[..j]).table, row)
  {
  }

  /** What the records of a run say of its moments. */
  ghost predicate Remembers(events: seq<Event>, row: nat, lookedUp: nat) {
    lookedUp < |events| && Live(History(events[..lookedUp + 1]).table, row)
        && row in History(events[..lookedUp + 1]).issued.Values
  }

  ghost predicate RemembersRotation(events: seq<Event>, a: Acceptance) {
    && Remembers(events, a.row, a.lookedUp) && a.rotated < |events|
    && a.row in History(events[..a.rotated]).table && (a.live <==> Live(History(events[..a.rotated]).table, a.row))
  }

  lemma RemembersLonger(events: seq<Event>, row: nat, lookedUp: nat)
    requires events != [] && Remembers(events[..|events| - 1], row, lookedUp)
    ensures Remembers(events, row, lookedUp)
  {
    assert events[..|events| - 1][..lookedUp + 1] == events[..lookedUp + 1];
  }

  lemma RemembersRotationLonger(events: seq<Event>, a: Acceptance)
    requires events != [] && RemembersRotation(events[..|events| - 1], a)
    ensures RemembersRotation(events, a)
  {
    RemembersLonger(events, a.row, a.lookedUp);
    assert events[..|events| - 1][..a.rotated] == events[..a.rotated];
  }

  lemma {:induction false} HistoryRemembers(events: seq<Event>)
    requires Fresh(events)
    ensures var w := History(events);
            && (forall c :: c in w.pending && w.pending[c].ToRotate? ==>
                Remembers(events, w.pending[c].row, w.pending[c].lookedUp))
            && (forall a :: a in w.accepted ==> RemembersRotation(events, a))
  {
    if events != [] {
      var init, e := events[..|events| - 1], events[|events| - 1];
      HistoryRemembers(init);
      EveryHistoryIsOk(init);
      var w, w' := History(init), History(events);
      forall c | c in w'.pending && w'.pending[c].ToRotate?
        ensures Remembers(events, w'.pending[c].row, w'.pending[c].lookedUp) {
        if c in w.pending {
          RemembersLonger(events, w.pending[c].row, w.pending[c].lookedUp);
        } else {
          NewPendingIsRemembered(events, c);
        }
      }
      forall a | a in w'.accepted ensures RemembersRotation(events, a) {
        if a in w.accepted {
          RemembersRotationLonger(events, a);
        } else {
          RemembersLonger(events, w.pending[e.call].row, w.pending[e.call].lookedUp);
        }
      }
    }
  }

  lemma NewPendingIsRemembered(events: seq<Event>, c: nat)
    requires Fresh(events) && events != []
    requires c !in History(events[..|events| - 1]).pending && c in History(events).pending
             && History(events).pending[c].ToRotate?
    ensures Remembers(events, History(events).pending[c].row, History(events).pending[c].lookedUp)
  {
    var w, w' := History(events[..|events| - 1]), History(events);
    EveryHistoryIsOk(events[..|events| - 1]);
    LookUpFindsLive(w, events[|events| - 1], c);
    RemembersNow(events, w'.pending[c].row, w'.pending[c].lookedUp);
  }

  lemma LookUpFindsLive(w: World, e: Event, c: nat)
    requires WorldOk(w) && c !in w.pending && c in After(w, e).pending && After(w, e).pending[c].ToRotate?
    ensures var w', p := After(w, e), After(w, e).pending[c];
            p.lookedUp == w.clock && Live(w'.table, p.row) && p.row in w'.issued.Values
  {
    var p := After(w, e).pending[c];
    assert IssuedTo(w, w.table[p.row].tokenHash, p.row);
    assert w.issued[w.table[p.row].tokenHash] in w.issued.Values;
  }

  lemma RemembersNow(events: seq<Event>, row: nat, lookedUp: nat)
    requires lookedUp + 1 == |events| && Live(History(events).table, row) && row in History(events).issued.Values
    ensures Remembers(events, row, lookedUp)
  {
    assert events[..lookedUp + 1] == events;
  }

  /**
   In every run, an accepted refresh rotated an unrevoked row if and only if no step between its look-up and its
   rotation revoked the row, be it a logout, a password change, a replay or another refresh of the token.
   */
  lemma RotatesLiveRowIff(events: seq<Event>, a: Acceptance)
    requires Fresh(events) && a in History(events).accepted
    ensures a.lookedUp < a.rotated < |events|
    ensures a.live <==> forall i :: a.lookedUp < i < a.rotated ==> !RevokedAt(events, i, a.row)
  {
    HistoryRemembers(events);
    EveryHistoryIsOk(events);
    assert AcceptanceOk(History(events), a) && RemembersRotation(events, a);
    if !a.live {
      var k := SomeStepRevokes(events, a.lookedUp + 1, a.rotated, a.row);
    } else {
      forall i | a.lookedUp < i < a.rotated ensures !RevokedAt(events, i, a.row) {
        NotRevokedBefore(events, a.lookedUp + 1, i, i + 1, a.rotated, a.row);
      }
    }
  }

  lemma NotRevokedBefore(events: seq<Event>, start: nat, i: nat, j: nat, end: nat, row: nat)
    requires Fresh(events) && start <= i && i + 1 == j <= end <= |events|
    requires row in History(events[..start]).issued.Values && Live(History(events[..end]).table, row)
    ensures !RevokedAt(events, i, row)
  {
    RowsEndForGoodLater(events, start, j, row);
    RowsEndForGoodLater(events, j, end, row);
    RevokedAtLast(events, i, j, row);
  }

  /** A rotation adds a session exactly when the row was revoked already. */
  lemma RotationAddsSessionIff(w: World, call: nat, newId: nat, newHash: string, now: int, expiresAt: int)
    requires WorldOk(w) && call in w.pending && w.pending[call].ToRotate? && w.pending[call].row in w.table
    requires MakesFresh(w, Finish(call, newId, newHash, now, expiresAt))
    ensures var p, w' := w.pending[call], After(w, Finish(call, newId, newHash, now, expiresAt));
            && LiveSessions(w'.table, p.userId) == LiveSessions(w.table, p.userId) - {p.row} + {newId}
            && |LiveSessions(w'.table, p.userId)|
               == |LiveSessions(w.table, p.userId)| + if Live(w.table, p.row) then 0 else 1
  {
    var p := w.pending[call];
    assert PendingOk(w, p);
    RotationMade(w, p, newId, newHash, now, expiresAt);
    SessionsAfterRotation(w.table, p.row, p.userId, now, newId, Session(p.userId, newHash, expiresAt, None));
  }

  lemma SessionsAfterRotation(t: Table, row: nat, userId: nat, now: int, newId: nat, new_: Session)
    requires row in t && t[row].userId == userId && newId !in t && new_.userId == userId && new_.revokedAt.None?
    ensures var t' := t[row := t[row].(revokedAt := Some(now))][newId := new_];
            && LiveSessions(t', userId) == LiveSessions(t, userId) - {row} + {newId}
            && |LiveSessions(t', userId)| == |LiveSessions(t, userId)| + if Live(t, row) then 0 else 1
  {
    var before := LiveSessions(t, userId);
    assert LiveSessions(t[row := t[row].(revokedAt := Some(now))][newId := new_], userId) == before - {row} + {newId};
    TradeOne(before, row, newId);
  }

  lemma TradeOne(before: set<nat>, old_: nat, new_: nat)
    requires new_ !in before
    ensures |before - {old_} + {new_}| == |before| + if old_ in before then 0 else 1
  {
    assert old_ !in before ==> before - {old_} == before;
  }

  /** A refresh whose two steps follow one another is the refresh of one step. */
  lemma WholeRefresh(w: World, call: nat, jwtOk: bool, tokenHash: string, now: int, newId: nat, newHash: string,
                     expiresAt: int)
    requires call !in w.pending
    ensures var w' := After(After(w, LookUp(call, jwtOk, tokenHash, now)),
                            Finish(call, newId, newHash, now, expiresAt));
            w'.table == Refreshed(w.table, jwtOk, tokenHash, now, newId, newHash, expiresAt).0
                && w'.pending == w.pending
  {
  }

  /** Calls of one step do what they do when no refresh is split. */
  lemma OtherSteps(w: World, s: System, userId: nat, id: nat, tokenHash: string, expiresAt: int, now: int)
    requires s.table == w.table
    ensures After(w, Event.SignIn(userId, id, tokenHash, expiresAt)).table
            == Take(s, Step.SignIn(userId, id, tokenHash, expiresAt)).table
    ensures After(w, Event.Logout(tokenHash, now)).table == Take(s, Step.Logout(tokenHash, now)).table
    ensures After(w, Event.ChangePassword(userId, now)).table == Take(s, Step.ChangePassword(userId, now)).table
    ensures After(w, Event.Cleanup(now)).table == Take(s, Step.Cleanup(now)).table
  {
  }
}
