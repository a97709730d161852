/**
 Inviting as two database calls: the look-up of the address's PENDING invitation, and the write that refreshes it or
 creates one. Other calls may come between them. Steps are numbered by the clock; no constraint of the table ties the
 two calls.
 */
module InterleavedInvitations {
  import opened Common
  import opened Organizations

  type Invitations = map<nat, Invitation>

  /** An addMember call that has looked up but not yet written. */
  datatype Look = Look(org: nat, email: string, found: Option<nat>, lookedUp: nat)
  /**
   `writtenAt` numbers the step that last wrote an invitation through addMember, `closedAt` the one that last closed it.
   */
  datatype World = World(invitations: Invitations, looks: map<nat, Look>, writtenAt: map<nat, nat>,
                         closedAt: map<nat, nat>, clock: nat)

  datatype Event =
    | LookUp(call: nat, org: nat, email: string)
    | Write(call: nat, id: nat, role: Role, tokenHash: string, expiresAt: int)
    | Close(id: nat, status: Status)

  const NEW_WORLD: World := World(map[], map[], map[], map[], 0)

  ghost function FoundPending(invitations: Invitations, org: nat, email: string): Option<nat> {
    PendingInvitation(EMPTY.(invitations := invitations), org, email)
  }

  /** The invitation that a call writes: the one it found, or a new one. */
  function Target(look: Look, id: nat): nat {
    if look.found.Some? then look.found.value else id
  }

  /** Closing stands for revoking, expiring, accepting and invalidating. */
  ghost function After(w: World, e: Event): World {
    var next := w.(clock := w.clock + 1);
    match e
    case LookUp(call, org, email) =>
      if call in w.looks then next
      else next.(looks := w.looks[call := Look(org, email, FoundPending(w.invitations, org, email), w.clock)])
    case Write(call, id, role, tokenHash, expiresAt) =>
      if call !in w.looks then next
      else
        var look := w.looks[call];
        next.(invitations :=
              w.invitations[Target(look, id) := Invitation(look.org, look.email, role, tokenHash, PENDING, expiresAt)],
              writtenAt := w.writtenAt[Target(look, id) := w.clock], looks := w.looks - {call})
    case Close(id, status) =>
      if id !in w.invitations || w.invitations[id].status != PENDING || status == PENDING then next
      else next.(invitations := w.invitations[id := w.invitations[id].(status := status)],
                 closedAt := w.closedAt[id := w.clock])
  }

  ghost function History(events: seq<Event>): World {
    if events == [] then NEW_WORLD else After(History(events[..|events| - 1]), events[|events| - 1])
  }

  /** New ids are random. */
  ghost predicate Fresh(events: seq<Event>) {
    events == [] ||
    var init, e := events[..|events| - 1], events[|events| - 1];
    Fresh(init) && (e.Write? ==> e.id !in History(init).invitations)
  }

  ghost predicate OnePending(invitations: Invitations) {
    forall i, j :: i in invitations && j in invitations && SamePending(invitations[i], invitations[j]) ==> i == j
  }

  /** The write meets another PENDING invitation for its address, which some call wrote since the look-up. */
  ghost predicate Crossed(w: World, e: Event) {
    e.Write? && e.call in w.looks &&
    var look := w.looks[e.call];
    exists j :: j != Target(look, e.id) && WrittenSince(w, look, j)
  }

  ghost predicate WrittenSince(w: World, look: Look, j: nat) {
    j in w.invitations && IsPendingFor(w.invitations[j], look.org, look.email) && j in w.writtenAt
        && w.writtenAt[j] > look.lookedUp
  }

  /** What is PENDING for the address of a call under way is what the call found, or was written since. */
  ghost predicate LookOk(w: World, look: Look) {
    && look.lookedUp < w.clock
    && (look.found.Some? ==> look.found.value in w.invitations)
    && (forall j :: j in w.invitations && IsPendingFor(w.invitations[j], look.org, look.email) ==>
          look.found == Some(j) || WrittenSince(w, look, j))
  }

  ghost predicate WorldOk(w: World) {
    OnePending(w.invitations) && forall c :: c in w.looks ==> LookOk(w, w.looks[c])
  }

  lemma LookUpKeepsOk(w: World, e: Event)
    requires WorldOk(w) && e.LookUp?
    ensures WorldOk(After(w, e))
  {
    var w' := After(w, e);
    forall c | c in w'.looks ensures LookOk(w', w'.looks[c]) {
      if c in w.looks {
        LookOkLonger(w, w', w.looks[c]);
      } else {
        var found := FoundPending(w.invitations, e.org, e.email);
        forall j | j in w.invitations && IsPendingFor(w.invitations[j], e.org, e.email) ensures found == Some(j) {
          assert found.Some? && SamePending(w.invitations[j], w.invitations[found.value]);
        }
      }
    }
  }

  lemma LookOkLonger(w: World, w': World, look: Look)
    requires LookOk(w, look) && w'.clock == w.clock + 1
    requires w.invitations.Keys <= w'.invitations.Keys
    requires forall j :: j in w'.invitations && w'.invitations[j].status == PENDING ==>
               (j in w.invitations && w'.invitations[j] == w.invitations[j]
                && (j in w.writtenAt ==> j in w'.writtenAt && w'.writtenAt[j] == w.writtenAt[j]))
               || (j in w'.writtenAt && w'.writtenAt[j] == w.clock)
    ensures LookOk(w', look)
  {
    forall j | j in w'.invitations && IsPendingFor(w'.invitations[j], look.org, look.email)
      ensures look.found == Some(j) || WrittenSince(w', look, j)
    {
      assert j in w.invitations && w'.invitations[j] == w.invitations[j] ==>
             look.found == Some(j) || WrittenSince(w, look, j);
    }
  }

  lemma CloseKeepsOk(w: World, e: Event)
    requires WorldOk(w) && e.Close?
    ensures WorldOk(After(w, e))
  {
    var w' := After(w, e);
    forall c | c in w'.looks ensures LookOk(w', w'.looks[c]) {
      LookOkLonger(w, w', w.looks[c]);
    }
  }

  lemma OnlyTargetPending(w: World, e: Event)
    requires e.Write? && e.call in w.looks && LookOk(w, w.looks[e.call]) && !Crossed(w, e)
    ensures var look := w.looks[e.call];
            forall j :: j in w.invitations && IsPendingFor(w.invitations[j], look.org, look.email) ==>
                j == Target(look, e.id)
  {
    var look := w.looks[e.call];
    forall j | j in w.invitations && IsPendingFor(w.invitations[j], look.org, look.email)
      ensures j == Target(look, e.id) {
      assert look.found == Some(j) || WrittenSince(w, look, j);
    }
  }

  /** A write keeps one PENDING invitation an address exactly when it crosses no other write. */
  lemma WriteKeepsOkIff(w: World, e: Event)
    requires WorldOk(w) && e.Write? && e.id !in w.invitations
    ensures OnePending(After(w, e).invitations) <==> !Crossed(w, e)
    ensures !Crossed(w, e) ==> WorldOk(After(w, e))
  {
    var w' := After(w, e);
    if e.call in w.looks {
      var look := w.looks[e.call];
      var target := Target(look, e.id);
      assert LookOk(w, look);
      if Crossed(w, e) {
        var j :| j != target && WrittenSince(w, look, j);
        assert SamePending(w'.invitations[target], w'.invitations[j]);
      } else {
        OnlyTargetPending(w, e);
      }
      forall c | c in w'.looks ensures LookOk(w', w'.looks[c]) {
        LookOkLonger(w, w', w.looks[c]);
      }
    } else {
      forall c | c in w'.looks ensures LookOk(w', w'.looks[c]) {
        LookOkLonger(w, w', w.looks[c]);
      }
    }
  }

  lemma StepKeepsOkIff(w: World, e: Event)
    requires WorldOk(w) && (e.Write? ==> e.id !in w.invitations)
    ensures OnePending(After(w, e).invitations) <==> !Crossed(w, e)
    ensures !Crossed(w, e) ==> WorldOk(After(w, e))
  {
    match e
    case LookUp(_, _, _) => LookUpKeepsOk(w, e);
    case Write(_, _, _, _, _) => WriteKeepsOkIff(w, e);
    case Close(_, _) => CloseKeepsOk(w, e);
  }

  ghost predicate AlwaysOnePending(events: seq<Event>) {
    OnePending(History(events).invitations) && (events != [] ==> AlwaysOnePending(events[..|events| - 1]))
  }

  ghost predicate NeverCrossed(events: seq<Event>) {
    events == [] ||
    var init := events[..|events| - 1];
    NeverCrossed(init) && !Crossed(History(init), events[|events| - 1])
  }

  /**
   In every interleaving of look-ups, writes and closings there is at all times at most one PENDING invitation for an
   organization and address if and only if no write meets another one that some call wrote since the look-up.
   */
  lemma {:induction false} OnePendingIff(events: seq<Event>)
    requires Fresh(events)
    ensures AlwaysOnePending(events) <==> NeverCrossed(events)
    ensures AlwaysOnePending(events) ==> WorldOk(History(events))
  {
    if events != [] {
      var init := events[..|events| - 1];
      OnePendingIff(init);
      if WorldOk(History(init)) {
        StepKeepsOkIff(History(init), events[|events| - 1]);
      }
    }
  }

  // ---- Exactly when closed invitations stay closed ---------------------------------------------------------------

  ghost predicate ClosedStay(before: Invitations, after: Invitations) {
    forall i :: i in before && before[i].status != PENDING ==> i in after && after[i] == before[i]
  }

  ghost predicate ClosedSince(w: World, look: Look) {
    && look.found.Some? && look.found.value in w.invitations && w.invitations[look.found.value].status != PENDING
    && look.found.value in w.closedAt && w.closedAt[look.found.value] > look.lookedUp
  }

  /** The write finds closed what was PENDING at its look-up. */
  ghost predicate Reopens(w: World, e: Event) {
    e.Write? && e.call in w.looks && ClosedSince(w, w.looks[e.call])
  }

  /** What a call under way found is still PENDING, or was closed since. */
  ghost predicate FoundOk(w: World, look: Look) {
    && look.lookedUp < w.clock
    && (look.found.Some? ==>
          look.found.value in w.invitations
              && (w.invitations[look.found.value].status == PENDING || ClosedSince(w, look)))
  }

  ghost predicate AllFoundOk(w: World) {
    forall c :: c in w.looks ==> FoundOk(w, w.looks[c])
  }

  lemma StepKeepsFoundOk(w: World, e: Event)
    requires AllFoundOk(w)
    ensures AllFoundOk(After(w, e))
  {
    var w' := After(w, e);
    forall c | c in w'.looks ensures FoundOk(w', w'.looks[c]) {
      if c in w.looks {
        assert FoundOk(w, w.looks[c]);
      }
    }
  }

  lemma ClosedStayIff(w: World, e: Event)
    requires AllFoundOk(w) && (e.Write? ==> e.id !in w.invitations)
    ensures ClosedStay(w.invitations, After(w, e).invitations) <==> !Reopens(w, e)
  {
    if e.Write? && e.call in w.looks {
      assert FoundOk(w, w.looks[e.call]);
      if Reopens(w, e) {
        var i := w.looks[e.call].found.value;
        assert After(w, e).invitations[i].status == PENDING != w.invitations[i].status;
      }
    }
  }

  ghost predicate ClosedAlwaysStay(events: seq<Event>) {
    events == [] ||
    var init := events[..|events| - 1];
    ClosedAlwaysStay(init) && ClosedStay(History(init).invitations, History(events).invitations)
  }

  ghost predicate NeverReopens(events: seq<Event>) {
    events == [] ||
    var init := events[..|events| - 1];
    NeverReopens(init) && !Reopens(History(init), events[|events| - 1])
  }

  /**
   In every interleaving a closed invitation never changes if and only if no write finds the invitation it looked up
   closed since. Such a write makes an accepted, revoked or expired invitation PENDING again.
   */
  lemma {:induction false} ClosedAlwaysStayIff(events: seq<Event>)
    requires Fresh(events)
    ensures ClosedAlwaysStay(events) <==> NeverReopens(events)
    ensures AllFoundOk(History(events))
  {
    if events != [] {
      var init := events[..|events| - 1];
      ClosedAlwaysStayIff(init);
      ClosedStayIff(History(init), events[|events| - 1]);
      StepKeepsFoundOk(History(init), events[|events| - 1]);
    }
  }

  /** A look-up followed at once by its write is the addMember of one step. */
  lemma WholeInvite(w: World, db: Db, call: nat, org: nat, email: string, role: Role, id: nat, tokenHash: string,
                    now: int)
    requires call !in w.looks && db.invitations == w.invitations && InvitationsOk(db)
    requires AddMember(db, org, email, role, id, tokenHash, now).1 == Done
    ensures var w' := After(After(w, LookUp(call, org, email)), Write(call, id, role, tokenHash, now + 604_800_000));
            w'.invitations == AddMember(db, org, email, role, id, tokenHash, now).0.invitations && w'.looks == w.looks
  {
    var found, pending := FoundPending(w.invitations, org, email), PendingInvitation(db, org, email);
    if found.Some? && pending.Some? {
      assert SamePending(db.invitations[found.value], db.invitations[pending.value]);
    }
    var looked := After(w, LookUp(call, org, email));
    assert After(looked, Write(call, id, role, tokenHash, now + 604_800_000)).looks == w.looks;
  }

  /** Closing takes a PENDING invitation to the status given, and changes nothing else. */
  lemma CloseEffect(w: World, id: nat, status: Status)
    ensures var after := After(w, Close(id, status));
            && after.looks == w.looks && after.writtenAt == w.writtenAt
            && after.invitations.Keys == w.invitations.Keys
            && (forall i :: i in w.invitations && i != id ==> after.invitations[i] == w.invitations[i])
            && (id in w.invitations ==>
                  after.invitations[id] == if w.invitations[id].status == PENDING && status != PENDING
                                           then w.invitations[id].(status := status) else w.invitations[id])
  {
  }
}
