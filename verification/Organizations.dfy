/**
 Memberships and invitations. One service call is one step; a transaction that throws leaves nothing behind.
 Email addresses are held in their normalized form, and hashToken is a parameter.
 */
module Organizations {
  import opened Common

  datatype Status = PENDING | ACCEPTED | REVOKED | EXPIRED | INVALIDATED
  datatype Member = Member(organizationId: nat, userId: nat, role: Role)
  datatype Invitation = Invitation(organizationId: nat, email: string, role: Role, tokenHash: string, status: Status,
                                   expiresAt: int)
  /** users maps ids to emails, owners maps organizations to their ownerId. */
  datatype Db = Db(users: map<nat, string>, owners: map<nat, nat>, members: set<Member>,
                   invitations: map<nat, Invitation>)
  datatype Auth = Auth(id: nat, email: string)

  datatype Outcome =
    | Done
    | UniqueViolation
    | UserAlreadyExists
    | UserNotFound
    | OrganizationNotFound
    | UserAlreadyInOrganization
    | MemberAlreadyExists
    | MemberNotFound
    | CannotModifyOwnerRole
    | CannotRemoveOwner
    | InsufficientPermissions
    | InvalidInvitationToken
    | InvitationNotFound
    | InvitationAlreadyAccepted
    | InvitationInvalidated
    | InvitationExpired
    | InvitationAlreadyUsed
    | InvitationNotPending
    | InvitationInvalid
    | AuthenticationRequired
    | RecipientMismatch
    | PasswordTooShort

  const SEVEN_DAYS: int := 7 * 24 * 60 * 60 * 1000
  const EMPTY: Db := Db(map[], map[], {}, map[])

  // ---- Look-ups -------------------------------------------------------------------------------------------

  ghost function UserByEmail(db: Db, email: string): (u: Option<nat>)
    ensures u.Some? ==> u.value in db.users && db.users[u.value] == email
    ensures u.None? ==> email !in db.users.Values
  {
    if u :| u in db.users && db.users[u] == email then Some(u) else None
  }

  ghost function Membership(db: Db, userId: nat): (m: Option<Member>)
    ensures m.Some? ==> m.value in db.members && m.value.userId == userId
    ensures m.None? ==> forall m :: m in db.members ==> m.userId != userId
  {
    if m :| m in db.members && m.userId == userId then Some(m) else None
  }

  ghost function PendingInvitation(db: Db, org: nat, email: string): (i: Option<nat>)
    ensures i.Some? ==> i.value in db.invitations && IsPendingFor(db.invitations[i.value], org, email)
    ensures i.None? ==> forall i :: i in db.invitations ==> !IsPendingFor(db.invitations[i], org, email)
  {
    if i :| i in db.invitations && IsPendingFor(db.invitations[i], org, email) then Some(i) else None
  }

  predicate IsPendingFor(i: Invitation, org: nat, email: string) {
    i.organizationId == org && i.email == email && i.status == PENDING
  }

  ghost function InvitationByHash(db: Db, tokenHash: string): (i: Option<nat>)
    ensures i.Some? ==> i.value in db.invitations && db.invitations[i.value].tokenHash == tokenHash
    ensures i.None? ==> forall i :: i in db.invitations ==> db.invitations[i].tokenHash != tokenHash
  {
    if i :| i in db.invitations && db.invitations[i].tokenHash == tokenHash then Some(i) else None
  }

  // ---- Invariants -----------------------------------------------------------------------------------------

  ghost predicate UsersOk(db: Db) {
    forall u, v :: u in db.users && v in db.users && db.users[u] == db.users[v] ==> u == v
  }

  /** Members are users of existing organizations, and each user has at most one membership. */
  ghost predicate MembersOk(db: Db) {
    && (forall m :: m in db.members ==> m.userId in db.users && m.organizationId in db.owners)
    && (forall m, n :: m in db.members && n in db.members && m.userId == n.userId ==> m == n)
  }

  /** Each organization has exactly one OWNER row, and it is its ownerId's. */
  ghost predicate OwnersOk(db: Db) {
    && (forall o :: o in db.owners ==> Member(o, db.owners[o], OWNER) in db.members)
    && (forall m :: m in db.members && m.role == OWNER ==>
        m.organizationId in db.owners && m.userId == db.owners[m.organizationId])
  }

  predicate SamePending(i: Invitation, j: Invitation) {
    i.status == PENDING && IsPendingFor(j, i.organizationId, i.email)
  }

  /**
   Invitations never grant ownership, tokens are unique, and each (organization, email) has at most one PENDING one.
   */
  ghost predicate InvitationsOk(db: Db) {
    && (forall i :: i in db.invitations ==>
        db.invitations[i].role != OWNER && db.invitations[i].organizationId in db.owners)
    && (forall i, j ::
        i in db.invitations && j in db.invitations && db.invitations[i].tokenHash == db.invitations[j].tokenHash ==>
        i == j)
    && (forall i, j ::
        i in db.invitations && j in db.invitations && SamePending(db.invitations[i], db.invitations[j]) ==> i == j)
  }

  predicate Joined(db: Db, m: Member, email: string) {
    m.role != OWNER && m.userId in db.users && db.users[m.userId] == email
  }

  /** A user who joined by invitation has no PENDING invitation while still a member. */
  ghost predicate JoinedHaveNoPending(db: Db) {
    forall m, i :: m in db.members && i in db.invitations && Joined(db, m, db.invitations[i].email) ==>
        db.invitations[i].status != PENDING
  }

  ghost predicate Inv(db: Db) {
    UsersOk(db) && MembersOk(db) && OwnersOk(db) && InvitationsOk(db) && JoinedHaveNoPending(db)
  }

  // ---- The operations as transitions ------------------------------------------------------------------------

  /** registerUserAndOrganization after the service's check that the email is new. */
  ghost function Register(db: Db, userId: nat, email: string, org: nat): (Db, Outcome) {
    if UserByEmail(db, email).Some? then (db, UserAlreadyExists)
    else if userId in db.users || org in db.owners then (db, UniqueViolation)
    else (db.(users := db.users[userId := email], owners := db.owners[org := userId],
              members := db.members + {Member(org, userId, OWNER)}), Done)
  }

  ghost function CreateOrganization(db: Db, userId: nat, org: nat): (Db, Outcome) {
    if Membership(db, userId).Some? then (db, UserAlreadyInOrganization)
    else if userId !in db.users then (db, UserNotFound)
    else if org in db.owners then (db, UniqueViolation)
    else (db.(owners := db.owners[org := userId], members := db.members + {Member(org, userId, OWNER)}), Done)
  }

  predicate HashTaken(invitations: map<nat, Invitation>, tokenHash: string, except: nat) {
    exists i :: i in invitations && i != except && invitations[i].tokenHash == tokenHash
  }

  /** Invites an email: refreshes the PENDING invitation there is, else creates one under the new id. */
  ghost function AddMember(db: Db, org: nat, email: string, role: Role, id: nat, tokenHash: string,
                           now: int): (Db, Outcome) {
    var user := UserByEmail(db, email);
    if org !in db.owners then (db, OrganizationNotFound)
    else if user.Some? && Membership(db, user.value).Some? then
      (db, if Membership(db, user.value).value.organizationId == org then MemberAlreadyExists
       else UserAlreadyInOrganization)
    else
      var pending := PendingInvitation(db, org, email);
      var target := if pending.Some? then pending.value else id;
      if HashTaken(db.invitations, tokenHash, target) || (pending.None? && id in db.invitations)
      then (db, UniqueViolation)
      else
        var invitation := Invitation(org, email, role, tokenHash, PENDING, now + SEVEN_DAYS);
        (db.(invitations := db.invitations[target := invitation]), Done)
  }

  ghost function UpdateMemberRole(db: Db, org: nat, userId: nat, role: Role, caller: Role): (Db, Outcome) {
    var m := Membership(db, userId);
    if m.None? || m.value.organizationId != org then (db, MemberNotFound)
    else if m.value.role == OWNER then (db, CannotModifyOwnerRole)
    else if m.value.role == ADMIN && caller != OWNER then (db, InsufficientPermissions)
    else if role == ADMIN && caller != OWNER then (db, InsufficientPermissions)
    else (db.(members := db.members - {m.value} + {m.value.(role := role)}), Done)
  }

  ghost function RemoveMember(db: Db, org: nat, userId: nat, caller: Role): (Db, Outcome) {
    var m := Membership(db, userId);
    if m.None? || m.value.organizationId != org then (db, MemberNotFound)
    else if m.value.role == OWNER then (db, CannotRemoveOwner)
    else if m.value.role == ADMIN && caller != OWNER then (db, InsufficientPermissions)
    else (db.(members := db.members - {m.value}), Done)
  }

  function WithStatus(db: Db, i: nat, status: Status): Db
    requires i in db.invitations
  {
    db.(invitations := db.invitations[i := db.invitations[i].(status := status)])
  }

  /** Looks an invitation up for its recipient; one found past its time becomes EXPIRED. */
  ghost function GetInvitationByToken(hash: string -> string, db: Db, token: string, now: int): (Db, Outcome) {
    var found := InvitationByHash(db, hash(token));
    if token == "" then (db, InvalidInvitationToken)
    else if found.None? then (db, InvitationNotFound)
    else
      var inv := db.invitations[found.value];
      match inv.status
      case ACCEPTED => (db, InvitationAlreadyAccepted)
      case INVALIDATED => (db, InvitationInvalidated)
      case EXPIRED => (db, InvitationExpired)
      case REVOKED => (db, InvitationAlreadyUsed)
      case PENDING =>
        if now > inv.expiresAt then (WithStatus(db, found.value, EXPIRED), InvitationExpired)
        else
          var user := UserByEmail(db, inv.email);
          if user.Some? && Membership(db, user.value).Some? then
            (db, if Membership(db, user.value).value.organizationId == inv.organizationId then MemberAlreadyExists
                 else UserAlreadyInOrganization)
          else (db, Done)
  }

  ghost function ResendInvitation(db: Db, org: nat, id: nat, tokenHash: string, now: int): (Db, Outcome) {
    if id !in db.invitations || db.invitations[id].organizationId != org then (db, InvitationNotFound)
    else if db.invitations[id].status != PENDING then (db, InvitationNotPending)
    else if HashTaken(db.invitations, tokenHash, id) then (db, UniqueViolation)
    else
      var resent := db.invitations[id].(tokenHash := tokenHash, expiresAt := now + SEVEN_DAYS);
      (db.(invitations := db.invitations[id := resent]), Done)
  }

  ghost function RevokeInvitation(db: Db, org: nat, id: nat): (Db, Outcome) {
    if id !in db.invitations || db.invitations[id].organizationId != org then (db, InvitationNotFound)
    else if db.invitations[id].status != PENDING then (db, InvitationNotPending)
    else (WithStatus(db, id, REVOKED), Done)
  }

  /** This invitation becomes ACCEPTED, every other PENDING one of the same email INVALIDATED. */
  function Settled(invitations: map<nat, Invitation>, id: nat): map<nat, Invitation>
    requires id in invitations
  {
    map i | i in invitations ::
      if i == id then invitations[i].(status := ACCEPTED)
      else if invitations[i].email == invitations[id].email && invitations[i].status == PENDING
      then invitations[i].(status := INVALIDATED)
      else invitations[i]
  }

  /** The transaction: what it re-checks, and what it leaves when it commits. */
  ghost function AcceptTransaction(db: Db, id: nat, now: int, newUserId: nat): (Db, Outcome)
    requires id in db.invitations
  {
    var inv := db.invitations[id];
    if inv.status == ACCEPTED then (db, InvitationAlreadyAccepted)
    else if inv.status == INVALIDATED then (db, InvitationInvalidated)
    else if inv.status != PENDING then (db, InvitationInvalid)
    else if now > inv.expiresAt then (db, InvitationExpired)
    else
      var user := UserByEmail(db, inv.email);
      if user.Some? && Membership(db, user.value).Some? then
        (db, if Membership(db, user.value).value.organizationId == inv.organizationId then MemberAlreadyExists
             else UserAlreadyInOrganization)
      else if user.None? && newUserId in db.users then (db, UserAlreadyInOrganization)
      else
        var u := if user.Some? then user.value else newUserId;
        (db.(users := db.users[u := inv.email], members := db.members + {Member(inv.organizationId, u, inv.role)},
             invitations := Settled(db.invitations, id)), Done)
  }

  /** `txNow` is the clock inside the transaction, which may have moved on since the service's own check at `now`. */
  ghost function AcceptInvitation(hash: string -> string, db: Db, token: string, passwordOk: bool, auth: Option<Auth>,
                                  now: int, txNow: int, newUserId: nat): (Db, Outcome) {
    var found := InvitationByHash(db, hash(token));
    if token == "" then (db, InvalidInvitationToken)
    else if found.None? then (db, InvitationNotFound)
    else
      var inv := db.invitations[found.value];
      if inv.status == ACCEPTED then (db, InvitationAlreadyAccepted)
      else if inv.status == INVALIDATED then (db, InvitationInvalidated)
      else if inv.status != PENDING then (db, InvitationInvalid)
      else if now > inv.expiresAt then (WithStatus(db, found.value, EXPIRED), InvitationExpired)
      else
        var user := UserByEmail(db, inv.email);
        if user.Some? && auth.None? then (db, AuthenticationRequired)
        else if user.Some? && (auth.value.id != user.value || auth.value.email != inv.email)
        then (db, RecipientMismatch)
        else if user.None? && auth.Some? && auth.value.email != inv.email then (db, RecipientMismatch)
        else if user.None? && !passwordOk then (db, PasswordTooShort)
        else AcceptTransaction(db, found.value, txNow, newUserId)
  }

  /** The schema lets an organization's members, invitations and everything else go with it. */
  ghost function DeleteOrganization(db: Db, org: nat): (Db, Outcome) {
    if org !in db.owners then (db, OrganizationNotFound)
    else (db.(owners := db.owners - {org},
              members := (set m | m in db.members && m.organizationId != org),
              invitations := map i | i in db.invitations && db.invitations[i].organizationId != org ::
                               db.invitations[i]),
       Done)
  }

  /**
   The requests, with the ids, tokens and clock readings they happen to use. Schemas admit no OWNER as a role to give.
   */
  datatype Request =
    | ReqRegister(userId: nat, email: string, org: nat)
    | ReqCreateOrganization(userId: nat, org: nat)
    | ReqAddMember(org: nat, email: string, role: Role, id: nat, token: string, now: int)
    | ReqUpdateMemberRole(org: nat, userId: nat, role: Role, caller: Role)
    | ReqRemoveMember(org: nat, userId: nat, caller: Role)
    | ReqGetInvitation(token: string, now: int)
    | ReqResend(org: nat, id: nat, token: string, now: int)
    | ReqRevoke(org: nat, id: nat)
    | ReqAccept(token: string, passwordOk: bool, auth: Option<Auth>, now: int, txNow: int, newUserId: nat)
    | ReqDelete(org: nat)

  predicate Admitted(r: Request) {
    (r.ReqAddMember? || r.ReqUpdateMemberRole?) ==> r.role != OWNER
  }

  ghost function Serve(hash: string -> string, db: Db, r: Request): (Db, Outcome) {
    match r
    case ReqRegister(userId, email, org) => Register(db, userId, email, org)
    case ReqCreateOrganization(userId, org) => CreateOrganization(db, userId, org)
    case ReqAddMember(org, email, role, id, token, now) => AddMember(db, org, email, role, id, hash(token), now)
    case ReqUpdateMemberRole(org, userId, role, caller) => UpdateMemberRole(db, org, userId, role, caller)
    case ReqRemoveMember(org, userId, caller) => RemoveMember(db, org, userId, caller)
    case ReqGetInvitation(token, now) => GetInvitationByToken(hash, db, token, now)
    case ReqResend(org, id, token, now) => ResendInvitation(db, org, id, hash(token), now)
    case ReqRevoke(org, id) => RevokeInvitation(db, org, id)
    case ReqAccept(token, passwordOk, auth, now, txNow, newUserId) =>
      AcceptInvitation(hash, db, token, passwordOk, auth, now, txNow, newUserId)
    case ReqDelete(org) => DeleteOrganization(db, org)
  }

  ghost function Run(hash: string -> string, db: Db, requests: seq<Request>): Db {
    if requests == [] then db
    else Serve(hash, Run(hash, db, requests[..|requests| - 1]), requests[|requests| - 1]).0
  }

  // ---- Every operation keeps the invariants -------------------------------------------------------------------

  lemma AddUserKeepsInv(db: Db, userId: nat, email: string)
    requires Inv(db) && userId !in db.users && email !in db.users.Values
    ensures Inv(db.(users := db.users[userId := email]))
  {
    var db' := db.(users := db.users[userId := email]);
    forall m | m in db.members ensures m.userId in db.users && db'.users[m.userId] == db.users[m.userId] {
    }
  }

  lemma NewOrganizationKeepsInv(db: Db, userId: nat, org: nat)
    requires Inv(db) && userId in db.users && org !in db.owners && forall m :: m in db.members ==> m.userId != userId
    ensures Inv(db.(owners := db.owners[org := userId], members := db.members + {Member(org, userId, OWNER)}))
  {
  }

  lemma RegisterKeepsInv(db: Db, userId: nat, email: string, org: nat)
    requires Inv(db)
    ensures Inv(Register(db, userId, email, org).0)
  {
    if UserByEmail(db, email).None? && userId !in db.users && org !in db.owners {
      AddUserKeepsInv(db, userId, email);
      NewOrganizationKeepsInv(db.(users := db.users[userId := email]), userId, org);
    }
  }

  lemma CreateOrganizationKeepsInv(db: Db, userId: nat, org: nat)
    requires Inv(db)
    ensures Inv(CreateOrganization(db, userId, org).0)
  {
    if Membership(db, userId).None? && userId in db.users && org !in db.owners {
      NewOrganizationKeepsInv(db, userId, org);
    }
  }

  lemma InvitingKeepsInvitationsOk(db: Db, i: nat, invitation: Invitation)
    requires InvitationsOk(db) && invitation.role != OWNER && invitation.organizationId in db.owners
    requires !HashTaken(db.invitations, invitation.tokenHash, i)
    requires forall j :: j in db.invitations && SamePending(invitation, db.invitations[j]) ==> j == i
    ensures InvitationsOk(db.(invitations := db.invitations[i := invitation]))
  {
  }

  lemma AddMemberKeepsInv(db: Db, org: nat, email: string, role: Role, id: nat, tokenHash: string, now: int)
    requires Inv(db) && role != OWNER
    ensures Inv(AddMember(db, org, email, role, id, tokenHash, now).0)
  {
    var (after, outcome) := AddMember(db, org, email, role, id, tokenHash, now);
    if outcome == Done {
      var pending := PendingInvitation(db, org, email);
      var target := if pending.Some? then pending.value else id;
      InvitingKeepsInvitationsOk(db, target, after.invitations[target]);
      forall m | m in db.members && db.users[m.userId] == email ensures UserByEmail(db, email) == Some(m.userId) {
      }
    }
  }

  lemma UpdateMemberRoleKeepsInv(db: Db, org: nat, userId: nat, role: Role, caller: Role)
    requires Inv(db) && role != OWNER
    ensures Inv(UpdateMemberRole(db, org, userId, role, caller).0)
  {
    var m := Membership(db, userId);
    if UpdateMemberRole(db, org, userId, role, caller).1 == Done {
      RemoveMemberOkInv(db, m.value);
      var rest := db.(members := db.members - {m.value});
      forall i | i in db.invitations && db.invitations[i].email == db.users[userId]
        ensures db.invitations[i].status != PENDING {
        assert Joined(db, m.value, db.invitations[i].email);
      }
      JoinKeepsInv(rest, m.value.(role := role));
    }
  }

  lemma RemoveMemberOkInv(db: Db, m: Member)
    requires Inv(db) && m in db.members && m.role != OWNER
    ensures Inv(db.(members := db.members - {m}))
  {
    var rest := db.(members := db.members - {m});
    forall n, i | n in rest.members && i in db.invitations && Joined(rest, n, db.invitations[i].email)
      ensures db.invitations[i].status != PENDING
    {
      assert Joined(db, n, db.invitations[i].email);
    }
  }

  lemma RemoveMemberKeepsInv(db: Db, org: nat, userId: nat, caller: Role)
    requires Inv(db)
    ensures Inv(RemoveMember(db, org, userId, caller).0)
  {
    if RemoveMember(db, org, userId, caller).1 == Done {
      RemoveMemberOkInv(db, Membership(db, userId).value);
    }
  }

  /** Nothing but statuses differ, and nothing became PENDING. */
  ghost predicate Closes(before: map<nat, Invitation>, after: map<nat, Invitation>) {
    && after.Keys == before.Keys
    && forall i :: i in before ==>
         after[i].(status := before[i].status) == before[i]
             && (after[i].status == PENDING ==> before[i].status == PENDING)
  }

  lemma ClosingKeepsInvitationsOk(db: Db, after: map<nat, Invitation>)
    requires InvitationsOk(db) && Closes(db.invitations, after)
    ensures InvitationsOk(db.(invitations := after))
  {
    forall i, j | i in after && j in after && SamePending(after[i], after[j]) ensures i == j {
      assert SamePending(db.invitations[i], db.invitations[j]);
    }
  }

  lemma ClosingKeepsInv(db: Db, after: map<nat, Invitation>)
    requires Inv(db) && Closes(db.invitations, after)
    ensures Inv(db.(invitations := after))
  {
    ClosingKeepsInvitationsOk(db, after);
    var db' := db.(invitations := after);
    forall m, i | m in db.members && i in after && Joined(db', m, after[i].email) ensures after[i].status != PENDING {
      assert Joined(db, m, db.invitations[i].email);
    }
  }

  lemma ResendKeepsInv(db: Db, org: nat, id: nat, tokenHash: string, now: int)
    requires Inv(db)
    ensures Inv(ResendInvitation(db, org, id, tokenHash, now).0)
  {
  }

  lemma SettledCloses(invitations: map<nat, Invitation>, id: nat)
    requires id in invitations
    ensures Closes(invitations, Settled(invitations, id))
    ensures forall i :: i in invitations && invitations[i].email == invitations[id].email ==>
            Settled(invitations, id)[i].status != PENDING
  {
  }

  lemma JoinKeepsNoPending(db: Db, m: Member)
    requires JoinedHaveNoPending(db) && m.userId in db.users
    requires forall i :: i in db.invitations && db.invitations[i].email == db.users[m.userId] ==>
             db.invitations[i].status != PENDING
    ensures JoinedHaveNoPending(db.(members := db.members + {m}))
  {
  }

  lemma JoinKeepsMembers(db: Db, m: Member)
    requires MembersOk(db) && OwnersOk(db) && m.userId in db.users && m.organizationId in db.owners && m.role != OWNER
    requires forall n :: n in db.members ==> n.userId != m.userId
    ensures var after := db.(members := db.members + {m}); MembersOk(after) && OwnersOk(after)
  {
  }

  lemma JoinKeepsInv(db: Db, m: Member)
    requires Inv(db) && m.userId in db.users && m.organizationId in db.owners && m.role != OWNER
    requires forall n :: n in db.members ==> n.userId != m.userId
    requires forall i :: i in db.invitations && db.invitations[i].email == db.users[m.userId] ==>
             db.invitations[i].status != PENDING
    ensures Inv(db.(members := db.members + {m}))
  {
    JoinKeepsMembers(db, m);
    JoinKeepsNoPending(db, m);
  }

  /** What a committed acceptance does, in three steps: the user exists, the invitations are settled, the user joins. */
  lemma AcceptedKeepsInv(db: Db, id: nat, u: nat)
    requires Inv(db) && id in db.invitations && u in db.users && db.users[u] == db.invitations[id].email
    requires forall n :: n in db.members ==> n.userId != u
    ensures Inv(db.(members := db.members + {Member(db.invitations[id].organizationId, u, db.invitations[id].role)},
                    invitations := Settled(db.invitations, id)))
  {
    SettledCloses(db.invitations, id);
    ClosingKeepsInv(db, Settled(db.invitations, id));
    JoinKeepsInv(db.(invitations := Settled(db.invitations, id)),
                 Member(db.invitations[id].organizationId, u, db.invitations[id].role));
  }

  lemma AcceptTransactionKeepsInv(db: Db, id: nat, now: int, newUserId: nat)
    requires Inv(db) && id in db.invitations
    ensures Inv(AcceptTransaction(db, id, now, newUserId).0)
  {
    if AcceptTransaction(db, id, now, newUserId).1 == Done {
      var inv, user := db.invitations[id], UserByEmail(db, db.invitations[id].email);
      if user.None? {
        AddUserKeepsInv(db, newUserId, inv.email);
        AcceptedKeepsInv(db.(users := db.users[newUserId := inv.email]), id, newUserId);
      } else {
        assert db.users[user.value := inv.email] == db.users;
        AcceptedKeepsInv(db, id, user.value);
      }
    }
  }

  lemma DeleteKeepsInv(db: Db, org: nat)
    requires Inv(db)
    ensures Inv(DeleteOrganization(db, org).0)
  {
  }

  lemma RevokeKeepsInv(db: Db, org: nat, id: nat)
    requires Inv(db)
    ensures Inv(RevokeInvitation(db, org, id).0)
  {
    if RevokeInvitation(db, org, id).1 == Done {
      ClosingKeepsInv(db, WithStatus(db, id, REVOKED).invitations);
    }
  }

  lemma ServeKeepsInv(hash: string -> string, db: Db, r: Request)
    requires Inv(db) && Admitted(r)
    ensures Inv(Serve(hash, db, r).0)
  {
    match r
    case ReqRegister(userId, email, org) => RegisterKeepsInv(db, userId, email, org);
    case ReqCreateOrganization(userId, org) => CreateOrganizationKeepsInv(db, userId, org);
    case ReqAddMember(org, email, role, id, token, now) =>
      AddMemberKeepsInv(db, org, email, role, id, hash(token), now);
    case ReqUpdateMemberRole(org, userId, role, caller) => UpdateMemberRoleKeepsInv(db, org, userId, role, caller);
    case ReqRemoveMember(org, userId, caller) => RemoveMemberKeepsInv(db, org, userId, caller);
    case ReqGetInvitation(token, now) => GetInvitationKeepsInv(hash, db, token, now);
    case ReqResend(org, id, token, now) => ResendKeepsInv(db, org, id, hash(token), now);
    case ReqRevoke(org, id) => RevokeKeepsInv(db, org, id);
    case ReqAccept(token, passwordOk, auth, now, txNow, newUserId) =>
      AcceptInvitationKeepsInv(hash, db, token, passwordOk, auth, now, txNow, newUserId);
    case ReqDelete(org) => DeleteKeepsInv(db, org);
  }

  lemma LookupOutcomes(hash: string -> string, db: Db, token: string, now: int)
    ensures var found, after := InvitationByHash(db, hash(token)), GetInvitationByToken(hash, db, token, now).0;
            after == db || (found.Some? && after == WithStatus(db, found.value, EXPIRED)
                            && db.invitations[found.value].status == PENDING)
  {
  }

  lemma AcceptOutcomes(hash: string -> string, db: Db, token: string, passwordOk: bool, auth: Option<Auth>, now: int,
                       txNow: int, newUserId: nat)
    ensures var found, r := InvitationByHash(db, hash(token)),
            AcceptInvitation(hash, db, token, passwordOk, auth, now, txNow, newUserId);
            || (r.0 == db && r.1 != Done)
            || (found.Some? && r == (WithStatus(db, found.value, EXPIRED), InvitationExpired)
                && db.invitations[found.value].status == PENDING)
            || (found.Some? && r == AcceptTransaction(db, found.value, txNow, newUserId))
  {
  }

  lemma GetInvitationKeepsInv(hash: string -> string, db: Db, token: string, now: int)
    requires Inv(db)
    ensures Inv(GetInvitationByToken(hash, db, token, now).0)
  {
    var found := InvitationByHash(db, hash(token));
    LookupOutcomes(hash, db, token, now);
    if found.Some? && GetInvitationByToken(hash, db, token, now).0 != db {
      ClosingKeepsInv(db, WithStatus(db, found.value, EXPIRED).invitations);
    }
  }

  lemma AcceptInvitationKeepsInv(hash: string -> string, db: Db, token: string, passwordOk: bool, auth: Option<Auth>,
                                 now: int, txNow: int, newUserId: nat)
    requires Inv(db)
    ensures Inv(AcceptInvitation(hash, db, token, passwordOk, auth, now, txNow, newUserId).0)
  {
    var found := InvitationByHash(db, hash(token));
    AcceptOutcomes(hash, db, token, passwordOk, auth, now, txNow, newUserId);
    if found.Some? {
      ClosingKeepsInv(db, WithStatus(db, found.value, EXPIRED).invitations);
      AcceptTransactionKeepsInv(db, found.value, txNow, newUserId);
    }
  }

  /**
   In every run of the operations: one membership a user, one OWNER an organization, one PENDING invitation an address.
   */
  lemma {:induction false} EveryRunKeepsInv(hash: string -> string, db: Db, requests: seq<Request>)
    requires Inv(db) && forall k :: 0 <= k < |requests| ==> Admitted(requests[k])
    ensures Inv(Run(hash, db, requests))
  {
    if requests != [] {
      EveryRunKeepsInv(hash, db, requests[..|requests| - 1]);
      ServeKeepsInv(hash, Run(hash, db, requests[..|requests| - 1]), requests[|requests| - 1]);
    }
  }

  lemma EmptyIsInv()
    ensures Inv(EMPTY)
  {
  }

  // ---- Invitations over a run ---------------------------------------------------------------------------------

  /** An invitation that is no longer PENDING is never touched again, except that it goes with its organization. */
  lemma ClosedInvitationsStay(hash: string -> string, db: Db, r: Request, i: nat)
    requires i in db.invitations && db.invitations[i].status != PENDING
    requires r.ReqDelete? ==> r.org != db.invitations[i].organizationId
    ensures var after := Serve(hash, db, r).0.invitations; i in after && after[i] == db.invitations[i]
  {
    if r.ReqAccept? {
      AcceptOutcomes(hash, db, r.token, r.passwordOk, r.auth, r.now, r.txNow, r.newUserId);
    }
    if r.ReqGetInvitation? {
      LookupOutcomes(hash, db, r.token, r.now);
    }
  }

  ghost predicate KeepsOrganization(requests: seq<Request>, org: nat) {
    forall k :: 0 <= k < |requests| ==> requests[k] != ReqDelete(org)
  }

  lemma {:induction false} ClosedInvitationsStayInRuns(hash: string -> string, db: Db, requests: seq<Request>, i: nat)
    requires i in db.invitations && db.invitations[i].status != PENDING
    requires KeepsOrganization(requests, db.invitations[i].organizationId)
    ensures var after := Run(hash, db, requests).invitations; i in after && after[i] == db.invitations[i]
  {
    if requests != [] {
      ClosedInvitationsStayInRuns(hash, db, requests[..|requests| - 1], i);
      ClosedInvitationsStay(hash, Run(hash, db, requests[..|requests| - 1]), requests[|requests| - 1], i);
    }
  }

  /** Who joins: the account with the invited address, or the account made for it. */
  ghost function Joiner(db: Db, id: nat, newUserId: nat): nat
    requires id in db.invitations
  {
    var user := UserByEmail(db, db.invitations[id].email);
    if user.Some? then user.value else newUserId
  }

  /** When the transaction commits, and what it then leaves. */
  lemma AcceptanceCommits(db: Db, id: nat, txNow: int, newUserId: nat)
    requires id in db.invitations && AcceptTransaction(db, id, txNow, newUserId).1 == Done
    ensures var inv, u, after := db.invitations[id], Joiner(db, id, newUserId),
            AcceptTransaction(db, id, txNow, newUserId).0;
            && inv.status == PENDING && txNow <= inv.expiresAt
            && after == db.(users := db.users[u := inv.email],
                            members := db.members + {Member(inv.organizationId, u, inv.role)},
                            invitations := Settled(db.invitations, id))
    ensures var user := UserByEmail(db, db.invitations[id].email);
            if user.Some? then forall m :: m in db.members ==> m.userId != user.value else newUserId !in db.users
  {
  }

  /**
   What a committed acceptance means: the recipient joins with the invited role and everyone else keeps what they had.
   */
  lemma AcceptanceJoins(db: Db, id: nat, txNow: int, newUserId: nat)
    requires Inv(db) && id in db.invitations && AcceptTransaction(db, id, txNow, newUserId).1 == Done
    ensures var inv, u, after := db.invitations[id], Joiner(db, id, newUserId),
            AcceptTransaction(db, id, txNow, newUserId).0;
            && inv.status == PENDING && txNow <= inv.expiresAt
            && after.users.Keys == db.users.Keys + {u} && after.users[u] == inv.email
            && (forall v :: v in db.users ==> after.users[v] == db.users[v])
            && (forall m :: m in db.members ==> m.userId != u)
            && after.members == db.members + {Member(inv.organizationId, u, inv.role)}
            && after.invitations.Keys == db.invitations.Keys && after.invitations[id] == inv.(status := ACCEPTED)
            && (forall i :: i in db.invitations && i != id ==>
                  after.invitations[i] == if IsPendingFor(db.invitations[i], db.invitations[i].organizationId,
                                                          inv.email)
                                          then db.invitations[i].(status := INVALIDATED) else db.invitations[i])
  {
    AcceptanceCommits(db, id, txNow, newUserId);
    assert forall m :: m in db.members ==> m.userId in db.users;
  }

  lemma HashFindsInvitation(db: Db, id: nat)
    requires InvitationsOk(db) && id in db.invitations
    ensures InvitationByHash(db, db.invitations[id].tokenHash) == Some(id)
  {
  }

  lemma AcceptedIsFinal(hash: string -> string, db: Db, id: nat, again: Request)
    requires InvitationsOk(db) && id in db.invitations && db.invitations[id].status == ACCEPTED
    requires again.ReqAccept? && again.token != "" && hash(again.token) == db.invitations[id].tokenHash
    ensures Serve(hash, db, again).1 == InvitationAlreadyAccepted
  {
    HashFindsInvitation(db, id);
  }

  lemma FirstAcceptance(hash: string -> string, db: Db, first: Request) returns (id: nat)
    requires Inv(db) && first.ReqAccept? && Serve(hash, db, first).1 == Done
    ensures InvitationByHash(db, hash(first.token)) == Some(id)
    ensures id in Serve(hash, db, first).0.invitations && first.token != ""
    ensures Serve(hash, db, first).0.invitations[id] == db.invitations[id].(status := ACCEPTED)
  {
    AcceptOutcomes(hash, db, first.token, first.passwordOk, first.auth, first.now, first.txNow, first.newUserId);
    id := InvitationByHash(db, hash(first.token)).value;
    AcceptanceJoins(db, id, first.txNow, first.newUserId);
  }

  lemma AcceptedStaysAccepted(hash: string -> string, db: Db, id: nat, requests: seq<Request>, again: Request)
    requires Inv(db) && id in db.invitations && db.invitations[id].status == ACCEPTED
    requires forall k :: 0 <= k < |requests| ==> Admitted(requests[k])
    requires KeepsOrganization(requests, db.invitations[id].organizationId)
    requires again.ReqAccept? && again.token != "" && hash(again.token) == db.invitations[id].tokenHash
    ensures Serve(hash, Run(hash, db, requests), again).1 == InvitationAlreadyAccepted
  {
    ClosedInvitationsStayInRuns(hash, db, requests, id);
    EveryRunKeepsInv(hash, db, requests);
    AcceptedIsFinal(hash, Run(hash, db, requests), id, again);
  }

  /** An accepted token is never accepted again, whatever else happens short of deleting the organization. */
  lemma AcceptedOnlyOnce(hash: string -> string, db: Db, first: Request, requests: seq<Request>, again: Request)
    requires Inv(db) && first.ReqAccept? && Serve(hash, db, first).1 == Done
    requires forall k :: 0 <= k < |requests| ==> Admitted(requests[k])
    requires var found := InvitationByHash(db, hash(first.token));
             found.Some? ==> KeepsOrganization(requests, db.invitations[found.value].organizationId)
    requires again.ReqAccept? && again.token == first.token
    ensures Serve(hash, Run(hash, Serve(hash, db, first).0, requests), again).1 == InvitationAlreadyAccepted
  {
    var id := FirstAcceptance(hash, db, first);
    ServeKeepsInv(hash, db, first);
    AcceptedStaysAccepted(hash, Serve(hash, db, first).0, id, requests, again);
  }

  /** Sending an invitation again replaces its token: the old one is no longer found. */
  lemma ResentTokenReplacesOld(hash: string -> string, db: Db, org: nat, id: nat, old_: string, new_: string, now: int,
                               r: Request)
    requires Inv(db) && id in db.invitations && db.invitations[id].tokenHash == hash(old_)
    requires ResendInvitation(db, org, id, hash(new_), now).1 == Done && hash(new_) != hash(old_)
    requires (r.ReqAccept? || r.ReqGetInvitation?) && r.token == old_ && old_ != ""
    ensures Serve(hash, ResendInvitation(db, org, id, hash(new_), now).0, r).1 == InvitationNotFound
  {
    var after := ResendInvitation(db, org, id, hash(new_), now).0;
    assert InvitationByHash(after, hash(old_)) == None;
  }

  // ---- What a caller sees -----------------------------------------------------------------------------------

  /** The caller may accept for an address: the account with it, signed in, or a new account with a good password. */
  ghost predicate MayAccept(db: Db, email: string, passwordOk: bool, auth: Option<Auth>, newUserId: nat) {
    var user := UserByEmail(db, email);
    if user.Some? then auth == Some(Auth(user.value, email))
    else (auth.None? || auth.value.email == email) && passwordOk && newUserId !in db.users
  }

  /** An invitation just sent is found under its token, open, and its recipient has no membership. */
  lemma InvitationIsOpen(db: Db, org: nat, email: string, role: Role, id: nat, tokenHash: string, now: int)
    returns (i: nat)
    requires Inv(db) && role != OWNER && AddMember(db, org, email, role, id, tokenHash, now).1 == Done
    ensures var after := AddMember(db, org, email, role, id, tokenHash, now).0;
            && InvitationByHash(after, tokenHash) == Some(i)
            && after.invitations[i] == Invitation(org, email, role, tokenHash, PENDING, now + SEVEN_DAYS)
            && after.members == db.members && after.users == db.users
            && UserByEmail(after, email) == UserByEmail(db, email)
    ensures UserByEmail(db, email).Some? ==> forall m :: m in db.members ==> m.userId != UserByEmail(db, email).value
  {
    var after := AddMember(db, org, email, role, id, tokenHash, now).0;
    var pending := PendingInvitation(db, org, email);
    i := if pending.Some? then pending.value else id;
    AddMemberKeepsInv(db, org, email, role, id, tokenHash, now);
    HashFindsInvitation(after, i);
    SameUserByEmail(db, after, email);
  }

  lemma SameUserByEmail(db: Db, after: Db, email: string)
    requires UsersOk(db) && after.users == db.users
    ensures UserByEmail(after, email) == UserByEmail(db, email)
  {
    var u, v := UserByEmail(db, email), UserByEmail(after, email);
    assert u.Some? ==> db.users[u.value] in db.users.Values;
    assert v.Some? ==> after.users[v.value] in after.users.Values;
  }

  /**
   From invitation to membership: the recipient who accepts with the token joins with the invited role if and only if
   the transaction runs within seven days; later the invitation counts as expired and nobody joins.
   */
  lemma InvitationRoundTrip(hash: string -> string, db: Db, org: nat, email: string, role: Role, id: nat, token: string,
                            now: int, passwordOk: bool, auth: Option<Auth>, later: int, txNow: int, newUserId: nat)
    requires Inv(db) && role != OWNER && token != "" && AddMember(db, org, email, role, id, hash(token), now).1 == Done
    requires MayAccept(db, email, passwordOk, auth, newUserId) && later <= txNow
    ensures var invited := AddMember(db, org, email, role, id, hash(token), now).0;
            var (after, outcome) := AcceptInvitation(hash, invited, token, passwordOk, auth, later, txNow, newUserId);
            var user := UserByEmail(db, email);
            && (outcome == Done <==> txNow <= now + SEVEN_DAYS)
            && (outcome == Done ==>
                after.members == db.members + {Member(org, if user.Some? then user.value else newUserId, role)})
            && (outcome != Done ==>
                outcome == InvitationExpired && after.members == db.members && after.users == db.users)
  {
    var invited := AddMember(db, org, email, role, id, hash(token), now).0;
    var i := InvitationIsOpen(db, org, email, role, id, hash(token), now);
  }

  /** Only an owner changes who is ADMIN by a role change or a removal. */
  lemma AdminsChangeByOwnerOnly(hash: string -> string, db: Db, r: Request)
    requires r.ReqUpdateMemberRole? || r.ReqRemoveMember?
    requires r.caller != OWNER
    ensures forall m: Member :: m.role == ADMIN ==> (m in Serve(hash, db, r).0.members <==> m in db.members)
  {
  }

  /** A refused request changes nothing, except that an invitation found past its time becomes EXPIRED. */
  lemma RefusalChangesNothing(hash: string -> string, db: Db, r: Request)
    requires Serve(hash, db, r).1 != Done
    ensures Serve(hash, db, r).0 == db
            || (exists i :: i in db.invitations && db.invitations[i].status == PENDING
                            && Serve(hash, db, r) == (WithStatus(db, i, EXPIRED), InvitationExpired))
  {
    if r.ReqAccept? {
      AcceptOutcomes(hash, db, r.token, r.passwordOk, r.auth, r.now, r.txNow, r.newUserId);
    }
    if r.ReqGetInvitation? {
      LookupOutcomes(hash, db, r.token, r.now);
    }
  }
}
