/**
 What each operation on memberships and invitations does, told from the tables alone: when it answers what, and what it
 leaves.
 */
module OrganizationEffects {
  import opened Common
  import opened Organizations

  // ---- What the tables say -----------------------------------------------------------------------------------

  /** The user has this role in the organization. */
  predicate HasRole(db: Db, org: nat, userId: nat, role: Role) {
    Member(org, userId, role) in db.members
  }

  ghost predicate IsMember(db: Db, org: nat, userId: nat) {
    exists role :: HasRole(db, org, userId, role)
  }

  ghost predicate Belongs(db: Db, userId: nat) {
    exists org :: IsMember(db, org, userId)
  }

  predicate HasAddress(db: Db, userId: nat, email: string) {
    userId in db.users && db.users[userId] == email
  }

  ghost predicate AddressBelongsTo(db: Db, email: string, org: nat) {
    exists u :: HasAddress(db, u, email) && IsMember(db, org, u)
  }

  ghost predicate AddressBelongs(db: Db, email: string) {
    exists org :: AddressBelongsTo(db, email, org)
  }

  ghost predicate Known(db: Db, email: string) {
    exists u :: HasAddress(db, u, email)
  }

  lemma MembershipIs(db: Db, userId: nat)
    requires MembersOk(db)
    ensures Belongs(db, userId) <==> Membership(db, userId).Some?
    ensures forall org, role :: HasRole(db, org, userId, role) <==>
            Membership(db, userId) == Some(Member(org, userId, role))
    ensures forall org :: IsMember(db, org, userId) <==>
              Membership(db, userId).Some? && Membership(db, userId).value.organizationId == org
  {
    var m := Membership(db, userId);
    if m.Some? {
      assert HasRole(db, m.value.organizationId, userId, m.value.role);
      assert IsMember(db, m.value.organizationId, userId);
    }
  }

  lemma AddressIs(db: Db, email: string)
    requires UsersOk(db) && MembersOk(db)
    ensures Known(db, email) <==> UserByEmail(db, email).Some?
    ensures forall u: nat :: HasAddress(db, u, email) <==> UserByEmail(db, email) == Some(u)
    ensures var user := UserByEmail(db, email);
            && (AddressBelongs(db, email) <==> user.Some? && Membership(db, user.value).Some?)
            && forall org :: AddressBelongsTo(db, email, org) <==>
                 && user.Some? && Membership(db, user.value).Some?
                 && Membership(db, user.value).value.organizationId == org
  {
    var user := UserByEmail(db, email);
    if user.Some? {
      assert HasAddress(db, user.value, email);
      MembershipIs(db, user.value);
      var m := Membership(db, user.value);
      assert m.Some? ==> AddressBelongsTo(db, email, m.value.organizationId);
    }
  }

  // ---- Organizations -----------------------------------------------------------------------------------------

  lemma RegisterEffect(hash: string -> string, db: Db, userId: nat, email: string, org: nat)
    requires Inv(db)
    ensures var (after, outcome) := Serve(hash, db, ReqRegister(userId, email, org));
            && (outcome == UserAlreadyExists <==> Known(db, email))
            && (outcome == Done <==> !Known(db, email) && userId !in db.users && org !in db.owners)
            && (outcome == Done ==>
                  after == Db(db.users[userId := email], db.owners[org := userId],
                              db.members + {Member(org, userId, OWNER)}, db.invitations))
            && (outcome != Done ==> after == db)
  {
    AddressIs(db, email);
  }

  lemma CreateOrganizationEffect(hash: string -> string, db: Db, userId: nat, org: nat)
    requires Inv(db)
    ensures var (after, outcome) := Serve(hash, db, ReqCreateOrganization(userId, org));
            && (outcome == UserAlreadyInOrganization <==> Belongs(db, userId))
            && (outcome == UserNotFound <==> userId !in db.users)
            && (outcome == Done <==> !Belongs(db, userId) && userId in db.users && org !in db.owners)
            && (outcome == Done ==>
                  after == Db(db.users, db.owners[org := userId], db.members + {Member(org, userId, OWNER)},
                              db.invitations))
            && (outcome != Done ==> after == db)
  {
    MembershipIs(db, userId);
  }

  /** A deleted organization takes its members and invitations with it, and nothing else. */
  lemma DeleteOrganizationEffect(hash: string -> string, db: Db, org: nat)
    ensures var (after, outcome) := Serve(hash, db, ReqDelete(org));
            && (outcome == OrganizationNotFound <==> org !in db.owners)
            && (outcome == Done <==> org in db.owners)
            && (outcome != Done ==> after == db)
            && (outcome == Done ==>
                  && after.users == db.users && after.owners == db.owners - {org}
                  && (forall m :: m in after.members <==> m in db.members && m.organizationId != org)
                  && (forall i :: i in after.invitations <==>
                        i in db.invitations && db.invitations[i].organizationId != org)
                  && (forall i :: i in after.invitations ==> after.invitations[i] == db.invitations[i]))
  {
  }

  // ---- Members -----------------------------------------------------------------------------------------------

  /** Who may give a member another role, or take it out: owners anyone but the owner, others only lower members. */
  lemma UpdateMemberRoleEffect(hash: string -> string, db: Db, org: nat, userId: nat, role: Role, caller: Role)
    requires Inv(db)
    ensures var (after, outcome) := Serve(hash, db, ReqUpdateMemberRole(org, userId, role, caller));
            && (outcome == MemberNotFound <==> !IsMember(db, org, userId))
            && (outcome == CannotModifyOwnerRole <==> HasRole(db, org, userId, OWNER))
            && (outcome == InsufficientPermissions <==>
                  && caller != OWNER && IsMember(db, org, userId) && !HasRole(db, org, userId, OWNER)
                  && (HasRole(db, org, userId, ADMIN) || role == ADMIN))
            && (outcome == Done <==>
                  && IsMember(db, org, userId) && !HasRole(db, org, userId, OWNER)
                  && (caller == OWNER || (!HasRole(db, org, userId, ADMIN) && role != ADMIN)))
            && (outcome != Done ==> after == db)
            && (outcome == Done ==>
                  && after.users == db.users && after.owners == db.owners && after.invitations == db.invitations
                  && (forall m: Member :: m.userId != userId ==> (m in after.members <==> m in db.members))
                  && (forall o, r :: HasRole(after, o, userId, r) <==> o == org && r == role))
  {
    MembershipIs(db, userId);
  }

  lemma RemoveMemberEffect(hash: string -> string, db: Db, org: nat, userId: nat, caller: Role)
    requires Inv(db)
    ensures var (after, outcome) := Serve(hash, db, ReqRemoveMember(org, userId, caller));
            && (outcome == MemberNotFound <==> !IsMember(db, org, userId))
            && (outcome == CannotRemoveOwner <==> HasRole(db, org, userId, OWNER))
            && (outcome == InsufficientPermissions <==> caller != OWNER && HasRole(db, org, userId, ADMIN))
            && (outcome == Done <==>
                  && IsMember(db, org, userId) && !HasRole(db, org, userId, OWNER)
                  && (caller == OWNER || !HasRole(db, org, userId, ADMIN)))
            && (outcome != Done ==> after == db)
            && (outcome == Done ==>
                  && after.users == db.users && after.owners == db.owners && after.invitations == db.invitations
                  && (forall m: Member :: m.userId != userId ==> (m in after.members <==> m in db.members))
                  && !Belongs(after, userId))
  {
    MembershipIs(db, userId);
  }

  // ---- Invitations -------------------------------------------------------------------------------------------

  /** Only this invitation may differ. */
  ghost predicate OnlyInvitation(db: Db, after: Db, i: nat) {
    && after.users == db.users && after.owners == db.owners && after.members == db.members
    && i in after.invitations && after.invitations == db.invitations[i := after.invitations[i]]
  }

  predicate IsPending(db: Db, i: nat, org: nat, email: string) {
    i in db.invitations && db.invitations[i].organizationId == org && db.invitations[i].email == email
    && db.invitations[i].status == PENDING
  }

  predicate HasToken(db: Db, i: nat, tokenHash: string) {
    i in db.invitations && db.invitations[i].tokenHash == tokenHash
  }

  /** Whether the address can be invited. */
  lemma AddMemberOutcome(hash: string -> string, db: Db, org: nat, email: string, role: Role, id: nat, token: string,
                         now: int)
    requires Inv(db)
    ensures var (after, outcome) := Serve(hash, db, ReqAddMember(org, email, role, id, token, now));
            && (outcome == OrganizationNotFound <==> org !in db.owners)
            && (outcome == MemberAlreadyExists <==> org in db.owners && AddressBelongsTo(db, email, org))
            && (outcome == UserAlreadyInOrganization <==>
                  org in db.owners && AddressBelongs(db, email) && !AddressBelongsTo(db, email, org))
            && (outcome == Done || outcome == UniqueViolation <==> org in db.owners && !AddressBelongs(db, email))
            && (outcome != Done ==> after == db)
  {
    AddressIs(db, email);
  }

  /**
   Inviting leaves one invitation PENDING for seven days with the new token: the address's PENDING one, else a new one.
   */
  lemma AddMemberEffect(hash: string -> string, db: Db, org: nat, email: string, role: Role, id: nat, token: string,
                        now: int) returns (i: nat)
    requires Inv(db) && Serve(hash, db, ReqAddMember(org, email, role, id, token, now)).1 == Done
    ensures if exists j :: IsPending(db, j, org, email) then IsPending(db, i, org, email)
        else i == id && id !in db.invitations
    ensures var after := Serve(hash, db, ReqAddMember(org, email, role, id, token, now)).0;
            && OnlyInvitation(db, after, i)
            && after.invitations[i] == Invitation(org, email, role, hash(token), PENDING, now + 604_800_000)
  {
    var pending := PendingInvitation(db, org, email);
    i := if pending.Some? then pending.value else id;
    assert pending.Some? ==> IsPending(db, pending.value, org, email);
  }

  /** A fresh token and a fresh id are never in the way. */
  lemma FreshTokenIsNoViolation(hash: string -> string, db: Db, org: nat, email: string, role: Role, id: nat,
                                token: string, now: int)
    requires id !in db.invitations && forall i :: !HasToken(db, i, hash(token))
    ensures Serve(hash, db, ReqAddMember(org, email, role, id, token, now)).1 != UniqueViolation
    ensures forall i :: Serve(hash, db, ReqResend(org, i, token, now)).1 != UniqueViolation
  {
    assert forall i :: i in db.invitations ==> !HasToken(db, i, hash(token));
  }

  lemma ResendInvitationEffect(hash: string -> string, db: Db, org: nat, id: nat, token: string, now: int)
    ensures var (after, outcome) := Serve(hash, db, ReqResend(org, id, token, now));
            && (outcome == InvitationNotFound <==> !(id in db.invitations && db.invitations[id].organizationId == org))
            && (outcome == InvitationNotPending <==>
                  id in db.invitations && db.invitations[id].organizationId == org
                      && db.invitations[id].status != PENDING)
            && (outcome == Done || outcome == UniqueViolation <==>
                  id in db.invitations && db.invitations[id].organizationId == org
                      && db.invitations[id].status == PENDING)
            && (outcome != Done ==> after == db)
            && (outcome == Done ==>
                  && OnlyInvitation(db, after, id)
                  && after.invitations[id]
                     == db.invitations[id].(tokenHash := hash(token), expiresAt := now + 604_800_000))
  {
  }

  lemma RevokeInvitationEffect(hash: string -> string, db: Db, org: nat, id: nat)
    ensures var (after, outcome) := Serve(hash, db, ReqRevoke(org, id));
            && (outcome == InvitationNotFound <==> !(id in db.invitations && db.invitations[id].organizationId == org))
            && (outcome == InvitationNotPending <==>
                  id in db.invitations && db.invitations[id].organizationId == org
                      && db.invitations[id].status != PENDING)
            && (outcome == Done <==>
                  id in db.invitations && db.invitations[id].organizationId == org
                      && db.invitations[id].status == PENDING)
            && (outcome != Done ==> after == db)
            && (outcome == Done ==>
                  OnlyInvitation(db, after, id) && after.invitations[id] == db.invitations[id].(status := REVOKED))
  {
  }

  /** What a look-up and an acceptance answer to the token of an invitation that is not PENDING. */
  lemma ClosedTokenIsRefused(hash: string -> string, db: Db, id: nat, token: string, passwordOk: bool,
                             auth: Option<Auth>, now: int, txNow: int, newUserId: nat)
    requires InvitationsOk(db) && HasToken(db, id, hash(token)) && db.invitations[id].status != PENDING && token != ""
    ensures var (after, outcome) := Serve(hash, db, ReqGetInvitation(token, now));
            after == db && outcome == match db.invitations[id].status {
                                        case ACCEPTED => InvitationAlreadyAccepted
                                        case INVALIDATED => InvitationInvalidated
                                        case EXPIRED => InvitationExpired
                                        case _ => InvitationAlreadyUsed
                                      }
    ensures var (after, outcome) := Serve(hash, db, ReqAccept(token, passwordOk, auth, now, txNow, newUserId));
            after == db && outcome == match db.invitations[id].status {
                                        case ACCEPTED => InvitationAlreadyAccepted
                                        case INVALIDATED => InvitationInvalidated
                                        case _ => InvitationInvalid
                                      }
  {
    HashFindsInvitation(db, id);
  }

  /**
   An invitation that is not PENDING stays as it is in every run that keeps its organization, and so do the answers.
   */
  lemma ClosedForGood(hash: string -> string, db: Db, id: nat, requests: seq<Request>, token: string, passwordOk: bool,
                      auth: Option<Auth>, now: int, txNow: int, newUserId: nat)
    requires Inv(db) && HasToken(db, id, hash(token)) && db.invitations[id].status != PENDING && token != ""
    requires KeepsOrganization(requests, db.invitations[id].organizationId)
    requires forall k :: 0 <= k < |requests| ==> Admitted(requests[k])
    ensures var after := Run(hash, db, requests);
            && id in after.invitations && after.invitations[id] == db.invitations[id]
            && Serve(hash, after, ReqGetInvitation(token, now)).1 != Done
            && Serve(hash, after, ReqAccept(token, passwordOk, auth, now, txNow, newUserId)).1 != Done
            && (db.invitations[id].status == REVOKED ==>
                  && Serve(hash, after, ReqGetInvitation(token, now)) == (after, InvitationAlreadyUsed)
                  && Serve(hash, after, ReqAccept(token, passwordOk, auth, now, txNow, newUserId))
                     == (after, InvitationInvalid))
  {
    ClosedInvitationsStayInRuns(hash, db, requests, id);
    EveryRunKeepsInv(hash, db, requests);
    ClosedTokenIsRefused(hash, Run(hash, db, requests), id, token, passwordOk, auth, now, txNow, newUserId);
  }

  /** After a revoke, in every run that keeps the organization, the token is good for nothing. */
  lemma RevokedForGood(hash: string -> string, db: Db, org: nat, id: nat, requests: seq<Request>, token: string,
                       passwordOk: bool, auth: Option<Auth>, now: int, txNow: int, newUserId: nat)
    requires Inv(db) && Serve(hash, db, ReqRevoke(org, id)).1 == Done && HasToken(db, id, hash(token)) && token != ""
    requires KeepsOrganization(requests, org) && forall k :: 0 <= k < |requests| ==> Admitted(requests[k])
    ensures var after := Run(hash, Serve(hash, db, ReqRevoke(org, id)).0, requests);
            && id in after.invitations && after.invitations[id] == db.invitations[id].(status := REVOKED)
            && Serve(hash, after, ReqGetInvitation(token, now)) == (after, InvitationAlreadyUsed)
            && Serve(hash, after, ReqAccept(token, passwordOk, auth, now, txNow, newUserId))
               == (after, InvitationInvalid)
  {
    var revoked := Serve(hash, db, ReqRevoke(org, id)).0;
    ServeKeepsInv(hash, db, ReqRevoke(org, id));
    RevokeInvitationEffect(hash, db, org, id);
    ClosedForGood(hash, revoked, id, requests, token, passwordOk, auth, now, txNow, newUserId);
  }

  /** The look-up: only the recipient of a PENDING invitation in its time, who belongs nowhere, is told of it. */
  lemma GetInvitationEffect(hash: string -> string, db: Db, id: nat, token: string, now: int)
    requires Inv(db) && HasToken(db, id, hash(token)) && db.invitations[id].status == PENDING && token != ""
    ensures var (after, outcome), inv := Serve(hash, db, ReqGetInvitation(token, now)), db.invitations[id];
            && (outcome == InvitationExpired <==> now > inv.expiresAt)
            && (outcome == Done <==> now <= inv.expiresAt && !AddressBelongs(db, inv.email))
            && (outcome == MemberAlreadyExists <==>
                  now <= inv.expiresAt && AddressBelongsTo(db, inv.email, inv.organizationId))
            && (outcome == UserAlreadyInOrganization <==>
                  && now <= inv.expiresAt && AddressBelongs(db, inv.email)
                  && !AddressBelongsTo(db, inv.email, inv.organizationId))
            && (now <= inv.expiresAt ==> after == db)
            && (now > inv.expiresAt ==>
                  OnlyInvitation(db, after, id) && after.invitations[id] == inv.(status := EXPIRED))
  {
    HashFindsInvitation(db, id);
    AddressIs(db, db.invitations[id].email);
  }

  lemma UnknownTokenIsRefused(hash: string -> string, db: Db, token: string, passwordOk: bool, auth: Option<Auth>,
                              now: int, txNow: int, newUserId: nat)
    requires token == "" || forall i :: !HasToken(db, i, hash(token))
    ensures var outcome := if token == "" then InvalidInvitationToken else InvitationNotFound;
            && Serve(hash, db, ReqGetInvitation(token, now)) == (db, outcome)
            && Serve(hash, db, ReqAccept(token, passwordOk, auth, now, txNow, newUserId)) == (db, outcome)
  {
    var found := InvitationByHash(db, hash(token));
    assert found.Some? ==> HasToken(db, found.value, hash(token));
  }

  /** Whether the caller is the recipient: signed in with the address's account, or about to make one. */
  ghost predicate IsRecipient(db: Db, email: string, auth: Option<Auth>, passwordOk: bool) {
    if Known(db, email) then auth.Some? && auth.value.email == email && HasAddress(db, auth.value.id, email)
    else passwordOk && (auth.Some? ==> auth.value.email == email)
  }

  /** When an acceptance of a PENDING invitation succeeds, and what it then leaves. */
  lemma AcceptInvitationEffect(hash: string -> string, db: Db, id: nat, token: string, passwordOk: bool,
                               auth: Option<Auth>, now: int, txNow: int, newUserId: nat)
    requires Inv(db) && HasToken(db, id, hash(token)) && db.invitations[id].status == PENDING && token != ""
    ensures var (after, outcome) := Serve(hash, db, ReqAccept(token, passwordOk, auth, now, txNow, newUserId));
            var inv := db.invitations[id];
            && (outcome == Done <==>
                  && now <= inv.expiresAt && txNow <= inv.expiresAt && IsRecipient(db, inv.email, auth, passwordOk)
                  && !AddressBelongs(db, inv.email) && (Known(db, inv.email) || newUserId !in db.users))
            && (outcome == AuthenticationRequired <==> now <= inv.expiresAt && Known(db, inv.email) && auth.None?)
            && (outcome == RecipientMismatch <==>
                  && now <= inv.expiresAt && auth.Some?
                  && (auth.value.email != inv.email
                      || (Known(db, inv.email) && !HasAddress(db, auth.value.id, inv.email))))
            && (outcome == PasswordTooShort <==>
                  && now <= inv.expiresAt && !Known(db, inv.email) && !passwordOk
                  && (auth.Some? ==> auth.value.email == inv.email))
            && (outcome == InvitationExpired <==>
                  now > inv.expiresAt || (txNow > inv.expiresAt && IsRecipient(db, inv.email, auth, passwordOk)))
            && (now > inv.expiresAt ==>
                  OnlyInvitation(db, after, id) && after.invitations[id] == inv.(status := EXPIRED))
            && (now <= inv.expiresAt && outcome != Done ==> after == db)
  {
    HashFindsInvitation(db, id);
    AddressIs(db, db.invitations[id].email);
  }
}
