/**
 The service over its tables: each method checks, then updates the tables in place, and does what its transition says.
 */
module OrganizationServices {
  import opened Common
  import Spec = Organizations
  import opened Organizations

  class OrganizationService {
    const hashToken: string -> string
    var users: map<nat, string>
    var owners: map<nat, nat>
    var members: set<Member>
    var invitations: map<nat, Invitation>

    constructor (hashToken: string -> string)
      ensures this.hashToken == hashToken && Tables() == EMPTY && Inv(Tables())
    {
      this.hashToken := hashToken;
      users, owners, members, invitations := map[], map[], {}, map[];
      new;
      EmptyIsInv();
    }

    ghost function Tables(): Db
      reads this
    {
      Db(users, owners, members, invitations)
    }

    // ---- Queries by unique columns ---------------------------------------------------------------------

    method FindUserByEmail(email: string) returns (u: Option<nat>)
      requires UsersOk(Tables())
      ensures u == UserByEmail(Tables(), email)
    {
      if id :| id in users && users[id] == email {
        return Some(id);
      }
      return None;
    }

    method FindUserMembership(userId: nat) returns (m: Option<Member>)
      requires MembersOk(Tables())
      ensures m == Membership(Tables(), userId)
    {
      if row :| row in members && row.userId == userId {
        return Some(row);
      }
      return None;
    }

    method FindPendingInvitation(organizationId: nat, email: string) returns (i: Option<nat>)
      requires InvitationsOk(Tables())
      ensures i == PendingInvitation(Tables(), organizationId, email)
    {
      if id :| id in invitations && IsPendingFor(invitations[id], organizationId, email) {
        ghost var other := PendingInvitation(Tables(), organizationId, email);
        assert SamePending(invitations[id], invitations[other.value]);
        return Some(id);
      }
      return None;
    }

    method FindInvitationByTokenHash(tokenHash: string) returns (i: Option<nat>)
      requires InvitationsOk(Tables())
      ensures i == InvitationByHash(Tables(), tokenHash)
    {
      if id :| id in invitations && invitations[id].tokenHash == tokenHash {
        return Some(id);
      }
      return None;
    }

    // ---- Organizations -----------------------------------------------------------------------------------

    /** The registration transaction: user, organization and OWNER row together. */
    method Register(userId: nat, email: string, organizationId: nat) returns (o: Outcome)
      requires Inv(Tables())
      modifies this
      ensures (Tables(), o) == Spec.Register(old(Tables()), userId, email, organizationId) && Inv(Tables())
    {
      RegisterKeepsInv(Tables(), userId, email, organizationId);
      var existingUser := FindUserByEmail(email);
      if existingUser.Some? {
        return UserAlreadyExists;
      }
      if userId in users || organizationId in owners {
        return UniqueViolation;
      }
      users := users[userId := email];
      owners := owners[organizationId := userId];
      members := members + {Member(organizationId, userId, OWNER)};
      return Done;
    }

    method CreateOrganization(userId: nat, organizationId: nat) returns (o: Outcome)
      requires Inv(Tables())
      modifies this
      ensures (Tables(), o) == Spec.CreateOrganization(old(Tables()), userId, organizationId) && Inv(Tables())
    {
      CreateOrganizationKeepsInv(Tables(), userId, organizationId);
      var existingMembership := FindUserMembership(userId);
      if existingMembership.Some? {
        return UserAlreadyInOrganization;
      }
      if userId !in users {
        return UserNotFound;
      }
      if organizationId in owners {
        return UniqueViolation;
      }
      owners := owners[organizationId := userId];
      members := members + {Member(organizationId, userId, OWNER)};
      return Done;
    }

    method DeleteOrganization(organizationId: nat) returns (o: Outcome)
      requires Inv(Tables())
      modifies this
      ensures (Tables(), o) == Spec.DeleteOrganization(old(Tables()), organizationId) && Inv(Tables())
    {
      DeleteKeepsInv(Tables(), organizationId);
      if organizationId !in owners {
        return OrganizationNotFound;
      }
      owners := owners - {organizationId};
      members := set m | m in members && m.organizationId != organizationId;
      invitations := map i | i in invitations && invitations[i].organizationId != organizationId :: invitations[i];
      return Done;
    }

    // ---- Members -------------------------------------------------------------------------------------------

    /** `id` and `rawToken` are the new row's id and the fresh random token. */
    method AddMember(organizationId: nat, email: string, role: Role, id: nat, rawToken: string, now: int)
      returns (o: Outcome)
      requires Inv(Tables()) && role != OWNER
      modifies this
      ensures (Tables(), o) == Spec.AddMember(old(Tables()), organizationId, email, role, id, hashToken(rawToken), now)
      ensures Inv(Tables())
    {
      AddMemberKeepsInv(Tables(), organizationId, email, role, id, hashToken(rawToken), now);
      if organizationId !in owners {
        return OrganizationNotFound;
      }
      var user := FindUserByEmail(email);
      if user.Some? {
        var existingMembership := FindUserMembership(user.value);
        if existingMembership.Some? {
          return if existingMembership.value.organizationId == organizationId then MemberAlreadyExists
              else UserAlreadyInOrganization;
        }
      }
      var existingInvitation := FindPendingInvitation(organizationId, email);
      var tokenHash := hashToken(rawToken);
      var expiresAt := now + SEVEN_DAYS;
      if existingInvitation.Some? {
        var i := existingInvitation.value;
        if HashTaken(invitations, tokenHash, i) {
          return UniqueViolation;
        }
        invitations := invitations[i := invitations[i].(tokenHash := tokenHash, expiresAt := expiresAt, role := role,
                                                        status := PENDING)];
      } else {
        if id in invitations || HashTaken(invitations, tokenHash, id) {
          return UniqueViolation;
        }
        invitations := invitations[id := Invitation(organizationId, email, role, tokenHash, PENDING, expiresAt)];
      }
      return Done;
    }

    method UpdateMemberRole(organizationId: nat, targetUserId: nat, role: Role, callerRole: Role) returns (o: Outcome)
      requires Inv(Tables()) && role != OWNER
      modifies this
      ensures (Tables(), o) == Spec.UpdateMemberRole(old(Tables()), organizationId, targetUserId, role, callerRole)
      ensures Inv(Tables())
    {
      UpdateMemberRoleKeepsInv(Tables(), organizationId, targetUserId, role, callerRole);
      var member := FindUserMembership(targetUserId);
      if member.None? || member.value.organizationId != organizationId {
        return MemberNotFound;
      }
      if member.value.role == OWNER {
        return CannotModifyOwnerRole;
      }
      if member.value.role == ADMIN && callerRole != OWNER {
        return InsufficientPermissions;
      }
      if role == ADMIN && callerRole != OWNER {
        return InsufficientPermissions;
      }
      members := members - {member.value} + {member.value.(role := role)};
      return Done;
    }

    method RemoveMember(organizationId: nat, targetUserId: nat, callerRole: Role) returns (o: Outcome)
      requires Inv(Tables())
      modifies this
      ensures (Tables(), o) == Spec.RemoveMember(old(Tables()), organizationId, targetUserId, callerRole)
              && Inv(Tables())
    {
      RemoveMemberKeepsInv(Tables(), organizationId, targetUserId, callerRole);
      var member := FindUserMembership(targetUserId);
      if member.None? || member.value.organizationId != organizationId {
        return MemberNotFound;
      }
      if member.value.role == OWNER {
        return CannotRemoveOwner;
      }
      if member.value.role == ADMIN && callerRole != OWNER {
        return InsufficientPermissions;
      }
      members := members - {member.value};
      return Done;
    }

    // ---- Invitations -----------------------------------------------------------------------------------------

    method UpdateStatus(id: nat, status: Status)
      requires id in invitations
      modifies this
      ensures Tables() == WithStatus(old(Tables()), id, status)
    {
      invitations := invitations[id := invitations[id].(status := status)];
    }

    method GetInvitationByToken(rawToken: string, now: int) returns (o: Outcome)
      requires Inv(Tables())
      modifies this
      ensures (Tables(), o) == Spec.GetInvitationByToken(hashToken, old(Tables()), rawToken, now) && Inv(Tables())
    {
      GetInvitationKeepsInv(hashToken, Tables(), rawToken, now);
      if rawToken == "" {
        return InvalidInvitationToken;
      }
      var found := FindInvitationByTokenHash(hashToken(rawToken));
      if found.None? {
        return InvitationNotFound;
      }
      var invitation := invitations[found.value];
      if invitation.status == ACCEPTED {
        return InvitationAlreadyAccepted;
      }
      if invitation.status == INVALIDATED {
        return InvitationInvalidated;
      }
      if invitation.status == EXPIRED {
        return InvitationExpired;
      }
      if invitation.status != PENDING {
        return InvitationAlreadyUsed;
      }
      if now > invitation.expiresAt {
        UpdateStatus(found.value, EXPIRED);
        return InvitationExpired;
      }
      var existingUser := FindUserByEmail(invitation.email);
      if existingUser.Some? {
        var existingMembership := FindUserMembership(existingUser.value);
        if existingMembership.Some? {
          return if existingMembership.value.organizationId == invitation.organizationId then MemberAlreadyExists
                 else UserAlreadyInOrganization;
        }
      }
      return Done;
    }

    method ResendInvitation(organizationId: nat, id: nat, rawToken: string, now: int) returns (o: Outcome)
      requires Inv(Tables())
      modifies this
      ensures (Tables(), o) == Spec.ResendInvitation(old(Tables()), organizationId, id, hashToken(rawToken), now)
              && Inv(Tables())
    {
      ResendKeepsInv(Tables(), organizationId, id, hashToken(rawToken), now);
      if id !in invitations || invitations[id].organizationId != organizationId {
        return InvitationNotFound;
      }
      if invitations[id].status != PENDING {
        return InvitationNotPending;
      }
      var tokenHash := hashToken(rawToken);
      if HashTaken(invitations, tokenHash, id) {
        return UniqueViolation;
      }
      invitations := invitations[id := invitations[id].(tokenHash := tokenHash, expiresAt := now + SEVEN_DAYS)];
      return Done;
    }

    method RevokeInvitation(organizationId: nat, id: nat) returns (o: Outcome)
      requires Inv(Tables())
      modifies this
      ensures (Tables(), o) == Spec.RevokeInvitation(old(Tables()), organizationId, id) && Inv(Tables())
    {
      if id !in invitations || invitations[id].organizationId != organizationId {
        return InvitationNotFound;
      }
      if invitations[id].status != PENDING {
        return InvitationNotPending;
      }
      ClosingKeepsInv(Tables(), WithStatus(Tables(), id, REVOKED).invitations);
      UpdateStatus(id, REVOKED);
      return Done;
    }

    /** The transaction's checks and writes; on an error the tables are put back as they were. */
    method AcceptInvitationTransaction(id: nat, now: int, newUserId: nat) returns (o: Outcome)
      requires Inv(Tables()) && id in invitations
      modifies this
      ensures (Tables(), o) == Spec.AcceptTransaction(old(Tables()), id, now, newUserId)
    {
      var saved := invitations;
      var invitation := invitations[id];
      if invitation.status == ACCEPTED {
        return InvitationAlreadyAccepted;
      }
      if invitation.status == INVALIDATED {
        return InvitationInvalidated;
      }
      if invitation.status != PENDING {
        return InvitationInvalid;
      }
      if now > invitation.expiresAt {
        UpdateStatus(id, EXPIRED);
        invitations := saved;
        return InvitationExpired;
      }
      var user := FindUserByEmail(invitation.email);
      if user.Some? {
        var existingMembership := FindUserMembership(user.value);
        if existingMembership.Some? {
          return if existingMembership.value.organizationId == invitation.organizationId then MemberAlreadyExists
                 else UserAlreadyInOrganization;
        }
        assert users[user.value := invitation.email] == users;
      } else {
        if newUserId in users {
          return UserAlreadyInOrganization;
        }
        users := users[newUserId := invitation.email];
        user := Some(newUserId);
      }
      Join(id, user.value);
      return Done;
    }

    /** The writes of an acceptance: the membership, this invitation, the recipient's other invitations. */
    method Join(id: nat, userId: nat)
      requires id in invitations && invitations[id].status == PENDING
      modifies this
      ensures users == old(users) && owners == old(owners)
      ensures members == old(members) + {Member(old(invitations)[id].organizationId, userId, old(invitations)[id].role)}
      ensures invitations == Settled(old(invitations), id)
    {
      var invitation := invitations[id];
      members := members + {Member(invitation.organizationId, userId, invitation.role)};
      UpdateStatus(id, ACCEPTED);
      InvalidatePendingInvitationsByEmail(invitation.email, id);
      assert invitations == Settled(old(invitations), id);
    }

    method InvalidatePendingInvitationsByEmail(email: string, excludeInvitationId: nat)
      modifies this`invitations
      ensures invitations.Keys == old(invitations.Keys)
      ensures forall i :: i in invitations ==>
                invitations[i] == if old(invitations)[i].email == email && old(invitations)[i].status == PENDING
                    && i != excludeInvitationId
                                  then old(invitations)[i].(status := INVALIDATED) else old(invitations)[i]
    {
      invitations := map i | i in invitations ::
        if invitations[i].email == email && invitations[i].status == PENDING && i != excludeInvitationId
        then invitations[i].(status := INVALIDATED) else invitations[i];
    }

    method AcceptInvitation(rawToken: string, passwordOk: bool, auth: Option<Auth>, now: int, txNow: int,
                            newUserId: nat)
      returns (o: Outcome)
      requires Inv(Tables())
      modifies this
      ensures (Tables(), o) == Spec.AcceptInvitation(hashToken, old(Tables()), rawToken, passwordOk, auth, now, txNow,
                                                     newUserId)
      ensures Inv(Tables())
    {
      AcceptInvitationKeepsInv(hashToken, Tables(), rawToken, passwordOk, auth, now, txNow, newUserId);
      if rawToken == "" {
        return InvalidInvitationToken;
      }
      var found := FindInvitationByTokenHash(hashToken(rawToken));
      if found.None? {
        return InvitationNotFound;
      }
      var invitation := invitations[found.value];
      if invitation.status == ACCEPTED {
        return InvitationAlreadyAccepted;
      }
      if invitation.status == INVALIDATED {
        return InvitationInvalidated;
      }
      if invitation.status != PENDING {
        return InvitationInvalid;
      }
      if now > invitation.expiresAt {
        UpdateStatus(found.value, EXPIRED);
        return InvitationExpired;
      }
      var existingUser := FindUserByEmail(invitation.email);
      if existingUser.Some? {
        if auth.None? {
          return AuthenticationRequired;
        }
        if auth.value.id != existingUser.value || auth.value.email != invitation.email {
          return RecipientMismatch;
        }
      } else {
        if auth.Some? && auth.value.email != invitation.email {
          return RecipientMismatch;
        }
        if !passwordOk {
          return PasswordTooShort;
        }
      }
      o := AcceptInvitationTransaction(found.value, txNow, newUserId);
    }
  }
}
