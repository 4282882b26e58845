/** Exactly when each command on tenants and memberships goes through, why it is refused, and what it leaves,
    column by column. */
module TenantOutcomes {
  import opened Common
  import opened TenantRoles
  import opened TenantOwnership

  /** The member's row, if the user has one in the tenant. */
  predicate HasRow(db: Database, tenant: nat, user: nat) {
    Seat(tenant, user) in db.bySeat && db.bySeat[Seat(tenant, user)] in db.memberships
  }

  function RowOf(db: Database, tenant: nat, user: nat): Membership
    requires HasRow(db, tenant, user)
  {
    db.memberships[db.bySeat[Seat(tenant, user)]]
  }

  /** Creating takes a slug nobody has and all nine permission rows. It adds one active tenant and, as its
      first member, the owner, who joins at that moment. */
  lemma CreatedExactlyWhen(db: Database, owner: nat, name: string, slug: string, now: int)
    ensures var r, folded, n := AfterCreate(db, owner, name, slug, now), Lowered(Strip(slug)), db.nextId;
            && (r.outcome.Done? <==> folded !in db.bySlug && forall c: Code :: c in db.migrated)
            && (r.outcome == Refused(SlugConflict) <==> folded in db.bySlug)
            && (r.outcome.Refused? && folded !in db.bySlug ==> r.outcome == Refused(NotMigrated))
            && (r.outcome.Refused? ==> r.db == db)
            && (r.outcome.Done? ==>
                  && r.outcome.id == n
                  && r.db.tenants == db.tenants[n := Tenant(Strip(name), folded, owner, true)]
                  && r.db.bySlug == db.bySlug[folded := n]
                  && r.db.memberships == db.memberships[n + 1 := Membership(Seat(n, owner), Active, Some(now))]
                  && r.db.bySeat == db.bySeat[Seat(n, owner) := n + 1]
                  && r.db.users == db.users && r.db.migrated == db.migrated)
  {
    hide Lowered, Strip, Provisioned;
    forall c: Code ensures c in CODES {
      EveryCode(c);
    }
    if forall c: Code :: c in db.migrated {
      assert db.migrated == set c | c in CODES;
    }
    var e := Opened(db, Strip(name), Lowered(Strip(slug)), owner, now);
    ProvisionedShape(e, db.nextId, db.nextId + 1);
  }

  /** Inviting takes a known user who is not in the tenant, or who left it. The row is then invited and has no
      joining time, and holds the requester role and no other. */
  lemma InvitedExactlyWhen(db: Database, tenant: nat, email: string)
    ensures var r, folded := AfterInvite(db, tenant, email), Lowered(Strip(email));
            var known := folded in db.users;
            var free := known && (HasRow(db, tenant, db.users[folded]) ==>
                                    RowOf(db, tenant, db.users[folded]).standing == Left);
            var role := Role(tenant, "requester");
            && (r.outcome.Done? <==> known && free && role in db.byName)
            && (r.outcome == Refused(InvitedUserNotFound) <==> !known)
            && (r.outcome == Refused(InvitationConflict) <==> known && !free)
            && (r.outcome == Refused(RoleNotFound) <==> known && free && role !in db.byName)
            && (r.outcome.Refused? ==> r.db == db)
            && (r.outcome.Done? ==>
                  var m, seat := r.outcome.id, Seat(tenant, db.users[folded]);
                  && m == (if HasRow(db, tenant, seat.user) then db.bySeat[seat] else db.nextId)
                  && r.db.memberships.Keys == db.memberships.Keys + {m}
                  && r.db.memberships[m].standing == Invited && r.db.memberships[m].joinedAt == None
                  && r.db.memberships[m].seat == (if m in db.memberships && HasRow(db, tenant, seat.user)
                                                  then db.memberships[m].seat else seat)
                  && (forall role: nat :: Held(r.db, m, role) <==> role == db.byName[Role(tenant, "requester")])
                  && r.db.roles == db.roles && r.db.grants == db.grants && r.db.tenants == db.tenants)
  {
  }

  /** Accepting takes an invitation to a tenant that is switched on; the member is then active, and joined now. */
  lemma AcceptedExactlyWhen(db: Database, user: nat, tenant: nat, now: int)
    ensures var r := AfterAccept(db, user, tenant, now);
            var member := HasRow(db, tenant, user);
            var open := tenant in db.tenants && db.tenants[tenant].active;
            && (r.outcome.Done? <==> member && RowOf(db, tenant, user).standing == Invited && open)
            && (r.outcome == Refused(InvitationNotPending) <==> member && RowOf(db, tenant, user).standing != Invited)
            && (r.outcome == Refused(TenantNotFound) <==>
                !member || (RowOf(db, tenant, user).standing == Invited && !open))
            && (r.outcome.Refused? ==> r.db == db)
            && (r.outcome.Done? ==>
                  && r.outcome.id == db.bySeat[Seat(tenant, user)]
                  && r.db == db.(memberships := db.memberships[r.outcome.id :=
                             Membership(RowOf(db, tenant, user).seat, Active, Some(now))]))
  {
  }

  /** Leaving takes an active member, other than the owner, of a tenant that is switched on; the joining time
      stays on record. */
  lemma LeftExactlyWhen(db: Database, user: nat, tenant: nat)
    ensures var r := AfterLeave(db, user, tenant);
            var member := HasRow(db, tenant, user) && RowOf(db, tenant, user).standing == Active;
            var open := tenant in db.tenants && db.tenants[tenant].active;
            && (r.outcome.Done? <==> member && open && db.tenants[tenant].owner != user)
            && (r.outcome == Refused(MembershipNotActive) <==> !member)
            && (r.outcome == Refused(TenantNotFound) <==> member && !open)
            && (r.outcome == Refused(OwnerCannotLeave) <==> member && open && db.tenants[tenant].owner == user)
            && (r.outcome.Refused? ==> r.db == db)
            && (r.outcome.Done? ==>
                  && r.outcome.id == db.bySeat[Seat(tenant, user)]
                  && r.db == db.(memberships := db.memberships[r.outcome.id :=
                             Membership(RowOf(db, tenant, user).seat, Left, RowOf(db, tenant, user).joinedAt)]))
  {
  }

  /** An assignment is refused for a membership or an id of another tenant before the owner's role is looked at;
      one that goes through changes the holdings alone. */
  lemma AssignmentRefusedExactlyWhen(db: Database, tenant: nat, m: nat, ids: seq<nat>)
    ensures var r := AfterAssign(db, tenant, m, ids);
            var fits := && tenant in db.tenants && m in db.memberships && db.memberships[m].seat.tenant == tenant
                        && forall id | id in ids :: id in db.roles && db.roles[id].tenant == tenant;
            && (r.outcome == Refused(RoleNotFound) <==> !fits)
            && (r.outcome == Refused(OwnerAdminRoleRequired) <==>
                && fits && db.memberships[m].seat.user == db.tenants[tenant].owner
                && !exists id :: id in ids && db.roles[id].name == "tenant_admin")
            && (r.outcome.Refused? ==> r.db == db)
            && (r.outcome.Done? ==> r.outcome.id == m && r.db == db.(holdings := r.db.holdings))
  {
    CountsDecide(db, tenant, ids);
    if forall id | id in ids :: id in db.roles && db.roles[id].tenant == tenant {
      assert forall id :: id in Chosen(db, tenant, ids) <==> id in ids;
    }
  }

  /** An account that appears and a tenant switched on or off change that row alone. */
  lemma OutsideChanges(db: Database, email: string, user: nat, tenant: nat, active: bool)
    ensures Perform(db, Register(email, user)).db
         == db.(users := if email in db.users then db.users else db.users[email := user])
    ensures var after := Perform(db, Switch(tenant, active)).db;
            && after == db.(tenants := after.tenants) && after.tenants.Keys == db.tenants.Keys
            && forall t :: t in db.tenants ==>
                             after.tenants[t] == if t == tenant then db.tenants[t].(active := active) else db.tenants[t]
  {
  }

  /** The permission join, read off the tables: a code is a member's exactly when some role of its tenant that it
      holds grants that code. */
  lemma PermittedExactlyWhen(db: Database, m: nat, code: Code)
    requires m in db.memberships
    ensures code in PermissionsOf(db, m) <==>
            exists r: nat {:trigger Holding(m, r)} ::
              r in db.roles && db.roles[r].tenant == db.memberships[m].seat.tenant
              && Holding(m, r) in db.holdings && Grant(r, code) in db.grants
  {
    if code in PermissionsOf(db, m) {
      var g :| g in db.grants && Held(db, m, g.role)
               && g.role in db.roles && db.roles[g.role].tenant == db.memberships[m].seat.tenant && g.code == code;
      assert g == Grant(g.role, code) && Holding(m, g.role) in db.holdings;
    }
    if r: nat :| r in db.roles && db.roles[r].tenant == db.memberships[m].seat.tenant
                 && Holding(m, r) in db.holdings && Grant(r, code) in db.grants {
      assert Held(db, m, Grant(r, code).role);
    }
  }

  /** The whole course of a new member, in a tenant that is switched on: every step goes through, and at the end
      the row has its joining time and the roles last assigned are still on record. */
  lemma AMemberComesAndGoes(db: Database, tenant: nat, email: string, ids: seq<nat>, now: int)
    requires Sound(db) && tenant in db.tenants && db.tenants[tenant].active
    requires Lowered(Strip(email)) in db.users && !HasRow(db, tenant, db.users[Lowered(Strip(email))])
    requires db.users[Lowered(Strip(email))] != db.tenants[tenant].owner
    requires forall r | r in ids :: r in db.roles && db.roles[r].tenant == tenant
    ensures AfterInvite(db, tenant, email).outcome.Done?
    ensures var user, invited := db.users[Lowered(Strip(email))], AfterInvite(db, tenant, email);
            var m, joined := invited.outcome.id, AfterAccept(invited.db, user, tenant, now);
            var given := AfterAssign(joined.db, tenant, m, ids);
            var gone := AfterLeave(given.db, user, tenant);
            && joined.outcome.Done? && given.outcome.Done? && gone.outcome.Done?
            && m in gone.db.memberships && gone.db.memberships[m] == Membership(Seat(tenant, user), Left, Some(now))
            && forall r: nat :: Held(gone.db, m, r) <==> r in ids
  {
    hide AfterInvite, AfterAccept, AfterAssign, AfterLeave, Inside, Indexed, Lowered, Strip;
    var user := db.users[Lowered(Strip(email))];
    assert Home(db, tenant);
    InvitedExactlyWhen(db, tenant, email);
    var invited := AfterInvite(db, tenant, email);
    NewSeat(db, tenant, email);
    hide Home, Homes;
    AcceptedExactlyWhen(invited.db, user, tenant, now);
    var joined := AfterAccept(invited.db, user, tenant, now);
    AssignedExactlyWhen(joined.db, tenant, invited.outcome.id, ids);
    AssignmentRefusedExactlyWhen(joined.db, tenant, invited.outcome.id, ids);
    var given := AfterAssign(joined.db, tenant, invited.outcome.id, ids);
    LeftExactlyWhen(given.db, user, tenant);
    forall r: nat ensures Held(given.db, invited.outcome.id, r) <==> r in ids {
      AssignedHoldsExactly(joined.db, tenant, invited.outcome.id, ids, invited.outcome.id, r);
    }
  }

  lemma NewSeat(db: Database, tenant: nat, email: string)
    requires Lowered(Strip(email)) in db.users && !HasRow(db, tenant, db.users[Lowered(Strip(email))])
    requires AfterInvite(db, tenant, email).outcome.Done?
    ensures var r, user := AfterInvite(db, tenant, email), db.users[Lowered(Strip(email))];
            && HasRow(r.db, tenant, user) && r.db.bySeat[Seat(tenant, user)] == r.outcome.id
            && r.db.tenants == db.tenants && r.db.roles == db.roles
            && RowOf(r.db, tenant, user).seat == Seat(tenant, user)
  {
  }
}
