/** Tenants, memberships and role assignments: what the two services do to the tables they share. Row ids are drawn
    from a counter, and a unique constraint is kept as its index. */
module TenantRoles {
  import opened Common

  datatype Code =
    | MembersRead | MembersInvite | RolesManage | CustomersRead | CustomersWrite
    | TicketsReadAll | TicketsUpdateAll | TicketsManageWorkflow | TicketsCommentInternal

  const CODES: seq<Code> :=
    [MembersRead, MembersInvite, RolesManage, CustomersRead, CustomersWrite,
     TicketsReadAll, TicketsUpdateAll, TicketsManageWorkflow, TicketsCommentInternal]

  const AGENT_CODES: seq<Code> :=
    [MembersRead, CustomersRead, CustomersWrite,
     TicketsReadAll, TicketsUpdateAll, TicketsManageWorkflow, TicketsCommentInternal]

  const ADMIN := "tenant_admin"
  const AGENT := "agent"
  const REQUESTER := "requester"

  datatype Standing = Invited | Active | Left

  datatype Tenant = Tenant(name: string, slug: string, owner: nat, active: bool)

  /** What a membership, and a role, is unique by. */
  datatype Seat = Seat(tenant: nat, user: nat)

  datatype Role = Role(tenant: nat, name: string)

  datatype Membership = Membership(seat: Seat, standing: Standing, joinedAt: Option<int>)

  /** A row of `role_permissions`, and one of `membership_roles`. */
  datatype Grant = Grant(role: nat, code: Code)

  datatype Holding = Holding(membership: nat, role: nat)

  datatype Database = Database(
    nextId: nat,
    migrated: set<Code>,
    users: map<string, nat>,
    tenants: map<nat, Tenant>,
    memberships: map<nat, Membership>,
    roles: map<nat, Role>,
    grants: set<Grant>,
    holdings: set<Holding>,
    bySlug: map<string, nat>,
    bySeat: map<Seat, nat>,
    byName: map<Role, nat>)

  datatype Error =
    | SlugConflict | NotMigrated | InvitedUserNotFound | InvitationConflict | InvitationNotPending
    | TenantNotFound | MembershipNotActive | OwnerCannotLeave | RoleNotFound | OwnerAdminRoleRequired

  datatype Outcome = Done(id: nat) | Refused(error: Error)

  datatype Result = Result(db: Database, outcome: Outcome)

  // ---- reads ---------------------------------------------------------------------------------

  /** The standing of a user in a tenant. */
  function StandingOf(db: Database, seat: Seat): Option<Standing> {
    if seat in db.bySeat && db.bySeat[seat] in db.memberships then Some(db.memberships[db.bySeat[seat]].standing)
    else None
  }

  predicate IsActive(db: Database, tenant: nat) {
    tenant in db.tenants && db.tenants[tenant].active
  }

  predicate Granted(db: Database, role: nat, code: Code) {
    Grant(role, code) in db.grants
  }

  predicate Held(db: Database, m: nat, role: nat) {
    Holding(m, role) in db.holdings
  }

  /** The permission join: membership roles to roles of the membership's tenant to granted codes. */
  function PermissionsOf(db: Database, m: nat): set<Code>
    requires m in db.memberships
  {
    set g | g in db.grants && Held(db, m, g.role)
            && g.role in db.roles && db.roles[g.role].tenant == db.memberships[m].seat.tenant :: g.code
  }

  // ---- the commands, each one transaction -------------------------------------------------------

  function Grants(role: nat, codes: seq<Code>): set<Grant> {
    set c | c in codes :: Grant(role, c)
  }

  /** Insert a membership with a fresh id. */
  function Joined(db: Database, seat: Seat, standing: Standing, joinedAt: Option<int>): Database {
    db.(nextId := db.nextId + 1,
    memberships := db.memberships[db.nextId := Membership(seat, standing, joinedAt)],
    bySeat := db.bySeat[seat := db.nextId])
  }

  /** Insert a role with a fresh id and its grants. */
  function RoleAdded(db: Database, role: Role, codes: seq<Code>): Database {
    db.(nextId := db.nextId + 1,
    roles := db.roles[db.nextId := role],
    byName := db.byName[role := db.nextId],
    grants := db.grants + Grants(db.nextId, codes))
  }

  function TenantAdded(db: Database, name: string, slug: string, owner: nat): Database {
    db.(nextId := db.nextId + 1,
    tenants := db.tenants[db.nextId := Tenant(name, slug, owner, true)],
    bySlug := db.bySlug[slug := db.nextId])
  }

  /** The three default roles, the first of them given to the owner's membership. */
  function Provisioned(db: Database, tenant: nat, m: nat): Database {
    var admin := RoleAdded(db, Role(tenant, ADMIN), CODES);
    var agent := RoleAdded(admin, Role(tenant, AGENT), AGENT_CODES);
    var requester := RoleAdded(agent, Role(tenant, REQUESTER), []);
    requester.(holdings := requester.holdings + {Holding(m, db.nextId)})
  }

  /** The rows before provisioning: the tenant and its owner's membership. */
  function Opened(db: Database, name: string, slug: string, owner: nat, now: int): Database {
    Joined(TenantAdded(db, name, slug, owner), Seat(db.nextId, owner), Active, Some(now))
  }

  function AfterCreate(db: Database, owner: nat, name: string, slug: string, now: int): Result {
    var slug, n := Lowered(Strip(slug)), db.nextId;
    if slug in db.bySlug then Result(db, Refused(SlugConflict))
    else if db.migrated != (set c | c in CODES) then Result(db, Refused(NotMigrated))
    else Result(Provisioned(Opened(db, Strip(name), slug, owner, now), n, n + 1), Done(n))
  }

  /** Delete the roles of membership `m`, then insert `roles` for it. */
  function Reassigned(db: Database, m: nat, roles: set<nat>): Database {
    db.(holdings := (set h | h in db.holdings && h.membership != m) + (set r | r in roles :: Holding(m, r)))
  }

  function Moved(db: Database, m: nat, standing: Standing, joinedAt: Option<int>): Database
    requires m in db.memberships
  {
    db.(memberships := db.memberships[m := db.memberships[m].(standing := standing, joinedAt := joinedAt)])
  }

  function AfterInvite(db: Database, tenant: nat, email: string): Result {
    var email := Lowered(Strip(email));
    if email !in db.users then Result(db, Refused(InvitedUserNotFound))
    else
      var seat := Seat(tenant, db.users[email]);
      var standing := StandingOf(db, seat);
      if standing.Some? && standing != Some(Left) then Result(db, Refused(InvitationConflict))
      else if Role(tenant, REQUESTER) !in db.byName then Result(db, Refused(RoleNotFound))
      else
        var m := if standing.Some? then db.bySeat[seat] else db.nextId;
        var invited := if standing.Some? then Moved(db, m, Invited, None) else Joined(db, seat, Invited, None);
        Result(Reassigned(invited, m, {db.byName[Role(tenant, REQUESTER)]}), Done(m))
  }

  function AfterAccept(db: Database, user: nat, tenant: nat, now: int): Result {
    var standing := StandingOf(db, Seat(tenant, user));
    if standing.None? then Result(db, Refused(TenantNotFound))
    else if standing != Some(Invited) then Result(db, Refused(InvitationNotPending))
    else if !IsActive(db, tenant) then Result(db, Refused(TenantNotFound))
    else
      var m := db.bySeat[Seat(tenant, user)];
      Result(Moved(db, m, Active, Some(now)), Done(m))
  }

  function AfterLeave(db: Database, user: nat, tenant: nat): Result {
    if StandingOf(db, Seat(tenant, user)) != Some(Active) then Result(db, Refused(MembershipNotActive))
    else if !IsActive(db, tenant) then Result(db, Refused(TenantNotFound))
    else if db.tenants[tenant].owner == user then Result(db, Refused(OwnerCannotLeave))
    else
      var m := db.bySeat[Seat(tenant, user)];
      Result(Moved(db, m, Left, db.memberships[m].joinedAt), Done(m))
  }

  /** The roles of the tenant among the ids asked for. */
  function Chosen(db: Database, tenant: nat, ids: seq<nat>): set<nat> {
    set r | r in db.roles && db.roles[r].tenant == tenant && r in ids
  }

  /** The ids asked for, repetitions aside. */
  function Asked(ids: seq<nat>): set<nat> {
    set r | r in ids
  }

  predicate NamesAdmin(db: Database, chosen: set<nat>) {
    exists r :: r in chosen && r in db.roles && db.roles[r].name == ADMIN
  }

  function AfterAssign(db: Database, tenant: nat, m: nat, ids: seq<nat>): Result {
    var chosen := Chosen(db, tenant, ids);
    if tenant !in db.tenants || m !in db.memberships || db.memberships[m].seat.tenant != tenant
    then Result(db, Refused(RoleNotFound))
    else if |chosen| != |Asked(ids)| then Result(db, Refused(RoleNotFound))
      else if db.memberships[m].seat.user == db.tenants[tenant].owner && !NamesAdmin(db, chosen)
      then Result(db, Refused(OwnerAdminRoleRequired))
      else Result(Reassigned(db, m, chosen), Done(m))
  }

  datatype Command =
    | CreateTenant(owner: nat, name: string, slug: string, now: int)
    | InviteUser(tenant: nat, email: string)
    | AcceptInvitation(user: nat, tenant: nat, now: int)
    | LeaveTenant(user: nat, tenant: nat)
    | Assign(tenant: nat, membership: nat, roleIds: seq<nat>)
      // Not of these services: an account appears, an operator switches a tenant on or off.
    | Register(email: string, user: nat)
    | Switch(tenant: nat, active: bool)

  /** The memberships whose cached permissions the program deletes after the commit. */
  function Invalidates(c: Command, o: Outcome): seq<nat> {
    if o.Done? && (c.InviteUser? || c.AcceptInvitation? || c.LeaveTenant? || c.Assign?) then [o.id] else []
  }

  function Switched(db: Database, tenant: nat, active: bool): Database {
    if tenant in db.tenants then db.(tenants := db.tenants[tenant := db.tenants[tenant].(active := active)]) else db
  }

  function Perform(db: Database, c: Command): Result {
    match c
    case CreateTenant(owner, name, slug, now) => AfterCreate(db, owner, name, slug, now)
    case InviteUser(tenant, email) => AfterInvite(db, tenant, email)
    case AcceptInvitation(user, tenant, now) => AfterAccept(db, user, tenant, now)
    case LeaveTenant(user, tenant) => AfterLeave(db, user, tenant)
    case Assign(tenant, m, ids) => AfterAssign(db, tenant, m, ids)
    case Register(email, user) =>
      Result(if email in db.users then db else db.(users := db.users[email := user]), Done(user))
    case Switch(tenant, active) => Result(Switched(db, tenant, active), Done(tenant))
  }

  function Run(db: Database, cs: seq<Command>): Database
    decreases |cs|
  {
    if cs == [] then db else Run(Perform(db, cs[0]).db, cs[1..])
  }

  function Empty(migrated: set<Code>): Database {
    Database(0, migrated, map[], map[], map[], map[], {}, {}, map[], map[], map[])
  }

  /** What provisioning does to the tables it writes. */
  lemma ProvisionedShape(db: Database, tenant: nat, m: nat)
    ensures var e, n := Provisioned(db, tenant, m), db.nextId;
            && e.roles == db.roles[n := Role(tenant, ADMIN)]
                          [n + 1 := Role(tenant, AGENT)][n + 2 := Role(tenant, REQUESTER)]
            && e.byName == db.byName[Role(tenant, ADMIN) := n]
                           [Role(tenant, AGENT) := n + 1][Role(tenant, REQUESTER) := n + 2]
            && e.grants == db.grants + Grants(n, CODES) + Grants(n + 1, AGENT_CODES)
            && e == db.(nextId := n + 3, roles := e.roles, byName := e.byName, grants := e.grants,
                    holdings := db.holdings + {Holding(m, n)})
  {
    assert Grants(db.nextId + 2, []) == {};
  }

  // ---- the services ------------------------------------------------------------------------------

  /** The tables as the two services change them, row by row and then committed. */
  class TenantService {
    var nextId: nat
    var migrated: set<Code>
    var users: map<string, nat>
    var tenants: map<nat, Tenant>
    var memberships: map<nat, Membership>
    var roles: map<nat, Role>
    var grants: set<Grant>
    var holdings: set<Holding>
    var bySlug: map<string, nat>
    var bySeat: map<Seat, nat>
    var byName: map<Role, nat>
    /** The memberships whose cached permissions were deleted, or would have been but for the cache. */
    var invalidated: seq<nat>

    constructor (codes: set<Code>)
      ensures Db() == Empty(codes) && invalidated == []
    {
      nextId, migrated, users, tenants, memberships, roles := 0, codes, map[], map[], map[], map[];
      grants, holdings, bySlug, bySeat, byName, invalidated := {}, {}, map[], map[], map[], [];
    }

    function Db(): Database
      reads this
    {
      Database(nextId, migrated, users, tenants, memberships, roles, grants, holdings, bySlug, bySeat, byName)
    }

    method AddRole(role: Role) returns (id: nat)
      modifies this
      ensures id == old(nextId) && Db() == RoleAdded(old(Db()), role, [])
      ensures invalidated == old(invalidated)
    {
      id := nextId;
      nextId, roles, byName := nextId + 1, roles[id := role], byName[role := id];
      assert grants == grants + Grants(id, []);
    }

    method AddGrants(role: nat, codes: seq<Code>)
      modifies this
      ensures Db() == old(Db()).(grants := old(grants) + Grants(role, codes))
      ensures invalidated == old(invalidated)
    {
      for i := 0 to |codes|
        invariant Db() == old(Db()).(grants := old(grants) + Grants(role, codes[..i]))
        invariant invalidated == old(invalidated)
      {
        grants := grants + {Grant(role, codes[i])};
        assert codes[..i + 1] == codes[..i] + [codes[i]];
      }
      assert codes[..|codes|] == codes;
    }

    method ProvisionDefaults(tenant: nat, m: nat)
      modifies this
      ensures Db() == Provisioned(old(Db()), tenant, m)
      ensures invalidated == old(invalidated)
    {
      var admin := AddRole(Role(tenant, ADMIN));
      var agent := AddRole(Role(tenant, AGENT));
      var requester := AddRole(Role(tenant, REQUESTER));
      AddGrants(admin, CODES);
      AddGrants(agent, AGENT_CODES);
      holdings := holdings + {Holding(m, admin)};
      ProvisionedShape(old(Db()), tenant, m);
    }

    method AddTenant(name: string, slug: string, owner: nat) returns (id: nat)
      modifies this
      ensures id == old(nextId) && Db() == TenantAdded(old(Db()), name, slug, owner)
      ensures invalidated == old(invalidated)
    {
      id := nextId;
      nextId, tenants, bySlug := id + 1, tenants[id := Tenant(name, slug, owner, true)], bySlug[slug := id];
    }

    method AddMembership(seat: Seat, standing: Standing, joinedAt: Option<int>) returns (id: nat)
      modifies this
      ensures id == old(nextId) && Db() == Joined(old(Db()), seat, standing, joinedAt)
      ensures invalidated == old(invalidated)
    {
      id := nextId;
      nextId, memberships, bySeat := id + 1, memberships[id := Membership(seat, standing, joinedAt)],
                                     bySeat[seat := id];
    }

    method Create(owner: nat, name: string, slug: string, now: int) returns (o: Outcome)
      modifies this
      ensures Result(Db(), o) == AfterCreate(old(Db()), owner, name, slug, now)
      ensures invalidated == old(invalidated) + Invalidates(CreateTenant(owner, name, slug, now), o)
    {
      var slug := Lowered(Strip(slug));
      if slug in bySlug {
        return Refused(SlugConflict);
      }
      if migrated != (set c | c in CODES) {
        return Refused(NotMigrated);
      }
      var t := AddTenant(Strip(name), slug, owner);
      var m := AddMembership(Seat(t, owner), Active, Some(now));
      ProvisionDefaults(t, m);
      o := Done(t);
    }

    /** Delete the membership's roles, then give it `chosen`. */
    method ReplaceRoles(m: nat, chosen: set<nat>)
      modifies this
      ensures Db() == Reassigned(old(Db()), m, chosen)
      ensures invalidated == old(invalidated)
    {
      holdings := set h | h in holdings && h.membership != m;
      holdings := holdings + set r | r in chosen :: Holding(m, r);
    }

    method Invite(tenant: nat, email: string) returns (o: Outcome)
      modifies this
      ensures Result(Db(), o) == AfterInvite(old(Db()), tenant, email)
      ensures invalidated == old(invalidated) + Invalidates(InviteUser(tenant, email), o)
    {
      var email := Lowered(Strip(email));
      if email !in users {
        return Refused(InvitedUserNotFound);
      }
      var seat := Seat(tenant, users[email]);
      var known := seat in bySeat && bySeat[seat] in memberships;
      if known && memberships[bySeat[seat]].standing != Left {
        return Refused(InvitationConflict);
      }
      if Role(tenant, REQUESTER) !in byName {
        return Refused(RoleNotFound);
      }
      var m: nat;
      if known {
        m := bySeat[seat];
        memberships := memberships[m := memberships[m].(standing := Invited, joinedAt := None)];
      } else {
        m := AddMembership(seat, Invited, None);
      }
      ReplaceRoles(m, {byName[Role(tenant, REQUESTER)]});
      invalidated := invalidated + [m];
      o := Done(m);
    }

    method AcceptInvitation(user: nat, tenant: nat, now: int) returns (o: Outcome)
      modifies this
      ensures Result(Db(), o) == AfterAccept(old(Db()), user, tenant, now)
      ensures invalidated == old(invalidated) + Invalidates(Command.AcceptInvitation(user, tenant, now), o)
    {
      var seat := Seat(tenant, user);
      if seat !in bySeat || bySeat[seat] !in memberships {
        return Refused(TenantNotFound);
      }
      var m := bySeat[seat];
      if memberships[m].standing != Invited {
        return Refused(InvitationNotPending);
      }
      if tenant !in tenants || !tenants[tenant].active {
        return Refused(TenantNotFound);
      }
      memberships := memberships[m := memberships[m].(standing := Active, joinedAt := Some(now))];
      invalidated := invalidated + [m];
      o := Done(m);
    }

    method Leave(user: nat, tenant: nat) returns (o: Outcome)
      modifies this
      ensures Result(Db(), o) == AfterLeave(old(Db()), user, tenant)
      ensures invalidated == old(invalidated) + Invalidates(LeaveTenant(user, tenant), o)
    {
      var seat := Seat(tenant, user);
      if seat !in bySeat || bySeat[seat] !in memberships || memberships[bySeat[seat]].standing != Active {
        return Refused(MembershipNotActive);
      }
      if tenant !in tenants || !tenants[tenant].active {
        return Refused(TenantNotFound);
      }
      if tenants[tenant].owner == user {
        return Refused(OwnerCannotLeave);
      }
      var m := bySeat[seat];
      memberships := memberships[m := memberships[m].(standing := Left)];
      invalidated := invalidated + [m];
      o := Done(m);
    }

    method AssignRoles(tenant: nat, m: nat, ids: seq<nat>) returns (o: Outcome)
      modifies this
      ensures Result(Db(), o) == AfterAssign(old(Db()), tenant, m, ids)
      ensures invalidated == old(invalidated) + Invalidates(Assign(tenant, m, ids), o)
    {
      if tenant !in tenants || m !in memberships || memberships[m].seat.tenant != tenant {
        return Refused(RoleNotFound);
      }
      var chosen := set r | r in roles && roles[r].tenant == tenant && r in ids;
      assert chosen == Chosen(Db(), tenant, ids);
      if |chosen| != |Asked(ids)| {
        return Refused(RoleNotFound);
      }
      if memberships[m].seat.user == tenants[tenant].owner
         && !(exists r :: r in chosen && r in roles && roles[r].name == ADMIN) {
        return Refused(OwnerAdminRoleRequired);
      }
      ReplaceRoles(m, chosen);
      invalidated := invalidated + [m];
      o := Done(m);
    }
  }
}
