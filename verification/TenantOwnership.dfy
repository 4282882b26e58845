/** The ownership and isolation rules that hold across tenants, memberships and role assignments. */
module TenantOwnership {
  import opened Common
  import opened TenantRoles

  // ---- the invariant -----------------------------------------------------------------------------

  /** Every row refers to rows of its own tenant. */
  ghost predicate Inside(db: Database) {
    && (forall t | t in db.tenants :: t < db.nextId)
    && (forall m | m in db.memberships :: m < db.nextId && db.memberships[m].seat.tenant in db.tenants)
    && (forall r | r in db.roles :: r < db.nextId && db.roles[r].tenant in db.tenants)
    && (forall g | g in db.grants :: g.role in db.roles)
    && (forall h | h in db.holdings :: h.membership in db.memberships && h.role in db.roles
                                       && db.roles[h.role].tenant == db.memberships[h.membership].seat.tenant)
  }

  /** An index is that of the rows, so no two rows share a key. */
  ghost predicate SlugIndex(tenants: map<nat, Tenant>, bySlug: map<string, nat>) {
    && (forall t | t in tenants :: tenants[t].slug in bySlug && bySlug[tenants[t].slug] == t)
    && (forall k | k in bySlug :: bySlug[k] in tenants && tenants[bySlug[k]].slug == k)
  }

  ghost predicate SeatIndex(memberships: map<nat, Membership>, bySeat: map<Seat, nat>) {
    && (forall m | m in memberships :: memberships[m].seat in bySeat && bySeat[memberships[m].seat] == m)
    && (forall k | k in bySeat :: bySeat[k] in memberships && memberships[bySeat[k]].seat == k)
  }

  ghost predicate NameIndex(roles: map<nat, Role>, byName: map<Role, nat>) {
    && (forall r | r in roles :: roles[r] in byName && byName[roles[r]] == r)
    && (forall k | k in byName :: byName[k] in roles && roles[byName[k]] == k)
  }

  ghost predicate Indexed(db: Database) {
    SlugIndex(db.tenants, db.bySlug) && SeatIndex(db.memberships, db.bySeat) && NameIndex(db.roles, db.byName)
  }

  /** A tenant has its three default roles, and its owner is active and holds the first. */
  ghost predicate Home(db: Database, t: nat)
    requires t in db.tenants
  {
    var owner, admin := Seat(t, db.tenants[t].owner), Role(t, ADMIN);
    && StandingOf(db, owner) == Some(Active)
    && admin in db.byName && Role(t, AGENT) in db.byName && Role(t, REQUESTER) in db.byName
    && Held(db, db.bySeat[owner], db.byName[admin])
    && (forall c: Code :: Granted(db, db.byName[admin], c))
    && (forall c: Code :: Granted(db, db.byName[Role(t, AGENT)], c) <==> c in AGENT_CODES)
    && (forall c: Code :: !Granted(db, db.byName[Role(t, REQUESTER)], c))
  }

  ghost predicate Homes(db: Database) {
    forall t {:trigger Home(db, t)} | t in db.tenants :: Home(db, t)
  }

  ghost predicate Sound(db: Database) {
    Inside(db) && Indexed(db) && Homes(db)
  }

  lemma EveryCode(c: Code)
    ensures c in CODES
  {
  }

  /** A tenant whose rows are as they were still has its home. */
  lemma HomeStays(db: Database, e: Database, t: nat)
    requires t in db.tenants && Home(db, t)
    requires t in e.tenants && e.tenants[t].owner == db.tenants[t].owner
    requires var seat := Seat(t, db.tenants[t].owner);
             && StandingOf(e, seat) == Some(Active) && e.bySeat[seat] == db.bySeat[seat]
             && Held(e, db.bySeat[seat], db.byName[Role(t, ADMIN)])
    requires e.byName == db.byName && e.grants == db.grants
    ensures Home(e, t)
  {
    assert forall r, c :: Granted(e, r, c) == Granted(db, r, c);
  }

  lemma JoinedKeepsInside(db: Database, seat: Seat, standing: Standing, joinedAt: Option<int>)
    requires Inside(db) && SeatIndex(db.memberships, db.bySeat) && seat.tenant in db.tenants && seat !in db.bySeat
    ensures var e := Joined(db, seat, standing, joinedAt); Inside(e) && SeatIndex(e.memberships, e.bySeat)
  {
  }

  lemma JoinedKeepsHome(db: Database, seat: Seat, standing: Standing, joinedAt: Option<int>, t: nat)
    requires seat !in db.bySeat && db.nextId !in db.memberships && t in db.tenants && Home(db, t)
    ensures Home(Joined(db, seat, standing, joinedAt), t)
  {
    HomeStays(db, Joined(db, seat, standing, joinedAt), t);
  }

  lemma JoinedKeepsSound(db: Database, seat: Seat, standing: Standing, joinedAt: Option<int>)
    requires Sound(db) && seat.tenant in db.tenants && seat !in db.bySeat
    ensures Sound(Joined(db, seat, standing, joinedAt))
  {
    JoinedKeepsInside(db, seat, standing, joinedAt);
    forall t | t in db.tenants ensures Home(Joined(db, seat, standing, joinedAt), t) {
      JoinedKeepsHome(db, seat, standing, joinedAt, t);
    }
  }

  lemma MovedKeepsInside(db: Database, m: nat, standing: Standing, joinedAt: Option<int>)
    requires Inside(db) && SeatIndex(db.memberships, db.bySeat) && m in db.memberships
    ensures var e := Moved(db, m, standing, joinedAt); Inside(e) && SeatIndex(e.memberships, e.bySeat)
  {
  }

  lemma MovedKeepsHome(db: Database, m: nat, standing: Standing, joinedAt: Option<int>, t: nat)
    requires m in db.memberships && t in db.tenants && Home(db, t)
    requires db.bySeat[Seat(t, db.tenants[t].owner)] == m ==> standing == Active
    ensures Home(Moved(db, m, standing, joinedAt), t)
  {
    HomeStays(db, Moved(db, m, standing, joinedAt), t);
  }

  lemma MovedKeepsSound(db: Database, m: nat, standing: Standing, joinedAt: Option<int>)
    requires Sound(db) && m in db.memberships
    requires standing != Active ==> db.memberships[m].seat.user != db.tenants[db.memberships[m].seat.tenant].owner
    ensures Sound(Moved(db, m, standing, joinedAt))
  {
    MovedKeepsInside(db, m, standing, joinedAt);
    forall t | t in db.tenants ensures Home(Moved(db, m, standing, joinedAt), t) {
      assert Home(db, t);
      MovedKeepsHome(db, m, standing, joinedAt, t);
    }
  }

  lemma ReassignedKeepsInside(db: Database, m: nat, roles: set<nat>)
    requires Inside(db) && m in db.memberships
    requires forall r | r in roles :: r in db.roles && db.roles[r].tenant == db.memberships[m].seat.tenant
    ensures Inside(Reassigned(db, m, roles))
  {
  }

  lemma ReassignedKeepsHome(db: Database, m: nat, roles: set<nat>, t: nat)
    requires t in db.tenants && Home(db, t)
    requires db.bySeat[Seat(t, db.tenants[t].owner)] == m ==> db.byName[Role(t, ADMIN)] in roles
    ensures Home(Reassigned(db, m, roles), t)
  {
    HomeStays(db, Reassigned(db, m, roles), t);
  }

  lemma ReassignedKeepsSound(db: Database, m: nat, roles: set<nat>)
    requires Sound(db) && m in db.memberships
    requires forall r | r in roles :: r in db.roles && db.roles[r].tenant == db.memberships[m].seat.tenant
    requires db.memberships[m].seat.user == db.tenants[db.memberships[m].seat.tenant].owner ==> NamesAdmin(db, roles)
    ensures Sound(Reassigned(db, m, roles))
  {
    ReassignedKeepsInside(db, m, roles);
    forall t | t in db.tenants ensures Home(Reassigned(db, m, roles), t) {
      assert Home(db, t);
      if m == db.bySeat[Seat(t, db.tenants[t].owner)] {
        var r :| r in roles && r in db.roles && db.roles[r].name == ADMIN;
        assert db.roles[r] == Role(t, ADMIN);
      }
      ReassignedKeepsHome(db, m, roles, t);
    }
  }

  lemma SwitchKeepsInside(db: Database, tenant: nat, active: bool)
    requires Inside(db) && SlugIndex(db.tenants, db.bySlug)
    ensures var e := Switched(db, tenant, active); Inside(e) && SlugIndex(e.tenants, e.bySlug)
  {
  }

  lemma SwitchKeepsHome(db: Database, tenant: nat, active: bool, t: nat)
    requires t in db.tenants && Home(db, t)
    ensures Home(Switched(db, tenant, active), t)
  {
    HomeStays(db, Switched(db, tenant, active), t);
  }

  lemma SwitchKeepsSound(db: Database, tenant: nat, active: bool)
    requires Sound(db)
    ensures Sound(Switched(db, tenant, active))
  {
    hide Inside, SlugIndex, SeatIndex, NameIndex, Home;
    SwitchKeepsInside(db, tenant, active);
    forall t | t in db.tenants ensures Home(Switched(db, tenant, active), t) {
      assert Home(db, t);
      SwitchKeepsHome(db, tenant, active, t);
    }
  }

  lemma RegisterKeepsSound(db: Database, users: map<string, nat>)
    requires Sound(db)
    ensures Sound(db.(users := users))
  {
    hide SlugIndex, SeatIndex, NameIndex;
    var e := db.(users := users);
    assert Inside(e);
    forall t | t in db.tenants ensures Home(e, t) {
      assert Home(db, t);
      HomeStays(db, e, t);
    }
  }

  // ---- a new tenant --------------------------------------------------------------------------------

  lemma TenantAddedKeepsInside(db: Database, name: string, slug: string, owner: nat)
    requires Inside(db) && SlugIndex(db.tenants, db.bySlug) && slug !in db.bySlug
    ensures var e := TenantAdded(db, name, slug, owner); Inside(e) && SlugIndex(e.tenants, e.bySlug)
  {
  }

  lemma RoleAddedKeepsInside(db: Database, role: Role, codes: seq<Code>)
    requires Inside(db) && role.tenant in db.tenants
    ensures Inside(RoleAdded(db, role, codes))
  {
  }

  lemma NameIndexGrows(roles: map<nat, Role>, byName: map<Role, nat>, n: nat, role: Role)
    requires NameIndex(roles, byName) && n !in roles && role !in byName
    ensures NameIndex(roles[n := role], byName[role := n])
  {
  }

  lemma RoleAddedGrants(db: Database, role: Role, codes: seq<Code>, r: nat, c: Code)
    ensures Granted(RoleAdded(db, role, codes), r, c) <==> Granted(db, r, c) || (r == db.nextId && c in codes)
  {
    assert Grant(r, c) in Grants(db.nextId, codes) <==> r == db.nextId && c in codes;
  }

  lemma ProvisionedGrants(db: Database, tenant: nat, m: nat, r: nat, c: Code)
    ensures Granted(Provisioned(db, tenant, m), r, c) <==>
            Granted(db, r, c) || r == db.nextId || (r == db.nextId + 1 && c in AGENT_CODES)
  {
    var admin := RoleAdded(db, Role(tenant, ADMIN), CODES);
    var agent := RoleAdded(admin, Role(tenant, AGENT), AGENT_CODES);
    EveryCode(c);
    RoleAddedGrants(db, Role(tenant, ADMIN), CODES, r, c);
    RoleAddedGrants(admin, Role(tenant, AGENT), AGENT_CODES, r, c);
    RoleAddedGrants(agent, Role(tenant, REQUESTER), [], r, c);
  }

  lemma ProvisionedKeepsInside(db: Database, tenant: nat, m: nat)
    requires Inside(db) && tenant in db.tenants && m in db.memberships && db.memberships[m].seat.tenant == tenant
    ensures Inside(Provisioned(db, tenant, m))
  {
    var admin := RoleAdded(db, Role(tenant, ADMIN), CODES);
    var agent := RoleAdded(admin, Role(tenant, AGENT), AGENT_CODES);
    RoleAddedKeepsInside(db, Role(tenant, ADMIN), CODES);
    RoleAddedKeepsInside(admin, Role(tenant, AGENT), AGENT_CODES);
    RoleAddedKeepsInside(agent, Role(tenant, REQUESTER), []);
    HoldingAddedKeepsInside(RoleAdded(agent, Role(tenant, REQUESTER), []), m, db.nextId);
  }

  lemma HoldingAddedKeepsInside(db: Database, m: nat, role: nat)
    requires Inside(db) && m in db.memberships && role in db.roles
             && db.roles[role].tenant == db.memberships[m].seat.tenant
    ensures Inside(db.(holdings := db.holdings + {Holding(m, role)}))
  {
  }

  /** Three inserts that meet no role of the new tenant's. */
  lemma ProvisionedKeepsIndex(db: Database, tenant: nat, m: nat)
    requires Inside(db) && NameIndex(db.roles, db.byName) && tenant in db.tenants
    requires forall name :: Role(tenant, name) !in db.byName
    ensures var e := Provisioned(db, tenant, m); NameIndex(e.roles, e.byName)
  {
    hide NameIndex, Provisioned;
    var n, admin, agent := db.nextId, Role(tenant, ADMIN), Role(tenant, AGENT);
    ProvisionedShape(db, tenant, m);
    NameIndexGrows(db.roles, db.byName, n, admin);
    NameIndexGrows(db.roles[n := admin], db.byName[admin := n], n + 1, agent);
    NameIndexGrows(db.roles[n := admin][n + 1 := agent], db.byName[admin := n][agent := n + 1], n + 2,
                   Role(tenant, REQUESTER));
  }

  /** The new tenant gets its home. */
  lemma ProvisionedIsHome(db: Database, tenant: nat, m: nat)
    requires Inside(db) && tenant in db.tenants
    requires var seat := Seat(tenant, db.tenants[tenant].owner);
             StandingOf(db, seat) == Some(Active) && db.bySeat[seat] == m
    ensures Home(Provisioned(db, tenant, m), tenant)
  {
    var e := Provisioned(db, tenant, m);
    ProvisionedShape(db, tenant, m);
    forall r, c
      ensures Granted(e, r, c) <==> Granted(db, r, c) || r == db.nextId || (r == db.nextId + 1 && c in AGENT_CODES) {
      ProvisionedGrants(db, tenant, m, r, c);
    }
    forall r, c | r >= db.nextId ensures !Granted(db, r, c) {
      assert Grant(r, c) in db.grants ==> r in db.roles;
    }
  }

  /** Every other tenant keeps its own. */
  lemma ProvisionedKeepsHome(db: Database, tenant: nat, m: nat, t: nat)
    requires Inside(db) && NameIndex(db.roles, db.byName) && t in db.tenants && t != tenant && Home(db, t)
    ensures Home(Provisioned(db, tenant, m), t)
  {
    var e := Provisioned(db, tenant, m);
    ProvisionedShape(db, tenant, m);
    forall r: nat, c | r < db.nextId ensures Granted(e, r, c) == Granted(db, r, c) {
      ProvisionedGrants(db, tenant, m, r, c);
    }
  }

  lemma OpenedKeepsInside(db: Database, name: string, slug: string, owner: nat, now: int)
    requires Inside(db) && Indexed(db) && slug !in db.bySlug
    ensures var e := Opened(db, name, slug, owner, now);
            Inside(e) && Indexed(e) && forall n :: Role(db.nextId, n) !in e.byName
  {
    TenantAddedKeepsInside(db, name, slug, owner);
    assert Seat(db.nextId, owner) !in db.bySeat;
    JoinedKeepsInside(TenantAdded(db, name, slug, owner), Seat(db.nextId, owner), Active, Some(now));
  }

  ghost predicate Settled(e: Database, n: nat, t: nat)
    requires t in e.tenants
  {
    if t != n then Home(e, t) else
    var seat := Seat(n, e.tenants[n].owner); StandingOf(e, seat) == Some(Active) && e.bySeat[seat] == n + 1
  }

  lemma OpenedIsSettled(db: Database, name: string, slug: string, owner: nat, now: int, t: nat)
    requires db.nextId !in db.tenants && db.nextId + 1 !in db.memberships
             && t in Opened(db, name, slug, owner, now).tenants
    requires t in db.tenants ==> Home(db, t)
    ensures Settled(Opened(db, name, slug, owner, now), db.nextId, t)
  {
    if t != db.nextId {
      HomeStays(db, Opened(db, name, slug, owner, now), t);
    }
  }

  lemma ProvisionedHomes(e: Database, n: nat)
    requires Inside(e) && NameIndex(e.roles, e.byName) && n in e.tenants
    requires forall t {:trigger Settled(e, n, t)} | t in e.tenants :: Settled(e, n, t)
    ensures Homes(Provisioned(e, n, n + 1))
  {
    hide Home, Inside, NameIndex, Provisioned;
    ProvisionedShape(e, n, n + 1);
    forall t | t in e.tenants ensures Home(Provisioned(e, n, n + 1), t) {
      assert Settled(e, n, t);
      if t == n {
        ProvisionedIsHome(e, n, n + 1);
      } else {
        ProvisionedKeepsHome(e, n, n + 1, t);
      }
    }
  }

  lemma OpenedSettles(db: Database, e: Database, name: string, slug: string, owner: nat, now: int)
    requires Inside(db) && Homes(db) && e == Opened(db, name, slug, owner, now)
    ensures forall t {:trigger Settled(e, db.nextId, t)} | t in e.tenants :: Settled(e, db.nextId, t)
  {
    forall t | t in e.tenants ensures Settled(e, db.nextId, t) {
      assert t in db.tenants ==> Home(db, t);
      OpenedIsSettled(db, name, slug, owner, now, t);
    }
  }

  lemma CreatedInside(db: Database, e: Database, name: string, slug: string, owner: nat, now: int)
    requires Inside(db) && Indexed(db) && slug !in db.bySlug && e == Opened(db, name, slug, owner, now)
    ensures Inside(e) && NameIndex(e.roles, e.byName) && db.nextId in e.tenants
    ensures var f := Provisioned(e, db.nextId, db.nextId + 1); Inside(f) && Indexed(f)
  {
    hide SlugIndex, SeatIndex, NameIndex, Homes;
    OpenedKeepsInside(db, name, slug, owner, now);
    ProvisionedKeepsInside(e, db.nextId, db.nextId + 1);
    ProvisionedKeepsIndex(e, db.nextId, db.nextId + 1);
  }

  lemma CreatedHomes(db: Database, e: Database, name: string, slug: string, owner: nat, now: int)
    requires Inside(db) && Homes(db) && e == Opened(db, name, slug, owner, now)
    requires Inside(e) && NameIndex(e.roles, e.byName) && db.nextId in e.tenants
    ensures Homes(Provisioned(e, db.nextId, db.nextId + 1))
  {
    hide Inside, Homes, NameIndex, Opened, Provisioned, Home, Settled;
    OpenedSettles(db, e, name, slug, owner, now);
    ProvisionedHomes(e, db.nextId);
  }

  lemma CreateKeepsSound(db: Database, owner: nat, name: string, slug: string, now: int)
    requires Sound(db)
    ensures Sound(AfterCreate(db, owner, name, slug, now).db)
  {
    hide Inside, SlugIndex, SeatIndex, NameIndex, Homes, Opened, Provisioned;
    var normalized := Lowered(Strip(slug));
    if normalized !in db.bySlug {
      var e := Opened(db, Strip(name), normalized, owner, now);
      CreatedInside(db, e, Strip(name), normalized, owner, now);
      CreatedHomes(db, e, Strip(name), normalized, owner, now);
    }
  }

  /** A left member comes back, or a new one joins, and is left with one role of the tenant. */
  lemma InvitedKeepsSound(db: Database, seat: Seat, role: nat)
    requires Sound(db) && seat.tenant in db.tenants && role in db.roles && db.roles[role].tenant == seat.tenant
    requires seat.user != db.tenants[seat.tenant].owner
    ensures if seat in db.bySeat then
              var m := db.bySeat[seat];
              m in db.memberships && Sound(Reassigned(Moved(db, m, Invited, None), m, {role}))
            else Sound(Reassigned(Joined(db, seat, Invited, None), db.nextId, {role}))
  {
    hide Inside, SlugIndex, NameIndex, Homes, Reassigned;
    assert Inside(db);
    if seat in db.bySeat {
      MovedKeepsSound(db, db.bySeat[seat], Invited, None);
      ReassignedKeepsSound(Moved(db, db.bySeat[seat], Invited, None), db.bySeat[seat], {role});
    } else {
      JoinedKeepsSound(db, seat, Invited, None);
      ReassignedKeepsSound(Joined(db, seat, Invited, None), db.nextId, {role});
    }
  }

  lemma InviteKeepsSound(db: Database, tenant: nat, email: string)
    requires Sound(db)
    ensures Sound(AfterInvite(db, tenant, email).db)
  {
    var r := AfterInvite(db, tenant, email);
    if r.outcome.Done? {
      var seat, m := Seat(tenant, db.users[Lowered(Strip(email))]), r.outcome.id;
      assert db.byName[Role(tenant, REQUESTER)] in db.roles && tenant in db.tenants;
      assert Home(db, tenant);
      InvitedKeepsSound(db, seat, db.byName[Role(tenant, REQUESTER)]);
    }
  }

  lemma PerformKeepsSound(db: Database, c: Command)
    requires Sound(db)
    ensures Sound(Perform(db, c).db)
  {
    hide AfterCreate, Reassigned, Homes, NameIndex, SlugIndex, PermissionsOf;
    var r := Perform(db, c);
    match c {
      case CreateTenant(owner, name, slug, now) => CreateKeepsSound(db, owner, name, slug, now);
      case InviteUser(tenant, email) => InviteKeepsSound(db, tenant, email);
      case AcceptInvitation(_, _, now) =>
        if r.outcome.Done? {
          MovedKeepsSound(db, r.outcome.id, Active, Some(now));
        }
      case LeaveTenant(_, _) =>
        if r.outcome.Done? {
          MovedKeepsSound(db, r.outcome.id, Left, db.memberships[r.outcome.id].joinedAt);
        }
      case Assign(tenant, m, ids) =>
        if r.outcome.Done? {
          ReassignedKeepsSound(db, m, Chosen(db, tenant, ids));
        }
      case Register(_, _) => RegisterKeepsSound(db, r.db.users);
      case Switch(tenant, active) => SwitchKeepsSound(db, tenant, active);
    }
  }

  lemma {:induction false} RunKeepsSound(db: Database, cs: seq<Command>)
    requires Sound(db)
    ensures Sound(Run(db, cs))
    decreases |cs|
  {
    hide Perform, Sound;
    if cs != [] {
      PerformKeepsSound(db, cs[0]);
      RunKeepsSound(Perform(db, cs[0]).db, cs[1..]);
    }
  }

  // ---- what every run keeps ------------------------------------------------------------------------

  /** In every reachable database the owner of every tenant is an active member of it, holds its
      administrator role, and that gives every permission code. */
  lemma OwnerIsAdministrator(migrated: set<Code>, cs: seq<Command>, t: nat)
    requires t in Run(Empty(migrated), cs).tenants
    ensures var db := Run(Empty(migrated), cs);
            var seat := Seat(t, db.tenants[t].owner);
            && StandingOf(db, seat) == Some(Active)
            && Role(t, ADMIN) in db.byName && Held(db, db.bySeat[seat], db.byName[Role(t, ADMIN)])
            && forall c: Code :: c in PermissionsOf(db, db.bySeat[seat])
  {
    var db := Run(Empty(migrated), cs);
    RunKeepsSound(Empty(migrated), cs);
    assert Home(db, t);
    var m, admin := db.bySeat[Seat(t, db.tenants[t].owner)], db.byName[Role(t, ADMIN)];
    forall c: Code ensures c in PermissionsOf(db, m) {
      assert Granted(db, admin, c) && Held(db, m, admin) && db.roles[admin].tenant == t;
      assert Grant(admin, c).code == c;
    }
  }

  /** In every reachable database a membership holds only roles of its own tenant, no two tenants share a
      slug, no two memberships a tenant and user, no two roles a tenant and name. */
  lemma RolesStayInTheirTenant(migrated: set<Code>, cs: seq<Command>)
    ensures var db := Run(Empty(migrated), cs);
            && (forall h | h in db.holdings :: h.membership in db.memberships && h.role in db.roles
                                               && db.roles[h.role].tenant == db.memberships[h.membership].seat.tenant)
            && (forall t, u | t in db.tenants && u in db.tenants && db.tenants[t].slug == db.tenants[u].slug :: t == u)
            && (forall m, n | m in db.memberships && n in db.memberships
                              && db.memberships[m].seat == db.memberships[n].seat :: m == n)
            && (forall q, r | q in db.roles && r in db.roles && db.roles[q] == db.roles[r] :: q == r)
  {
    RunKeepsSound(Empty(migrated), cs);
  }

  lemma SameSizeSameSet<T>(a: set<T>, b: set<T>)
    requires a <= b && |a| == |b|
    ensures a == b
  {
    forall x | x in b ensures x in a {
      if x !in a {
        SmallerBy(a, b, x);
      }
    }
  }

  lemma {:induction false} SmallerBy<T>(a: set<T>, b: set<T>, x: T)
    requires a <= b && x in b && x !in a
    ensures |a| < |b|
    decreases |a|
  {
    if y :| y in a {
      SmallerBy(a - {y}, b - {y}, x);
    }
  }

  /** Comparing the two counts decides whether every id asked for, repeated or not, is a role of the
      tenant. */
  lemma CountsDecide(db: Database, tenant: nat, ids: seq<nat>)
    ensures |Chosen(db, tenant, ids)| == |Asked(ids)| <==>
            forall r | r in ids :: r in db.roles && db.roles[r].tenant == tenant
  {
    var chosen, asked := Chosen(db, tenant, ids), Asked(ids);
    if |chosen| == |asked| {
      SameSizeSameSet(chosen, asked);
      forall r | r in ids ensures r in db.roles && db.roles[r].tenant == tenant {
        assert r in asked;
      }
    }
    if forall r | r in ids :: r in db.roles && db.roles[r].tenant == tenant {
      assert chosen == asked;
    }
  }

  /** An assignment goes through exactly when the membership is the tenant's, every id is a role of the
      tenant, and an owner stays administrator. */
  lemma AssignedExactlyWhen(db: Database, tenant: nat, m: nat, ids: seq<nat>)
    ensures AfterAssign(db, tenant, m, ids).outcome.Done? <==>
            && tenant in db.tenants && m in db.memberships && db.memberships[m].seat.tenant == tenant
            && (forall r | r in ids :: r in db.roles && db.roles[r].tenant == tenant)
            && (db.memberships[m].seat.user == db.tenants[tenant].owner ==>
                  exists r :: r in ids && db.roles[r].name == ADMIN)
  {
    CountsDecide(db, tenant, ids);
    if forall r | r in ids :: r in db.roles && db.roles[r].tenant == tenant {
      assert forall r :: r in Chosen(db, tenant, ids) <==> r in ids;
    }
  }

  /** Afterwards the membership holds exactly the roles asked for, and the others hold what they held. */
  lemma AssignedHoldsExactly(db: Database, tenant: nat, m: nat, ids: seq<nat>, n: nat, r: nat)
    requires AfterAssign(db, tenant, m, ids).outcome.Done?
    ensures Held(AfterAssign(db, tenant, m, ids).db, n, r) <==> if n == m then r in ids else Held(db, n, r)
  {
    CountsDecide(db, tenant, ids);
  }

  // ---- isolation -----------------------------------------------------------------------------------

  predicate About(c: Command, tenant: nat) {
    match c
    case CreateTenant(_, _, _, _) => false
    case InviteUser(t, _) => t == tenant
    case AcceptInvitation(_, t, _) => t == tenant
    case LeaveTenant(_, t) => t == tenant
    case Assign(t, _, _) => t == tenant
    case Register(_, _) => false
    case Switch(t, _) => t == tenant
  }

  /** Member `m`'s row and permissions are the same in both databases. */
  ghost predicate SameMember(db: Database, e: Database, m: nat) {
    && m in db.memberships && m in e.memberships && e.memberships[m] == db.memberships[m]
    && PermissionsOf(e, m) == PermissionsOf(db, m)
  }

  /** The join of a member depends on the roles it holds and their grants alone. */
  lemma PermissionsCarryOver(db: Database, e: Database, m: nat)
    requires m in db.memberships && m in e.memberships && e.memberships[m] == db.memberships[m]
    requires forall r: nat | Held(db, m, r) ::
               Held(e, m, r) && r in e.roles && (r in db.roles ==> e.roles[r] == db.roles[r])
    requires forall r: nat, c | Held(db, m, r) && Granted(db, r, c) :: Granted(e, r, c)
    ensures PermissionsOf(db, m) <= PermissionsOf(e, m)
  {
    forall c | c in PermissionsOf(db, m) ensures c in PermissionsOf(e, m) {
      var g :| g in db.grants && Held(db, m, g.role)
               && g.role in db.roles && db.roles[g.role].tenant == db.memberships[m].seat.tenant && g.code == c;
      assert g == Grant(g.role, g.code) && Granted(db, g.role, g.code) && Granted(e, g.role, g.code);
    }
  }

  lemma ProvisionedTouchesNoMember(db: Database, tenant: nat, owner: nat, m: nat)
    requires m in db.memberships && m != owner
    requires forall r | r in db.roles :: r < db.nextId
    requires forall r: nat | Held(db, m, r) :: r in db.roles
    ensures SameMember(db, Provisioned(db, tenant, owner), m)
  {
    hide Provisioned, PermissionsOf, Granted, RoleAdded;
    var e := Provisioned(db, tenant, owner);
    ProvisionedShape(db, tenant, owner);
    forall r: nat, c | r < db.nextId ensures Granted(e, r, c) == Granted(db, r, c) {
      ProvisionedGrants(db, tenant, owner, r, c);
    }
    PermissionsCarryOver(db, e, m);
    PermissionsCarryOver(e, db, m);
  }

  lemma OpenedTouchesNoMember(db: Database, name: string, slug: string, owner: nat, now: int, m: nat)
    requires db.nextId + 1 !in db.memberships && m in db.memberships
    ensures SameMember(db, Opened(db, name, slug, owner, now), m)
  {
  }

  lemma CreateTouchesNoMember(db: Database, owner: nat, name: string, slug: string, now: int, m: nat)
    requires Inside(db) && m in db.memberships
    ensures SameMember(db, AfterCreate(db, owner, name, slug, now).db, m)
  {
    hide Provisioned, PermissionsOf;
    var normalized := Lowered(Strip(slug));
    var e := Opened(db, Strip(name), normalized, owner, now);
    OpenedTouchesNoMember(db, Strip(name), normalized, owner, now, m);
    forall r: nat | Held(e, m, r) ensures r in e.roles {
      assert Holding(m, r) in db.holdings;
    }
    ProvisionedTouchesNoMember(e, db.nextId, db.nextId + 1, m);
  }

  lemma ReassignedTouchesOneMember(db: Database, n: nat, roles: set<nat>, m: nat)
    requires m in db.memberships && m != n
    ensures SameMember(db, Reassigned(db, n, roles), m)
  {
  }

  lemma SameRowSameMember(db: Database, e: Database, m: nat)
    requires m in db.memberships && m in e.memberships && e.memberships[m] == db.memberships[m]
    requires e.roles == db.roles && e.grants == db.grants && e.holdings == db.holdings
    ensures SameMember(db, e, m)
  {
  }

  lemma InviteTouchesOneMember(db: Database, tenant: nat, email: string, m: nat)
    requires m in db.memberships && m < db.nextId && AfterInvite(db, tenant, email).outcome != Done(m)
    ensures SameMember(db, AfterInvite(db, tenant, email).db, m)
  {
    var r := AfterInvite(db, tenant, email);
    if r.outcome.Done? {
      var n, seat := r.outcome.id, Seat(tenant, db.users[Lowered(Strip(email))]);
      var left := StandingOf(db, seat).Some?;
      var invited := if left then Moved(db, n, Invited, None) else Joined(db, seat, Invited, None);
      SameRowSameMember(db, invited, m);
      ReassignedTouchesOneMember(invited, n, {db.byName[Role(tenant, REQUESTER)]}, m);
    }
  }

  lemma AssignTouchesOneMember(db: Database, tenant: nat, n: nat, ids: seq<nat>, m: nat)
    requires m in db.memberships && AfterAssign(db, tenant, n, ids).outcome != Done(m)
    ensures SameMember(db, AfterAssign(db, tenant, n, ids).db, m)
  {
    if AfterAssign(db, tenant, n, ids).outcome.Done? {
      ReassignedTouchesOneMember(db, n, Chosen(db, tenant, ids), m);
    }
  }

  /** Accepting and leaving change a standing, and nobody's permissions. */
  lemma MoveTouchesNoPermission(db: Database, e: Database, m: nat)
    requires m in db.memberships && m in e.memberships && e.memberships[m].seat == db.memberships[m].seat
    requires e.roles == db.roles && e.grants == db.grants && e.holdings == db.holdings
    ensures PermissionsOf(e, m) == PermissionsOf(db, m)
  {
  }

  lemma AcceptTouchesOneMember(db: Database, user: nat, tenant: nat, now: int, m: nat)
    requires m in db.memberships
    ensures var r := AfterAccept(db, user, tenant, now);
            m in r.db.memberships && PermissionsOf(r.db, m) == PermissionsOf(db, m)
            && (r.outcome != Done(m) ==> SameMember(db, r.db, m))
  {
    MoveTouchesNoPermission(db, AfterAccept(db, user, tenant, now).db, m);
  }

  lemma LeaveTouchesOneMember(db: Database, user: nat, tenant: nat, m: nat)
    requires m in db.memberships
    ensures var r := AfterLeave(db, user, tenant);
            m in r.db.memberships && PermissionsOf(r.db, m) == PermissionsOf(db, m)
            && (r.outcome != Done(m) ==> SameMember(db, r.db, m))
  {
    MoveTouchesNoPermission(db, AfterLeave(db, user, tenant).db, m);
  }

  /** A command changes the row of at most one membership, the one whose cached permissions are deleted. */
  lemma PerformTouchesOneMember(db: Database, c: Command, m: nat)
    requires Inside(db) && m in db.memberships && m !in Invalidates(c, Perform(db, c).outcome)
    ensures SameMember(db, Perform(db, c).db, m)
  {
    hide AfterCreate, AfterInvite, AfterAssign, AfterAccept, AfterLeave, PermissionsOf;
    match c {
      case CreateTenant(owner, name, slug, now) => CreateTouchesNoMember(db, owner, name, slug, now, m);
      case InviteUser(tenant, email) => InviteTouchesOneMember(db, tenant, email, m);
      case Assign(tenant, n, ids) => AssignTouchesOneMember(db, tenant, n, ids, m);
      case AcceptInvitation(user, tenant, now) => AcceptTouchesOneMember(db, user, tenant, now, m);
      case LeaveTenant(user, tenant) => LeaveTouchesOneMember(db, user, tenant, m);
      case _ => SameRowSameMember(db, Perform(db, c).db, m);
    }
  }

  /** The permission join of a membership changes only by an invitation of it or an assignment to it, and
      then the program deletes the cached set of that membership after the commit. */
  lemma OnlyInvalidatedPermissionsChange(db: Database, c: Command, m: nat)
    requires Inside(db) && m in db.memberships
    requires !((c.Assign? || c.InviteUser?) && Perform(db, c).outcome == Done(m))
    ensures m in Perform(db, c).db.memberships && PermissionsOf(Perform(db, c).db, m) == PermissionsOf(db, m)
  {
    if c.AcceptInvitation? {
      AcceptTouchesOneMember(db, c.user, c.tenant, c.now, m);
    } else if c.LeaveTenant? {
      LeaveTouchesOneMember(db, c.user, c.tenant, m);
    } else {
      PerformTouchesOneMember(db, c, m);
    }
  }

  lemma SubjectIsInTenant(db: Database, c: Command, m: nat)
    requires SeatIndex(db.memberships, db.bySeat) && m in db.memberships && m < db.nextId
    requires m in Invalidates(c, Perform(db, c).outcome)
    ensures About(c, db.memberships[m].seat.tenant)
  {
  }

  /** A command about one tenant leaves every member of every other tenant, and their permissions, alone. */
  lemma PerformTouchesOneTenant(db: Database, c: Command, m: nat)
    requires Inside(db) && SeatIndex(db.memberships, db.bySeat) && m in db.memberships
    requires !About(c, db.memberships[m].seat.tenant)
    ensures SameMember(db, Perform(db, c).db, m)
  {
    if m in Invalidates(c, Perform(db, c).outcome) {
      SubjectIsInTenant(db, c, m);
    } else {
      PerformTouchesOneMember(db, c, m);
    }
  }

  lemma {:induction false} RunTouchesOneTenant(db: Database, cs: seq<Command>, m: nat)
    requires Sound(db) && m in db.memberships
    requires forall i :: 0 <= i < |cs| ==> !About(cs[i], db.memberships[m].seat.tenant)
    ensures SameMember(db, Run(db, cs), m)
    decreases |cs|
  {
    hide Perform, About, Inside, SlugIndex, SeatIndex, NameIndex, Homes, PermissionsOf;
    if cs != [] {
      PerformKeepsSound(db, cs[0]);
      PerformTouchesOneTenant(db, cs[0], m);
      RunTouchesOneTenant(Perform(db, cs[0]).db, cs[1..], m);
    }
  }

  lemma HomeByValue(db: Database, t: nat, c: Code)
    requires t in db.tenants && Home(db, t)
    ensures Role(t, "tenant_admin") in db.byName && Role(t, "agent") in db.byName && Role(t, "requester") in db.byName
    ensures Granted(db, db.byName[Role(t, "tenant_admin")], c)
    ensures Granted(db, db.byName[Role(t, "agent")], c) <==> c != MembersInvite && c != RolesManage
    ensures !Granted(db, db.byName[Role(t, "requester")], c)
  {
  }

  /** In every reachable database each tenant's administrator, agent and requester roles grant all, seven
      and no codes. */
  lemma DefaultRolesKeepTheirCodes(migrated: set<Code>, cs: seq<Command>, t: nat, c: Code)
    requires t in Run(Empty(migrated), cs).tenants
    ensures var db := Run(Empty(migrated), cs);
            && Role(t, "tenant_admin") in db.byName && Role(t, "agent") in db.byName
            && Role(t, "requester") in db.byName
            && Granted(db, db.byName[Role(t, "tenant_admin")], c)
            && (Granted(db, db.byName[Role(t, "agent")], c) <==> c != MembersInvite && c != RolesManage)
            && !Granted(db, db.byName[Role(t, "requester")], c)
  {
    hide Run, Home;
    RunKeepsSound(Empty(migrated), cs);
    var db := Run(Empty(migrated), cs);
    assert Home(db, t);
    HomeByValue(db, t, c);
  }
}
