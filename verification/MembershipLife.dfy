/** What becomes of one membership over a run: what it may do after an invitation, and how its standing moves. */
module MembershipLife {
  import opened Common
  import opened TenantRoles
  import opened TenantOwnership

  // ---- a member that joins, or joins again, starts from nothing ---------------------------------------

  /** The membership holds no role but the requester role. */
  ghost predicate Plain(db: Database, m: nat) {
    forall r: nat | Held(db, m, r) :: r in db.roles && db.roles[r].name == REQUESTER
  }

  lemma PlainHasNoPermission(db: Database, m: nat)
    requires Sound(db) && m in db.memberships && Plain(db, m)
    ensures PermissionsOf(db, m) == {}
  {
    forall g | g in db.grants ensures !Held(db, m, g.role) {
      assert Granted(db, g.role, g.code) by {
        assert g == Grant(g.role, g.code);
      }
      assert Home(db, db.roles[g.role].tenant);
      assert db.roles[g.role].name != REQUESTER;
    }
  }

  lemma InviteMakesPlain(db: Database, tenant: nat, email: string)
    requires Sound(db) && AfterInvite(db, tenant, email).outcome.Done?
    ensures var r := AfterInvite(db, tenant, email);
            && r.outcome.id in r.db.memberships && r.db.memberships[r.outcome.id].standing == Invited
            && Plain(r.db, r.outcome.id)
  {
    assert db.byName[Role(tenant, REQUESTER)] in db.roles;
  }

  lemma NewHoldingKeepsPlain(db: Database, e: Database, n: nat, role: nat, m: nat)
    requires Plain(db, m) && m != n && e.holdings == db.holdings + {Holding(n, role)}
    requires forall r | r in db.roles :: r in e.roles && e.roles[r] == db.roles[r]
    ensures Plain(e, m)
  {
  }

  lemma CreateKeepsPlain(db: Database, owner: nat, name: string, slug: string, now: int, m: nat)
    requires m in db.memberships && m < db.nextId && Plain(db, m) && forall r | r in db.roles :: r < db.nextId
    ensures var e := AfterCreate(db, owner, name, slug, now).db; Plain(e, m) && m in e.memberships
  {
    hide Provisioned, Plain;
    var e := Opened(db, Strip(name), Lowered(Strip(slug)), owner, now);
    ProvisionedShape(e, db.nextId, db.nextId + 1);
    NewHoldingKeepsPlain(db, Provisioned(e, db.nextId, db.nextId + 1), db.nextId + 1, e.nextId, m);
  }

  lemma ReassignedKeepsPlain(db: Database, n: nat, roles: set<nat>, m: nat)
    requires Plain(db, m) && (n == m ==> forall r | r in roles :: r in db.roles && db.roles[r].name == REQUESTER)
    ensures Plain(Reassigned(db, n, roles), m)
  {
  }

  lemma InviteKeepsPlain(db: Database, tenant: nat, email: string, m: nat)
    requires NameIndex(db.roles, db.byName) && Plain(db, m)
    ensures var e := AfterInvite(db, tenant, email).db; Plain(e, m) && (m in db.memberships ==> m in e.memberships)
  {
  }

  lemma AssignKeepsPlain(db: Database, tenant: nat, n: nat, ids: seq<nat>, m: nat)
    requires Plain(db, m) && n != m
    ensures var e := AfterAssign(db, tenant, n, ids).db; Plain(e, m) && e.memberships == db.memberships
  {
    ReassignedKeepsPlain(db, n, Chosen(db, tenant, ids), m);
  }

  lemma MoveKeepsPlain(db: Database, c: Command, m: nat)
    requires Plain(db, m) && !c.CreateTenant? && !c.InviteUser? && !c.Assign?
    ensures var e := Perform(db, c).db; Plain(e, m) && (m in db.memberships ==> m in e.memberships)
  {
    assert forall r: nat :: Held(Perform(db, c).db, m, r) == Held(db, m, r);
  }

  lemma PerformKeepsPlain(db: Database, c: Command, m: nat)
    requires Inside(db) && NameIndex(db.roles, db.byName) && m in db.memberships && Plain(db, m)
    requires !(c.Assign? && c.membership == m)
    ensures Plain(Perform(db, c).db, m) && m in Perform(db, c).db.memberships
  {
    hide AfterCreate, AfterInvite, AfterAssign, AfterAccept, AfterLeave, Plain, NameIndex;
    match c {
      case CreateTenant(owner, name, slug, now) => CreateKeepsPlain(db, owner, name, slug, now, m);
      case InviteUser(tenant, email) => InviteKeepsPlain(db, tenant, email, m);
      case Assign(tenant, n, ids) => AssignKeepsPlain(db, tenant, n, ids, m);
      case _ => MoveKeepsPlain(db, c, m);
    }
  }

  lemma {:induction false} RunKeepsPlain(db: Database, cs: seq<Command>, m: nat)
    requires Sound(db) && m in db.memberships && Plain(db, m)
    requires forall i :: 0 <= i < |cs| ==> !(cs[i].Assign? && cs[i].membership == m)
    ensures Plain(Run(db, cs), m) && m in Run(db, cs).memberships
    decreases |cs|
  {
    hide Perform, Inside, SlugIndex, SeatIndex, NameIndex, Homes, Plain;
    if cs != [] {
      PerformKeepsSound(db, cs[0]);
      PerformKeepsPlain(db, cs[0], m);
      RunKeepsPlain(Perform(db, cs[0]).db, cs[1..], m);
    }
  }

  /** Whoever is invited, also after leaving with roles still on record, has no permission at all until
      someone assigns roles to that membership: accepting, leaving and being invited again give none. */
  lemma InvitedHasNothingUntilAssigned(db: Database, tenant: nat, email: string, cs: seq<Command>)
    requires Sound(db) && AfterInvite(db, tenant, email).outcome.Done?
    requires var m := AfterInvite(db, tenant, email).outcome.id;
             forall i :: 0 <= i < |cs| ==> !(cs[i].Assign? && cs[i].membership == m)
    ensures var m, e := AfterInvite(db, tenant, email).outcome.id, Run(AfterInvite(db, tenant, email).db, cs);
            m in e.memberships && PermissionsOf(e, m) == {}
  {
    var r := AfterInvite(db, tenant, email);
    InviteKeepsSound(db, tenant, email);
    InviteMakesPlain(db, tenant, email);
    RunKeepsPlain(r.db, cs, r.outcome.id);
    RunKeepsSound(r.db, cs);
    PlainHasNoPermission(Run(r.db, cs), r.outcome.id);
  }

  // ---- the life of a membership -----------------------------------------------------------------------

  predicate NextStanding(a: Standing, b: Standing) {
    a == b || (a == Invited && b == Active) || (a == Active && b == Left) || (a == Left && b == Invited)
  }

  /** A membership has a joining time exactly when its invitation was accepted. */
  ghost predicate Dated(db: Database) {
    forall m | m in db.memberships :: db.memberships[m].joinedAt.None? <==> db.memberships[m].standing == Invited
  }

  /** Member `m` is where it was, and its standing stays or moves on. */
  ghost predicate MovesOn(db: Database, e: Database, m: nat)
    requires m in db.memberships
  {
    && m in e.memberships && e.memberships[m].seat == db.memberships[m].seat
    && NextStanding(db.memberships[m].standing, e.memberships[m].standing)
  }

  lemma CreateMovesNobody(db: Database, owner: nat, name: string, slug: string, now: int, m: nat)
    requires Inside(db) && m in db.memberships
    ensures MovesOn(db, AfterCreate(db, owner, name, slug, now).db, m)
  {
  }

  lemma InviteMovesOn(db: Database, tenant: nat, email: string, m: nat)
    requires Inside(db) && SeatIndex(db.memberships, db.bySeat) && m in db.memberships
    ensures MovesOn(db, AfterInvite(db, tenant, email).db, m)
  {
  }

  lemma MoveMovesOn(db: Database, c: Command, m: nat)
    requires m in db.memberships && !c.CreateTenant? && !c.InviteUser?
    ensures MovesOn(db, Perform(db, c).db, m)
  {
  }

  lemma PerformMovesStanding(db: Database, c: Command, m: nat)
    requires Inside(db) && SeatIndex(db.memberships, db.bySeat) && m in db.memberships
    ensures MovesOn(db, Perform(db, c).db, m)
  {
    hide AfterCreate, AfterInvite, AfterAssign, AfterAccept, AfterLeave, MovesOn, SeatIndex;
    match c {
      case CreateTenant(owner, name, slug, now) => CreateMovesNobody(db, owner, name, slug, now, m);
      case InviteUser(tenant, email) => InviteMovesOn(db, tenant, email, m);
      case _ => MoveMovesOn(db, c, m);
    }
  }

  lemma PerformKeepsDated(db: Database, c: Command)
    requires Dated(db)
    ensures Dated(Perform(db, c).db)
  {
    hide Provisioned;
    if c.CreateTenant? {
      ProvisionedShape(Opened(db, Strip(c.name), Lowered(Strip(c.slug)), c.owner, c.now), db.nextId, db.nextId + 1);
    }
  }

  /** How often the run takes membership `m` from standing `a` to standing `b`. */
  function Changes(db: Database, cs: seq<Command>, m: nat, a: Standing, b: Standing): nat
    decreases |cs|
  {
    if cs == [] then 0
    else
      var e := Perform(db, cs[0]).db;
      Changes(e, cs[1..], m, a, b)
      + if Stands(db, m, a) && Stands(e, m, b) then 1 else 0
  }

  predicate Stands(db: Database, m: nat, standing: Standing) {
    m in db.memberships && db.memberships[m].standing == standing
  }

  function One(b: bool): int {
    if b then 1 else 0
  }

  /** No run deletes a membership or moves it to another seat, and it has a joining time exactly while it
      is not invited. Over every run acceptances and leavings alternate, and so do leavings and renewed
      invitations: their numbers differ by what the first and last standing account for. */
  lemma {:induction false} MembershipsGoRound(db: Database, cs: seq<Command>, m: nat)
    requires Sound(db) && Dated(db)
    ensures Dated(Run(db, cs))
    ensures m in db.memberships ==>
              var e := Run(db, cs);
              && m in e.memberships && e.memberships[m].seat == db.memberships[m].seat
              && Changes(db, cs, m, Invited, Active) - Changes(db, cs, m, Active, Left)
                 == One(Stands(e, m, Active)) - One(Stands(db, m, Active))
              && Changes(db, cs, m, Active, Left) - Changes(db, cs, m, Left, Invited)
                 == One(Stands(e, m, Left)) - One(Stands(db, m, Left))
    decreases |cs|
  {
    hide Perform, Inside, SlugIndex, SeatIndex, NameIndex, Homes, Dated;
    if cs != [] {
      PerformKeepsSound(db, cs[0]);
      PerformKeepsDated(db, cs[0]);
      if m in db.memberships {
        PerformMovesStanding(db, cs[0], m);
      }
      MembershipsGoRound(Perform(db, cs[0]).db, cs[1..], m);
    }
  }
}
