/** The permission cache of one membership beside the tables its permissions are joined from: commands of
    the tenant and role services, each followed by its delete, among readers of the cache. */
module CachedPermissions {
  import opened Common
  import T = TenantRoles
  import O = TenantOwnership
  import L = MembershipLife
  import C = PermissionCache

  datatype World = World(db: T.Database, cache: C.State)

  /** A command by some process, or a step of the cache other than a role change. */
  datatype Step = Do(command: T.Command, writer: nat) | Beside(step: C.Step)

  function Apply(cfg: C.Config, m: nat, w: World, step: Step): World {
    match step
    case Beside(inner) => if inner.Commit? then w else w.(cache := C.Apply(cfg, w.cache, inner))
    case Do(command, writer) =>
      var r := T.Perform(w.db, command);
      if m !in T.Invalidates(command, r.outcome) || m !in r.db.memberships then w.(db := r.db)
      else if writer in w.cache.pending then w
      else World(r.db, C.Committed(w.cache, writer, T.PermissionsOf(r.db, m)))
  }

  function Run(cfg: C.Config, m: nat, w: World, steps: seq<Step>): World
    decreases |steps|
  {
    if steps == [] then w else Run(cfg, m, Apply(cfg, m, w, steps[0]), steps[1..])
  }

  /** The tables change as the commands say, and by nothing else; a process still about to delete starts nothing new. */
  lemma TablesFollowCommands(cfg: C.Config, m: nat, w: World, command: T.Command, writer: nat, inner: C.Step)
    ensures writer !in w.cache.pending ==> Apply(cfg, m, w, Do(command, writer)).db == T.Perform(w.db, command).db
    ensures m !in T.Invalidates(command, T.Perform(w.db, command).outcome) ==>
              Apply(cfg, m, w, Do(command, writer)) == World(T.Perform(w.db, command).db, w.cache)
    ensures Apply(cfg, m, w, Beside(inner)).db == w.db
  {
  }

  /** The cache's notion of the current set is the join over the tables. */
  ghost predicate Agree(cfg: C.Config, m: nat, w: World) {
    && O.Sound(w.db) && m in w.db.memberships
    && w.cache.perms == T.PermissionsOf(w.db, m)
    && C.Dated(cfg, w.cache)
  }

  lemma CommandKeepsAgree(cfg: C.Config, m: nat, w: World, command: T.Command, writer: nat)
    requires Agree(cfg, m, w)
    ensures Agree(cfg, m, Apply(cfg, m, w, Do(command, writer)))
  {
    hide T.Perform, T.PermissionsOf, O.Homes, C.Dated;
    var r := T.Perform(w.db, command);
    O.PerformKeepsSound(w.db, command);
    if m in T.Invalidates(command, r.outcome) {
      if writer !in w.cache.pending && m in r.db.memberships {
        C.CommitKeepsDated(cfg, w.cache, writer, T.PermissionsOf(r.db, m));
      }
      L.PerformMovesStanding(w.db, command, m);
    } else {
      O.OnlyInvalidatedPermissionsChange(w.db, command, m);
    }
  }

  lemma BesideKeepsAgree(cfg: C.Config, m: nat, w: World, inner: C.Step)
    requires Agree(cfg, m, w)
    ensures Agree(cfg, m, Apply(cfg, m, w, Beside(inner)))
  {
    C.StepKeepsDated(cfg, w.cache, inner);
  }

  lemma {:induction false} RunKeepsAgree(cfg: C.Config, m: nat, w: World, steps: seq<Step>)
    requires Agree(cfg, m, w)
    ensures Agree(cfg, m, Run(cfg, m, w, steps))
    decreases |steps|
  {
    hide Apply, Agree;
    if steps != [] {
      match steps[0] {
        case Do(command, writer) => CommandKeepsAgree(cfg, m, w, command, writer);
        case Beside(inner) => BesideKeepsAgree(cfg, m, w, inner);
      }
      RunKeepsAgree(cfg, m, Apply(cfg, m, w, steps[0]), steps[1..]);
    }
  }

  /** Over any run of commands and cache steps beside each other: the recorded versions end with the join,
      and every answer given from the cache is a version that was current less than ttl, jitter and the
      filling reader's delay before. */
  lemma AnswersAreRecentJoins(cfg: C.Config, m: nat, db: T.Database, now: int, steps: seq<Step>, i: nat)
    requires O.Sound(db) && m in db.memberships
    requires i < |Run(cfg, m, World(db, C.Start(now, T.PermissionsOf(db, m))), steps).cache.hits|
    ensures var w := Run(cfg, m, World(db, C.Start(now, T.PermissionsOf(db, m))), steps);
            var h, versions := w.cache.hits[i], w.cache.versions;
            && m in w.db.memberships && versions != []
            && versions[|versions| - 1].value == T.PermissionsOf(w.db, m)
            && C.WasCurrent(versions, h.value, h.selectedAt)
            && h.selectedAt <= h.at < h.selectedAt + cfg.ttl + cfg.maxJitter + (h.setAt - h.selectedAt)
  {
    var w0 := World(db, C.Start(now, T.PermissionsOf(db, m)));
    RunKeepsAgree(cfg, m, w0, steps);
    var w := Run(cfg, m, w0, steps);
    assert C.HitDated(cfg, w.cache, w.cache.hits[i]);
  }

  /** A command after which the program deletes this membership's key, and the delete. */
  function CommandThenDelete(cfg: C.Config, m: nat, w: World, command: T.Command, writer: nat, deleted: bool): World {
    Run(cfg, m, w, [Do(command, writer), Beside(C.Invalidate(writer, deleted))])
  }

  lemma CommandThenDeleteIs(cfg: C.Config, m: nat, w: World, command: T.Command, writer: nat, deleted: bool)
    requires Agree(cfg, m, w) && writer !in w.cache.pending
             && m in T.Invalidates(command, T.Perform(w.db, command).outcome)
    ensures var v := CommandThenDelete(cfg, m, w, command, writer, deleted);
            && v.db == T.Perform(w.db, command).db && m in v.db.memberships
            && v.cache == C.Run(cfg, w.cache,
                                [C.Commit(writer, T.PermissionsOf(v.db, m)), C.Invalidate(writer, deleted)])
  {
    hide T.Perform, T.PermissionsOf, O.Homes, C.Dated;
    var steps := [Do(command, writer), Beside(C.Invalidate(writer, deleted))];
    assert steps[1..] == [Beside(C.Invalidate(writer, deleted))] && steps[1..][1..] == [];
    L.PerformMovesStanding(w.db, command, m);
    var v1 := Apply(cfg, m, w, steps[0]);
    assert Run(cfg, m, w, steps) == Run(cfg, m, v1, steps[1..]) == Apply(cfg, m, v1, steps[1]);
    C.TwoSteps(cfg, w.cache, C.Commit(writer, T.PermissionsOf(v1.db, m)), C.Invalidate(writer, deleted));
  }

  /** After an invitation, an assignment, an acceptance or a leaving and its delete, look-ups give the join
      over the changed tables until the next such command if and only if every reader then under way
      holds that join already and, where the delete failed, a look-up gave nothing else before. */
  lemma CommandTakesEffectExactlyWhen(cfg: C.Config, m: nat, w: World, command: T.Command, writer: nat, deleted: bool)
    requires cfg.ttl >= 1 && Agree(cfg, m, w) && writer !in w.cache.pending
    requires m in T.Invalidates(command, T.Perform(w.db, command).outcome)
    ensures var v := CommandThenDelete(cfg, m, w, command, writer, deleted);
            && m in v.db.memberships && v.cache.perms == T.PermissionsOf(v.db, m)
            && (C.ExactFromHere(cfg, v.cache) <==>
                C.FillsHold(w.cache.fills, T.PermissionsOf(v.db, m))
                && (deleted || C.Found(w.cache.entry, w.cache.now) in {None, Some(T.PermissionsOf(v.db, m))}))
  {
    CommandThenDeleteIs(cfg, m, w, command, writer, deleted);
    var after := T.PermissionsOf(T.Perform(w.db, command).db, m);
    C.TwoSteps(cfg, w.cache, C.Commit(writer, after), C.Invalidate(writer, deleted));
    C.RoleChangeTakesEffectExactlyWhen(cfg, w.cache, writer, after, deleted);
  }
}
