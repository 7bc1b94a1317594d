/** Who can ever change the owner rows of a team, over whole histories. */
module Ownership {
  import opened Wrappers
  import opened Roles
  import opened State
  import opened Auth
  import opened Access
  import opened Api

  /** No stored invite pins Owner. */
  ghost predicate TokensBelowOwner(db: Db) {
    forall sha :: sha in db.tokens ==> PinnedRole(db.tokens[sha].role) != Some(Owner)
  }

  ghost predicate DefaultBelowOwner(cfg: Config, db: Db) {
    EffectiveDefault(Org(db), cfg.defaultRole) != Owner
  }

  /** The request was made by somebody who is effectively Owner of `team` at that moment. */
  ghost predicate ByOwner(cfg: Config, db: Db, req: Request, team: string) {
    var who := Authenticate(cfg, db, req.sha, req.oidc, req.now);
    who.Ok? && Resolve(cfg, db, team, who.value) == Some(Owner)
  }

  /** The request enters `team` in the registry, which crowns the caller, whoever owns it already. */
  ghost predicate Founds(db: Db, req: Request, team: string) {
    req.op.CreateTeam? && req.op.team == team && team !in db.registry
  }

  // ---- redeeming --------------------------------------------------------------------------

  lemma JoinedRow(roles: map<Seat, Role>, sub: string, teams: set<string>, role: Role, seat: Seat)
    ensures var after := JoinedRoles(roles, sub, teams, role);
      if seat.sub == sub && seat.team in teams
      then seat in after && after[seat] == (if seat in roles then Max(roles[seat], role) else role)
      else (seat in after <==> seat in roles) && (seat in roles ==> after[seat] == roles[seat])
  {
    var joined := map t | t in teams :: Seat(t, sub) := (if Seat(t, sub) in roles then Max(roles[Seat(t, sub)], role) else role);
    assert seat == Seat(seat.team, seat.sub);
    if seat.sub == sub && seat.team in teams {
      assert seat in joined;
    }
  }

  lemma OwnersAfterJoin(roles: map<Seat, Role>, sub: string, teams: set<string>, role: Role, team: string)
    ensures OwnersIn(JoinedRoles(roles, sub, teams, role), team) ==
      if role == Owner && team in teams then OwnersIn(roles, team) + {sub} else OwnersIn(roles, team)
  {
    var after := JoinedRoles(roles, sub, teams, role);
    forall s
      ensures s in OwnersIn(after, team) <==> s in OwnersIn(roles, team) || (role == Owner && team in teams && s == sub)
    {
      JoinedRow(roles, sub, teams, role, Seat(team, s));
      OwnersByRow(after, team, s);
      OwnersByRow(roles, team, s);
    }
  }

  /**
   Exactly when redeeming an invite makes a new owner: the invite is good, lists the team, the
   team is not archived, and the role on offer (pinned, else the default) is Owner. Invites never
   pin Owner, so this takes a default role of Owner.
   */
  lemma RedeemCrownsIff(cfg: Config, db: Db, id: Identity, codeLen: nat, sha: string, now: string, team: string)
    ensures Owners(RedeemStep(cfg, db, id, codeLen, sha, now).db, team) != Owners(db, team) <==>
      && 1 <= codeLen <= 512 && sha in db.tokens && Redeemable(db.tokens[sha], now)
      && team in db.tokens[sha].teams && !IsArchived(db, team)
      && JoinRole(cfg, db, db.tokens[sha]) == Owner
      && id.sub !in Owners(db, team)
  {
    RedeemOutcome(cfg, db, id, codeLen, sha, now);
    if sha in db.tokens {
      var invite := db.tokens[sha];
      OwnersAfterJoin(db.roles, id.sub, OpenTeams(db, invite), JoinRole(cfg, db, invite), team);
      assert team in OpenTeams(db, invite) <==> team in invite.teams && !IsArchived(db, team);
      assert team in OpenTeams(db, invite) ==> OpenTeams(db, invite) != {};
    }
  }

  // ---- one handler ---------------------------------------------------------------------------

  /** Setting or dropping a row from below Owner, in a team that has an owner, spares every owner. */
  lemma AdministeringSparesOwners(db: Db, caller: Role, team: string, sub: string, wanted: Role, t: string)
    requires caller != Owner && MayAdminister(caller, RoleRow(db, team, sub).UnwrapOr(Reader), wanted)
    ensures Owners(SetRow(db, team, sub, wanted), t) == Owners(db, t)
    ensures Owners(DropRow(db, team, sub), t) == Owners(db, t)
  {
    OwnersAfterSet(db, team, sub, wanted, t);
    OwnersAfterDrop(db, team, sub, t);
    OwnersByRow(db.roles, team, sub);
  }

  lemma GatedOwners(cfg: Config, db: Db, id: Identity, op: Op, team: string)
    requires Gated(op) && Owners(db, team) != {}
    ensures Owners(GateOf(cfg, db, id, op).db, team) == Owners(db, team)
    ensures op.team == team ==> GateOf(cfg, db, id, op).db == db
  {
    GateEffect(cfg, db, op.team, id, GateLevel(op));
    OwnersAfterSet(db, op.team, id.sub, Owner, team);
  }

  /** What the three administrative requests do to the owner rows. */
  lemma AdminBody(db: Db, id: Identity, caller: Role, now: string, op: Op, team: string)
    requires Administers(op)
    ensures var after := Owners(Body(db, id, caller, now, op).db, team);
      && (op.team != team || caller != Owner ==> after == Owners(db, team))
      && (after == Owners(db, team) || after == Owners(db, team) + {op.sub} || after == Owners(db, team) - {op.sub})
  {
    var wanted := if op.SetRole? then RoleFromStr(op.role).UnwrapOr(Reader) else Reader;
    OwnersAfterSet(db, op.team, op.sub, wanted, team);
    OwnersAfterDrop(db, op.team, op.sub, team);
    if caller != Owner && MayAdminister(caller, RoleRow(db, op.team, op.sub).UnwrapOr(Reader), wanted) {
      AdministeringSparesOwners(db, caller, op.team, op.sub, wanted, team);
    }
  }

  lemma AdminSteps(cfg: Config, db: Db, id: Identity, now: string, op: Op, team: string)
    requires Administers(op) && Owners(db, team) != {}
    ensures var after := Owners(Handle(cfg, db, id, now, op).db, team);
      && (op.team != team || Resolve(cfg, db, team, id) != Some(Owner) ==> after == Owners(db, team))
      && (after == Owners(db, team) || after == Owners(db, team) + {op.sub} || after == Owners(db, team) - {op.sub})
  {
    GatedOwners(cfg, db, id, op, team);
    GateEffect(cfg, db, op.team, id, Manager);
    var gate := GateOf(cfg, db, id, op);
    if gate.role.Ok? {
      AdminBody(gate.db, id, gate.role.value, now, op, team);
    }
  }

  /** Leaving drops the caller's row only, and an owner's row makes the caller Owner. */
  lemma LeaveStepOwners(cfg: Config, db: Db, id: Identity, now: string, at: string, team: string)
    ensures Owners(LeaveStep(cfg, db, id, at, now).db, team) ==
      if LeaveStep(cfg, db, id, at, now).out.Ok? && at == team then Owners(db, team) - {id.sub} else Owners(db, team)
    ensures id.sub in Owners(db, team) ==> Resolve(cfg, db, team, id) == Some(Owner)
  {
    OwnersAfterDrop(db, at, id.sub, team);
    OwnersByRow(db.roles, team, id.sub);
  }

  lemma OtherSteps(cfg: Config, db: Db, id: Identity, now: string, op: Op, team: string)
    requires !Administers(op) && !op.Redeem? && !op.Leave?
    requires Owners(db, team) != {}
    ensures Owners(Handle(cfg, db, id, now, op).db, team) ==
      if op.CreateTeam? && op.team == team && Handle(cfg, db, id, now, op).out.Ok? && team !in db.registry
      then Owners(db, team) + {id.sub} else Owners(db, team)
  {
    if Gated(op) {
      GatedOwners(cfg, db, id, op, team);
      var gate := GateOf(cfg, db, id, op);
      if gate.role.Ok? {
        BodyFrame(gate.db, id, gate.role.value, now, op);
      }
    } else if op.CreateTeam? {
      OwnersAfterSet(db.(registry := db.registry[op.team := false]), op.team, id.sub, Owner, team);
    }
  }

  /** One request: the owner rows of an owned team move only by an owner's hand or by its founding. */
  lemma OwnersStep(cfg: Config, db: Db, req: Request, team: string)
    requires TokensBelowOwner(db) && DefaultBelowOwner(cfg, db) && Owners(db, team) != {}
    ensures Owners(Next(cfg, db, req).db, team) == Owners(db, team) || ByOwner(cfg, db, req, team) || Founds(db, req, team)
  {
    var who := Authenticate(cfg, db, req.sha, req.oidc, req.now);
    if who.Ok? && !ByOwner(cfg, db, req, team) {
      var id, now := who.value, req.now;
      if Administers(req.op) {
        AdminSteps(cfg, db, id, now, req.op, team);
      } else if req.op.Redeem? {
        RedeemCrownsIff(cfg, db, id, req.op.codeLen, req.op.sha, now, team);
      } else if req.op.Leave? {
        LeaveStepOwners(cfg, db, id, now, req.op.team, team);
      } else {
        OtherSteps(cfg, db, id, now, req.op, team);
      }
    }
  }

  // ---- nobody mints owner tokens ---------------------------------------------------------------

  lemma TokensBodyBelowOwner(db: Db, id: Identity, role: Role, now: string, op: Op)
    requires Gated(op) && TokensBelowOwner(db)
    ensures TokensBelowOwner(Body(db, id, role, now, op).db)
  {
    BodyFrame(db, id, role, now, op);
  }

  /** No request stores a token pinned at Owner: minted invites stay below the caller's ceiling. */
  lemma TokensStayBelowOwner(cfg: Config, db: Db, req: Request)
    requires TokensBelowOwner(db)
    ensures TokensBelowOwner(Next(cfg, db, req).db)
  {
    var who := Authenticate(cfg, db, req.sha, req.oidc, req.now);
    if who.Ok? {
      var id := who.value;
      if Gated(req.op) {
        GateFrame(cfg, db, id, req.op);
        var gate := GateOf(cfg, db, id, req.op);
        if gate.role.Ok? {
          TokensBodyBelowOwner(gate.db, id, gate.role.value, req.now, req.op);
        }
      } else if req.op.Redeem? {
        RedeemOutcome(cfg, db, id, req.op.codeLen, req.op.sha, req.now);
      } else {
        UngatedFrame(cfg, db, id, req.now, req.op);
      }
    }
  }

  lemma {:induction false} TokensBelowOwnerInRun(cfg: Config, db: Db, reqs: seq<Request>)
    requires TokensBelowOwner(db)
    ensures TokensBelowOwner(Run(cfg, db, reqs))
  {
    if reqs == [] {
    } else {
      var n := |reqs| - 1;
      TokensBelowOwnerInRun(cfg, db, reqs[..n]);
      TokensStayBelowOwner(cfg, Run(cfg, db, reqs[..n]), reqs[n]);
    }
  }

  // ---- whole histories ---------------------------------------------------------------------------

  lemma RunStep(cfg: Config, db: Db, reqs: seq<Request>, k: nat)
    requires k < |reqs|
    ensures Run(cfg, db, reqs[..k + 1]) == Next(cfg, Run(cfg, db, reqs[..k]), reqs[k]).db
  {
    assert reqs[..k + 1][..k] == reqs[..k];
  }

  /**
   Over every history in which the default role stays below Owner and no stored invite started at
   Owner: at every point where the team has an owner, the next request changes its owner rows only
   if the caller is effectively Owner there, or the request founds the team.
   */
  lemma OwnersChangeOnlyByOwners(cfg: Config, db: Db, reqs: seq<Request>, team: string, k: nat)
    requires TokensBelowOwner(db) && k < |reqs|
    requires forall i :: 0 <= i < |reqs| ==> DefaultBelowOwner(cfg, Run(cfg, db, reqs[..i]))
    ensures var now := Run(cfg, db, reqs[..k]);
      || Owners(now, team) == {}
      || Owners(Run(cfg, db, reqs[..k + 1]), team) == Owners(now, team)
      || ByOwner(cfg, now, reqs[k], team)
      || Founds(now, reqs[k], team)
  {
    var now := Run(cfg, db, reqs[..k]);
    TokensBelowOwnerInRun(cfg, db, reqs[..k]);
    RunStep(cfg, db, reqs, k);
    if Owners(now, team) != {} {
      OwnersStep(cfg, now, reqs[k], team);
    }
  }

  /** A history without such a request leaves the owners exactly as they were. */
  lemma {:induction false} OutsidersNeverMoveOwners(cfg: Config, db: Db, reqs: seq<Request>, team: string)
    requires TokensBelowOwner(db) && Owners(db, team) != {}
    requires forall i :: 0 <= i < |reqs| ==>
      var now := Run(cfg, db, reqs[..i]);
      DefaultBelowOwner(cfg, now) && !ByOwner(cfg, now, reqs[i], team) && !Founds(now, reqs[i], team)
    ensures Owners(Run(cfg, db, reqs), team) == Owners(db, team)
  {
    if reqs == [] {
    } else {
      var n := |reqs| - 1;
      var pre := reqs[..n];
      forall i | 0 <= i < n ensures pre[..i] == reqs[..i] && pre[i] == reqs[i] {}
      OutsidersNeverMoveOwners(cfg, db, pre, team);
      TokensBelowOwnerInRun(cfg, db, pre);
      OwnersStep(cfg, Run(cfg, db, pre), reqs[n], team);
    }
  }

  /**
   With a default role of Owner the promise fails: whatever the state, an outsider who redeems a
   live invite without a pinned role becomes an owner of its team.
   */
  lemma DefaultOwnerLetsOutsidersIn(cfg: Config, db: Db, req: Request, sub: string, team: string)
    requires req.op.Redeem? && 1 <= req.op.codeLen <= 512 && req.op.sha in db.tokens
    requires var invite := db.tokens[req.op.sha]; Redeemable(invite, req.now) && invite.role == None && team in invite.teams
    requires FromStatic(cfg.staticTokens, req.sha) == None && req.sha !in db.tokens && req.oidc == Some(Claims(sub, []))
    requires !DefaultBelowOwner(cfg, db) && !IsArchived(db, team) && sub !in Owners(db, team)
    ensures !ByOwner(cfg, db, req, team)
    ensures Owners(Next(cfg, db, req).db, team) == Owners(db, team) + {sub}
  {
    var id := Identity(sub, [], None, None);
    assert Authenticate(cfg, db, req.sha, req.oidc, req.now) == Ok(id);
    OwnersByRow(db.roles, team, sub);
    RedeemOutcome(cfg, db, id, req.op.codeLen, req.op.sha, req.now);
    var invite := db.tokens[req.op.sha];
    assert team in OpenTeams(db, invite);
    OwnersAfterJoin(db.roles, sub, OpenTeams(db, invite), Owner, team);
  }

  // ---- founding ----------------------------------------------------------------------------------------

  /**
   Exactly when creating a team moves a team's owners: the name is that team's and a proper one, the
   policy lets the caller create teams, the registry does not list it, and the caller has no owner row
   there. Whether others own it already is not asked: the access check crowns without registering.
   */
  lemma FoundingCrownsIff(cfg: Config, db: Db, id: Identity, created: string, team: string)
    ensures Owners(CreateTeamStep(cfg, db, id, created).db, team) != Owners(db, team) <==>
      && created == team && ValidTeamName(team) && MayCreateTeams(cfg, db, id)
      && team !in db.registry && id.sub !in Owners(db, team)
    ensures Owners(db, team) <= Owners(CreateTeamStep(cfg, db, id, created).db, team) <= Owners(db, team) + {id.sub}
  {
    OwnersAfterSet(db.(registry := db.registry[created := false]), created, id.sub, Owner, team);
  }

  /** So a stranger becomes a second owner of a team that was bootstrapped and never registered. */
  lemma OutsiderFoundsOwnedTeam(cfg: Config, db: Db, req: Request, sub: string, team: string)
    requires req.op == CreateTeam(team) && ValidTeamName(team) && Org(db).teamCreation == "bootstrap"
    requires FromStatic(cfg.staticTokens, req.sha) == None && req.sha !in db.tokens && req.oidc == Some(Claims(sub, []))
    requires team !in db.registry && Owners(db, team) != {} && Seat(team, sub) !in db.roles
    ensures !ByOwner(cfg, db, req, team)
    ensures Owners(Next(cfg, db, req).db, team) == Owners(db, team) + {sub} != Owners(db, team)
  {
    var id := Identity(sub, [], None, None);
    assert Authenticate(cfg, db, req.sha, req.oidc, req.now) == Ok(id);
    OwnersByRow(db.roles, team, sub);
    OwnersAfterSet(db.(registry := db.registry[team := false]), team, sub, Owner, team);
  }

  /** Bootstrapping does that: the access check makes an owner and leaves the registry alone. */
  lemma BootstrappedIsNotRegistered(cfg: Config, db: Db, team: string, id: Identity, min: Role)
    requires Bootstraps(db, team, id) && team !in db.registry
    ensures var after := EnsureAccess(cfg, db, team, id, min).db;
      Owners(after, team) == {id.sub} && team !in after.registry
  {
    GateEffect(cfg, db, team, id, min);
    OwnersAfterSet(db, team, id.sub, Owner, team);
  }

  lemma BodyRegistry(db: Db, id: Identity, role: Role, now: string, op: Op)
    requires Gated(op)
    ensures db.registry.Keys <= Body(db, id, role, now, op).db.registry.Keys
  {
  }

  lemma UngatedRegistry(cfg: Config, db: Db, id: Identity, now: string, op: Op)
    requires !Gated(op)
    ensures db.registry.Keys <= Handle(cfg, db, id, now, op).db.registry.Keys
  {
    if op.Redeem? {
      RedeemOutcome(cfg, db, id, op.codeLen, op.sha, now);
    }
  }

  lemma RegistryGrows(cfg: Config, db: Db, req: Request)
    ensures db.registry.Keys <= Next(cfg, db, req).db.registry.Keys
  {
    var who := Authenticate(cfg, db, req.sha, req.oidc, req.now);
    if who.Ok? {
      if Gated(req.op) {
        GateFrame(cfg, db, who.value, req.op);
        var gate := GateOf(cfg, db, who.value, req.op);
        if gate.role.Ok? {
          BodyRegistry(gate.db, who.value, gate.role.value, req.now, req.op);
        }
      } else {
        UngatedRegistry(cfg, db, who.value, req.now, req.op);
      }
    }
  }

  lemma {:induction false} RegisteredForGood(cfg: Config, db: Db, reqs: seq<Request>, team: string)
    requires team in db.registry
    ensures team in Run(cfg, db, reqs).registry
  {
    if reqs == [] {
    } else {
      RegisteredForGood(cfg, db, reqs[..|reqs| - 1], team);
      RegistryGrows(cfg, Run(cfg, db, reqs[..|reqs| - 1]), reqs[|reqs| - 1]);
    }
  }

  /** For a registered team the exception is gone for good: its owners move only by an owner's hand. */
  lemma RegisteredOwnersMoveOnlyByOwners(cfg: Config, db: Db, reqs: seq<Request>, team: string, k: nat)
    requires TokensBelowOwner(db) && team in db.registry && k < |reqs|
    requires forall i :: 0 <= i < |reqs| ==> DefaultBelowOwner(cfg, Run(cfg, db, reqs[..i]))
    ensures var now := Run(cfg, db, reqs[..k]);
      || Owners(now, team) == {}
      || Owners(Run(cfg, db, reqs[..k + 1]), team) == Owners(now, team)
      || ByOwner(cfg, now, reqs[k], team)
  {
    OwnersChangeOnlyByOwners(cfg, db, reqs, team, k);
    RegisteredForGood(cfg, db, reqs[..k], team);
  }

  // ---- a team is never stranded by its members -------------------------------------------------------

  /**
   Which requests can take a team's last owner away: an effective owner sets, removes or revokes
   the only owner's row. Nothing else can, whatever roles are pinned or the default is.
   */
  lemma OnlyOwnersStrandTeams(cfg: Config, db: Db, req: Request, team: string)
    requires Owners(db, team) != {} && Owners(Next(cfg, db, req).db, team) == {}
    ensures Administers(req.op)
    ensures req.op.team == team && Owners(db, team) == {req.op.sub} && ByOwner(cfg, db, req, team)
  {
    var id, op := Authenticate(cfg, db, req.sha, req.oidc, req.now).value, req.op;
    if Administers(op) {
      AdminSteps(cfg, db, id, req.now, op, team);
      SoleMember(Owners(db, team), op.sub);
    } else if op.Redeem? {
      RedeemOwners(cfg, db, id, req.now, op, team);
    } else if op.Leave? {
      LeaveStepOwners(cfg, db, id, req.now, op.team, team);
      SoleMember(Owners(db, team), id.sub);
    } else {
      OtherSteps(cfg, db, id, req.now, op, team);
    }
  }

  lemma RedeemOwners(cfg: Config, db: Db, id: Identity, now: string, op: Op, team: string)
    requires op.Redeem?
    ensures Owners(db, team) <= Owners(Handle(cfg, db, id, now, op).db, team)
  {
    RedeemOutcome(cfg, db, id, op.codeLen, op.sha, now);
    if op.sha in db.tokens {
      OwnersAfterJoin(db.roles, id.sub, OpenTeams(db, db.tokens[op.sha]), JoinRole(cfg, db, db.tokens[op.sha]), team);
    }
  }

  lemma SoleMember(s: set<string>, x: string)
    ensures s != {} && s - {x} == {} ==> s == {x} && |s| == 1
  {
    if s != {} && s - {x} == {} {
      assert s == {x};
    }
  }

  /** The requests members make for themselves. */
  ghost predicate SelfService(op: Op) {
    op.Pull? || op.Push? || op.Members? || op.Redeem? || op.Leave?
  }

  /** Over every history of self-service requests, a team that has an owner keeps at least one. */
  lemma {:induction false} SelfServiceKeepsAnOwner(cfg: Config, db: Db, reqs: seq<Request>, team: string)
    requires Owners(db, team) != {}
    requires forall i :: 0 <= i < |reqs| ==> SelfService(reqs[i].op)
    ensures Owners(Run(cfg, db, reqs), team) != {}
  {
    if reqs == [] {
    } else {
      var n := |reqs| - 1;
      SelfServiceKeepsAnOwner(cfg, db, reqs[..n], team);
      if Owners(Run(cfg, db, reqs), team) == {} {
        OnlyOwnersStrandTeams(cfg, Run(cfg, db, reqs[..n]), reqs[n], team);
      }
    }
  }

  /** Exactly when leaving works: the caller has a role, and is not Owner of a team with at most one owner row. */
  lemma LeaveWorksIff(cfg: Config, db: Db, id: Identity, team: string, now: string)
    ensures LeaveStep(cfg, db, id, team, now).out.Ok? <==>
      (Seat(team, id.sub) in db.roles || team in id.teams)
      && (Resolve(cfg, db, team, id) == Some(Owner) ==> |Owners(db, team)| >= 2)
  {
  }
}
