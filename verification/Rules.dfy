/**
 The capability matrix: for every request that names a team or a setting, exactly who may make it, what
 it then changes and what it is refused with; and what follows for whole histories.
 */
module Rules {
  import opened Wrappers
  import opened Roles
  import opened State
  import opened Auth
  import opened Access
  import opened Api
  import opened Standing
  import Text
  import Timestamps
  import Ownership
  import Storage
  import Pushing
  import Feed

  /** The request is made by `id`, who acts in role `r` from the state `was` on `team`. */
  ghost predicate Asks(cfg: Config, db: Db, req: Request, team: string, id: Identity, was: Db, r: Role) {
    Authenticate(cfg, db, req.sha, req.oidc, req.now) == Ok(id) && ActsAs(cfg, db, team, id, was, r)
  }

  function RowOr(db: Db, team: string, sub: string, r: Role): Role {
    if Seat(team, sub) in db.roles then db.roles[Seat(team, sub)] else r
  }

  ghost predicate Archived(db: Db, team: string) {
    team in db.registry && db.registry[team]
  }

  /** An owner may do anything to a row; a manager or an admin moves it between roles below its own. */
  ghost predicate Commands(r: Role, from: Role, to: Role) {
    r == Owner || (r in LEADERS && from.Rank() < r.Rank() && to.Rank() < r.Rank())
  }

  lemma LetIn(cfg: Config, db: Db, req: Request, id: Identity, was: Db, r: Role)
    requires Gated(req.op) && Asks(cfg, db, req, req.op.team, id, was, r)
    ensures Next(cfg, db, req) ==
      if r.AtLeast(GateLevel(req.op)) then Body(was, id, r, req.now, req.op) else Step(was, Err(Forbidden))
  {
    GateDecides(cfg, db, req.op.team, id, GateLevel(req.op), was, r);
  }

  // ---- the matrix ------------------------------------------------------------------------------------

  /** Whoever has neither a row nor the team in its credential is refused everything on it. */
  lemma StrangersAreRefused(cfg: Config, db: Db, req: Request, id: Identity)
    requires Authenticate(cfg, db, req.sha, req.oidc, req.now) == Ok(id)
    requires !req.op.Redeem? && !req.op.CreateTeam? && !req.op.PutOrg? && Stranger(db, req.op.team, id)
    ensures Next(cfg, db, req) == Step(db, Err(Forbidden))
  {
    if req.op.Leave? {
      ResolvedIsHeld(cfg, db, req.op.team, id, Reader);
    } else {
      GateDecides(cfg, db, req.op.team, id, GateLevel(req.op), db, Reader);
    }
  }

  /** Every role may pull and see the roster; an archived team gives neither. */
  lemma ReadingIsForAll(cfg: Config, db: Db, req: Request, id: Identity, was: Db, r: Role)
    requires (req.op.Pull? || req.op.Members?) && Asks(cfg, db, req, req.op.team, id, was, r)
    ensures Next(cfg, db, req).db == was
    ensures Next(cfg, db, req).out.Ok? <==> !Archived(was, req.op.team)
    ensures Next(cfg, db, req).out.Err? ==> Next(cfg, db, req).out == Err(ArchivedTeam)
  {
    LetIn(cfg, db, req, id, was, r);
  }

  /** Only owners archive. */
  lemma ArchivingIsForOwners(cfg: Config, db: Db, req: Request, id: Identity, was: Db, r: Role)
    requires req.op.Archive? && Asks(cfg, db, req, req.op.team, id, was, r)
    ensures Next(cfg, db, req) ==
      if r == Owner then Step(was.(registry := was.registry[req.op.team := true]), Ok(Nothing))
      else Step(was, Err(Forbidden))
  {
    LetIn(cfg, db, req, id, was, r);
  }

  /** A role is given exactly by those who command both the row it replaces and the row it makes. */
  lemma RolesAreGivenFromAbove(cfg: Config, db: Db, req: Request, id: Identity, was: Db, r: Role, wanted: Role)
    requires req.op.SetRole? && req.op.role == ROLE_NAMES[wanted.Rank()] && Asks(cfg, db, req, req.op.team, id, was, r)
    ensures Next(cfg, db, req) ==
      if Commands(r, RowOr(was, req.op.team, req.op.sub, Reader), wanted)
      then Step(was.(roles := was.roles[Seat(req.op.team, req.op.sub) := wanted]), Ok(Nothing))
      else Step(was, Err(Forbidden))
  {
    LetIn(cfg, db, req, id, was, r);
    NamesInOrder(req.op.role, wanted);
  }

  /** A word that names no role is invalid, to those who may give roles at all. */
  lemma UnknownRolesAreInvalid(cfg: Config, db: Db, req: Request, id: Identity, was: Db, r: Role)
    requires req.op.SetRole? && req.op.role !in ROLE_NAMES && Asks(cfg, db, req, req.op.team, id, was, r)
    ensures Next(cfg, db, req) == Step(was, Err(if r in LEADERS then Validation else Forbidden))
  {
    LetIn(cfg, db, req, id, was, r);
    forall p: Role ensures RoleFromStr(req.op.role) != Some(p) {
      assert ROLE_NAMES[p.Rank()] in ROLE_NAMES;
      NamesInOrder(req.op.role, p);
    }
  }

  /** Rows are removed, and access is revoked, by those who command the row down to Reader. */
  lemma RowsAreTakenFromAbove(cfg: Config, db: Db, req: Request, id: Identity, was: Db, r: Role)
    requires (req.op.RemoveRole? || req.op.RevokeAccess?) && Asks(cfg, db, req, req.op.team, id, was, r)
    ensures var step := Next(cfg, db, req);
      if Commands(r, RowOr(was, req.op.team, req.op.sub, Reader), Reader)
      then step.out == Ok(Nothing) && step.db.(tokens := was.tokens) == was.(roles := was.roles - {Seat(req.op.team, req.op.sub)})
        && (req.op.RemoveRole? ==> step.db.tokens == was.tokens)
      else step == Step(was, Err(Forbidden))
  {
    LetIn(cfg, db, req, id, was, r);
  }

  ghost predicate MayPin(r: Role, pinned: Option<string>) {
    pinned == None || exists p: Role :: p.Rank() < r.Rank() && pinned == Some(ROLE_NAMES[p.Rank()])
  }

  lemma CeilingIsJustBelow(r: Role, pinned: Option<string>)
    requires r in LEADERS
    ensures MayPin(r, pinned) <==>
      (pinned.Some? ==> PinnedRole(pinned).Some? && InviteCeiling(r).AtLeast(PinnedRole(pinned).value))
  {
    NameIsRead(pinned);
    forall p: Role ensures pinned == Some(ROLE_NAMES[p.Rank()]) <==> PinnedRole(pinned) == Some(p) {
      NamesInOrder("", p);
    }
  }

  /**
   An invite is minted exactly by managers and above, for a name of 1 to 256 bytes, with no role or with
   one strictly below the minter's own; and then it is stored as asked for.
   */
  lemma InvitesStayBelowTheMinter(cfg: Config, db: Db, req: Request, id: Identity, was: Db, r: Role)
    requires req.op.CreateInvite? && req.op.newSha !in db.tokens && Asks(cfg, db, req, req.op.team, id, was, r)
    ensures var step, op := Next(cfg, db, req), req.op;
      if r in LEADERS && 1 <= Text.Utf8Len(op.sub) <= 256 && MayPin(r, op.pinned)
      then step == Step(was.(tokens := was.tokens[op.newSha := StoredToken(op.sub, [op.team], op.pinned, op.expiresAt, None)]), Ok(Nothing))
      else step.out.Err? && step.db == was
    ensures r !in LEADERS ==> Next(cfg, db, req).out == Err(Forbidden)
  {
    LetIn(cfg, db, req, id, was, r);
    if r in LEADERS {
      CeilingIsJustBelow(r, req.op.pinned);
    }
  }

  /** Groups are restricted and opened, grants given and taken, by managers and above. */
  lemma RestrictingIsForLeaders(cfg: Config, db: Db, req: Request, id: Identity, was: Db, r: Role)
    requires req.op.SetRestricted? && Asks(cfg, db, req, req.op.team, id, was, r)
    ensures var step, flag := Next(cfg, db, req), GroupFlag(req.op.team, req.op.group);
      if r in LEADERS then
        && step.out == Ok(Nothing) && step.db.(restricted := was.restricted) == was
        && (flag in step.db.restricted <==> req.op.on) && step.db.restricted - {flag} == was.restricted - {flag}
      else step == Step(was, Err(Forbidden))
  {
    LetIn(cfg, db, req, id, was, r);
  }

  lemma GrantingIsForLeaders(cfg: Config, db: Db, req: Request, id: Identity, was: Db, r: Role)
    requires req.op.SetGrant? && Asks(cfg, db, req, req.op.team, id, was, r)
    ensures Next(cfg, db, req) ==
      if r !in LEADERS then Step(was, Err(Forbidden))
      else if req.op.level != "read" && req.op.level != "write" then Step(was, Err(Validation))
      else Step(was.(grants := was.grants[Acl(req.op.team, req.op.group, req.op.sub) := req.op.level]), Ok(Nothing))
  {
    LetIn(cfg, db, req, id, was, r);
  }

  lemma UngrantingIsForLeaders(cfg: Config, db: Db, req: Request, id: Identity, was: Db, r: Role)
    requires req.op.RemoveGrant? && Asks(cfg, db, req, req.op.team, id, was, r)
    ensures Next(cfg, db, req) ==
      if r in LEADERS
      then Step(was.(grants := was.grants - {Acl(req.op.team, req.op.group, req.op.sub)}), Ok(Nothing))
      else Step(was, Err(Forbidden))
  {
    LetIn(cfg, db, req, id, was, r);
  }

  lemma InspectingIsForLeaders(cfg: Config, db: Db, req: Request, id: Identity, was: Db, r: Role)
    requires req.op.Inspect? && Asks(cfg, db, req, req.op.team, id, was, r)
    ensures Next(cfg, db, req) == Step(was, if r in LEADERS then Ok(Nothing) else Err(Forbidden))
  {
    LetIn(cfg, db, req, id, was, r);
  }

  // ---- founding, settings, leaving, joining -------------------------------------------------------------

  /** Letters, digits, dot, underscore and hyphen, by their codes. */
  ghost predicate NameChar(c: int) {
    48 <= c <= 57 || 65 <= c <= 90 || 97 <= c <= 122 || c == 46 || c == 95 || c == 45
  }

  ghost predicate ProperName(team: string) {
    1 <= |team| <= 64 && forall i :: 0 <= i < |team| ==> NameChar(team[i] as int)
  }

  lemma ProperNameIsValid(team: string)
    ensures ValidTeamName(team) <==> ProperName(team)
  {
    if ValidTeamName(team) {
      forall i | 0 <= i < |team| ensures NameChar(team[i] as int) {
        assert team[i] in team;
      }
    }
  }

  ghost predicate HoldsAbove(cfg: Config, db: Db, id: Identity, min: Role) {
    exists t, r: Role :: HasRole(cfg, db, t, id, r) && r.Rank() >= min.Rank()
  }

  lemma HeldSomewhere(cfg: Config, db: Db, id: Identity, min: Role)
    ensures HoldsSomewhere(cfg, db, id, min) <==> HoldsAbove(cfg, db, id, min)
  {
    if HoldsSomewhere(cfg, db, id, min) {
      var t :| t in MyTeams(db, id) && Resolve(cfg, db, t, id).Some? && Resolve(cfg, db, t, id).value.AtLeast(min);
      ResolvedIsHeld(cfg, db, t, id, Resolve(cfg, db, t, id).value);
    }
    if HoldsAbove(cfg, db, id, min) {
      var t, r: Role :| HasRole(cfg, db, t, id, r) && r.Rank() >= min.Rank();
      ResolvedIsHeld(cfg, db, t, id, r);
      assert t in MyTeams(db, id);
    }
  }

  /** Who may found teams: owners of any, admins of any, or everybody, as the organisation says. */
  ghost predicate MayFound(cfg: Config, db: Db, id: Identity) {
    db.org.Some? ==>
      && (db.org.value.teamCreation == "owners" ==> HoldsAbove(cfg, db, id, Owner))
      && (db.org.value.teamCreation == "admins" ==> HoldsAbove(cfg, db, id, Admin))
  }

  /**
   A team is founded, with its founder as an owner, under a proper name that is new to the registry, by
   whoever may; an archived one is taken up again by its owners; all else is refused.
   */
  lemma FoundingFollowsThePolicy(cfg: Config, db: Db, req: Request, id: Identity)
    requires req.op.CreateTeam? && Authenticate(cfg, db, req.sha, req.oidc, req.now) == Ok(id)
    ensures var team := req.op.team;
      Next(cfg, db, req) ==
        if !ProperName(team) then Step(db, Err(Validation))
        else if !MayFound(cfg, db, id) then Step(db, Err(Forbidden))
        else if team !in db.registry then
          Step(db.(registry := db.registry[team := false], roles := db.roles[Seat(team, id.sub) := Owner]), Ok(Nothing))
        else if db.registry[team] && HasRole(cfg, db, team, id, Owner) then
          Step(db.(registry := db.registry[team := false]), Ok(Nothing))
        else Step(db, Err(Validation))
  {
    ProperNameIsValid(req.op.team);
    HeldSomewhere(cfg, db, id, Owner);
    HeldSomewhere(cfg, db, id, Admin);
    ResolvedIsHeld(cfg, db, req.op.team, id, Owner);
  }

  ghost predicate ProperSettings(o: OrgSettings) {
    && (o.defaultRole == None || o.defaultRole.value in ROLE_NAMES)
    && o.teamCreation in {"owners", "admins", "bootstrap"}
    && o.exportTeamGroups in {"open", "managers", "disabled"}
    && 0 < o.auditRetentionDays < 3651
  }

  lemma ProperSettingsAreValid(o: OrgSettings)
    ensures ValidOrg(o) <==> ProperSettings(o)
  {
    if o.defaultRole.Some? {
      var name := o.defaultRole.value;
      if RoleFromStr(name).Some? {
        NamesInOrder(name, RoleFromStr(name).value);
      }
      if name in ROLE_NAMES {
        var i :| 0 <= i < |ROLE_NAMES| && ROLE_NAMES[i] == name;
        var r := if i == 0 then Reader else if i == 1 then Writer else if i == 2 then Manager else if i == 3 then Admin else Owner;
        NamesInOrder(name, r);
      }
    }
  }

  /** The settings are for owners of some team, and only proper ones are stored. */
  lemma SettingsAreForOwners(cfg: Config, db: Db, req: Request, id: Identity)
    requires req.op.PutOrg? && Authenticate(cfg, db, req.sha, req.oidc, req.now) == Ok(id)
    ensures Next(cfg, db, req) ==
      if !HoldsAbove(cfg, db, id, Owner) then Step(db, Err(Forbidden))
      else if !ProperSettings(req.op.settings) then Step(db, Err(Validation))
      else Step(db.(org := Some(req.op.settings)), Ok(Nothing))
  {
    HeldSomewhere(cfg, db, id, Owner);
    ProperSettingsAreValid(req.op.settings);
  }

  /** Everybody with a role may leave, but for an owner beside whom no second one has a row. */
  lemma LeavingIsForAllButTheLastOwner(cfg: Config, db: Db, req: Request, id: Identity, r: Role)
    requires req.op.Leave? && Authenticate(cfg, db, req.sha, req.oidc, req.now) == Ok(id)
    requires HasRole(cfg, db, req.op.team, id, r)
    ensures var step, team := Next(cfg, db, req), req.op.team;
      if r == Owner && forall a, b :: a in Owners(db, team) && b in Owners(db, team) ==> a == b
      then step == Step(db, Err(Validation))
      else step.out == Ok(Nothing) && step.db.(tokens := db.tokens) == db.(roles := db.roles - {Seat(team, id.sub)})
  {
    ResolvedIsHeld(cfg, db, req.op.team, id, r);
    AtMostOne(Owners(db, req.op.team));
  }

  lemma AtMostOne(s: set<string>)
    ensures |s| <= 1 <==> forall a, b :: a in s && b in s ==> a == b
  {
    if s != {} {
      var x :| x in s;
      assert |s| == 1 + |s - {x}|;
      if |s| >= 2 {
        var y :| y in s - {x};
      } else {
        assert s - {x} == {};
        assert forall a :: a in s ==> a == x || a in s - {x};
      }
    }
  }

  /** The role an invite offers: the one it names, else the default. */
  ghost predicate Offers(cfg: Config, db: Db, invite: StoredToken, r: Role) {
    if NamesNoRole(invite.role) then ByDefault(cfg, db, r) else invite.role == Some(ROLE_NAMES[r.Rank()])
  }

  lemma OfferedIsJoined(cfg: Config, db: Db, invite: StoredToken, r: Role)
    ensures JoinRole(cfg, db, invite) == r <==> Offers(cfg, db, invite, r)
  {
    NameIsRead(invite.role);
    NamesInOrder("", r);
    DefaultIsRead(cfg, db, r);
  }

  /** The code is stored, not revoked, before its expiry, and good for some team that is not archived. */
  ghost predicate Redeems(db: Db, codeLen: nat, sha: string, expiry: Option<Timestamps.Instant>, now: Timestamps.Instant)
    requires now.Valid() && (expiry.Some? ==> expiry.value.Valid())
  {
    && 0 < codeLen < 513 && sha in db.tokens && db.tokens[sha].revokedAt == None
    && (expiry.Some? ==> Timestamps.Millis(now) < Timestamps.Millis(expiry.value))
    && exists t :: t in db.tokens[sha].teams && !Archived(db, t)
  }

  lemma RedeemsIsAccepted(db: Db, codeLen: nat, sha: string, expiry: Option<Timestamps.Instant>, now: Timestamps.Instant)
    requires now.Valid() && (expiry.Some? ==> expiry.value.Valid())
    requires sha in db.tokens ==> Until(db.tokens[sha], expiry)
    ensures Redeems(db, codeLen, sha, expiry, now) <==> RedeemAccepted(db, codeLen, sha, Timestamps.Format(now))
  {
    if sha in db.tokens {
      var invite := db.tokens[sha];
      ExpiresWhenTold(invite, expiry, now);
      forall t ensures t in OpenTeams(db, invite) <==> t in invite.teams && !Archived(db, t) {}
    }
  }

  /** The better of the row there was and the role on offer. */
  ghost predicate RaisedTo(before: Db, after: Db, team: string, sub: string, offered: Role) {
    && Seat(team, sub) in after.roles
    && after.roles[Seat(team, sub)] ==
         if RowOr(before, team, sub, Reader).Rank() > offered.Rank() then RowOr(before, team, sub, Reader) else offered
  }

  lemma JoinedIsRaised(db: Db, after: Db, sub: string, invite: StoredToken, offered: Role, team: string)
    requires after.roles == JoinedRoles(db.roles, sub, OpenTeams(db, invite), offered)
    requires team in invite.teams && !Archived(db, team)
    ensures RaisedTo(db, after, team, sub, offered)
  {
    Ownership.JoinedRow(db.roles, sub, OpenTeams(db, invite), offered, Seat(team, sub));
  }

  /**
   A code that redeems gives the caller, on each of its teams that is not archived, the role it offers, unless
   the row there is higher; and it is spent at that moment, unless it is the caller's own credential. Any other
   code changes nothing.
   */
  lemma CodesGiveWhatTheyOffer(
    cfg: Config, db: Db, req: Request, id: Identity, expiry: Option<Timestamps.Instant>, now: Timestamps.Instant,
    offered: Role, team: string)
    requires req.op.Redeem? && Authenticate(cfg, db, req.sha, req.oidc, req.now) == Ok(id)
    requires now.Valid() && req.now == Timestamps.Format(now) && (expiry.Some? ==> expiry.value.Valid())
    requires req.op.sha in db.tokens ==> Until(db.tokens[req.op.sha], expiry) && Offers(cfg, db, db.tokens[req.op.sha], offered)
    ensures var step := Next(cfg, db, req);
      if Redeems(db, req.op.codeLen, req.op.sha, expiry, now) then
        var invite := db.tokens[req.op.sha];
        && step.out == Ok(Nothing)
        && (team in invite.teams && !Archived(db, team) ==> RaisedTo(db, step.db, team, id.sub, offered))
        && step.db.tokens ==
             if id.tokenSha == Some(req.op.sha) then db.tokens else db.tokens[req.op.sha := invite.(revokedAt := Some(req.now))]
      else step == Step(db, Err(Validation))
  {
    RedeemsIsAccepted(db, req.op.codeLen, req.op.sha, expiry, now);
    RedeemOutcome(cfg, db, id, req.op.codeLen, req.op.sha, req.now);
    if Redeems(db, req.op.codeLen, req.op.sha, expiry, now) {
      var invite := db.tokens[req.op.sha];
      OfferedIsJoined(cfg, db, invite, offered);
      if team in invite.teams && !Archived(db, team) {
        JoinedIsRaised(db, Next(cfg, db, req).db, id.sub, invite, offered, team);
      }
    }
  }

  // ---- histories: rows ---------------------------------------------------------------------------------

  /** The caller acts, at that moment, in a role above `held`, or as an owner. */
  ghost predicate FromAbove(cfg: Config, db: Db, req: Request, team: string, held: Role) {
    exists id, was, r: Role :: Asks(cfg, db, req, team, id, was, r) && (r == Owner || held.Rank() < r.Rank())
  }

  ghost predicate BySubject(cfg: Config, db: Db, req: Request, sub: string) {
    var who := Authenticate(cfg, db, req.sha, req.oidc, req.now);
    who.Ok? && who.value.sub == sub
  }

  lemma UngatedLeavesOthersRows(cfg: Config, db: Db, id: Identity, now: string, op: Op, team: string, sub: string)
    requires !Gated(op) && id.sub != sub
    ensures RoleRow(Handle(cfg, db, id, now, op).db, team, sub) == RoleRow(db, team, sub)
  {
    if op.Redeem? {
      RedeemOutcome(cfg, db, id, op.codeLen, op.sha, now);
      if RedeemAccepted(db, op.codeLen, op.sha, now) {
        var invite := db.tokens[op.sha];
        Ownership.JoinedRow(db.roles, id.sub, OpenTeams(db, invite), JoinRole(cfg, db, invite), Seat(team, sub));
      }
    }
  }

  lemma HandlerMovesRow(was: Db, id: Identity, r: Role, now: string, op: Op, team: string, sub: string)
    requires Gated(op) && RoleRow(Body(was, id, r, now, op).db, team, sub) != RoleRow(was, team, sub)
    ensures Administers(op) && op.team == team && op.sub == sub
    ensures Commands(r, RowOr(was, team, sub, Reader), RowOr(Body(was, id, r, now, op).db, team, sub, Reader))
  {
    if !Administers(op) {
      BodyRoles(was, id, r, now, op);
    }
  }

  /**
   A request moves somebody else's row only by giving or taking that very row, and only from above: its
   caller is an owner of the team, or ranks above both what the row said and what it says now.
   */
  lemma OthersRowsMoveFromAbove(cfg: Config, db: Db, req: Request, team: string, sub: string)
    requires !BySubject(cfg, db, req, sub) && RoleRow(Next(cfg, db, req).db, team, sub) != RoleRow(db, team, sub)
    ensures Administers(req.op) && req.op.team == team && req.op.sub == sub
    ensures exists id, was, r: Role ::
      Asks(cfg, db, req, team, id, was, r)
      && Commands(r, RowOr(db, team, sub, Reader), RowOr(Next(cfg, db, req).db, team, sub, Reader))
  {
    var id := Authenticate(cfg, db, req.sha, req.oidc, req.now).value;
    if Gated(req.op) {
      GateDecides(cfg, db, req.op.team, id, GateLevel(req.op), db, Reader);
      var was, r := OneStanding(cfg, db, req.op.team, id);
      LetIn(cfg, db, req, id, was, r);
      HandlerMovesRow(was, id, r, req.now, req.op, team, sub);
      assert Asks(cfg, db, req, team, id, was, r);
    } else {
      UngatedLeavesOthersRows(cfg, db, id, req.now, req.op, team, sub);
      assert false;
    }
  }

  /** Over every history without a request from above, and none of the holder's own, a row stays as it is. */
  lemma {:induction false} RowsStayUnlessCommanded(cfg: Config, db: Db, reqs: seq<Request>, team: string, sub: string)
    requires Seat(team, sub) in db.roles
    requires forall i :: 0 <= i < |reqs| ==>
      var now := Run(cfg, db, reqs[..i]);
      !BySubject(cfg, now, reqs[i], sub) && !FromAbove(cfg, now, reqs[i], team, db.roles[Seat(team, sub)])
    ensures RoleRow(Run(cfg, db, reqs), team, sub) == RoleRow(db, team, sub)
  {
    if reqs == [] {
    } else {
      var n := |reqs| - 1;
      var pre := reqs[..n];
      forall i | 0 <= i < n ensures pre[..i] == reqs[..i] && pre[i] == reqs[i] {}
      RowsStayUnlessCommanded(cfg, db, pre, team, sub);
      var now := Run(cfg, db, pre);
      if RoleRow(Next(cfg, now, reqs[n]).db, team, sub) != RoleRow(now, team, sub) {
        OthersRowsMoveFromAbove(cfg, now, reqs[n], team, sub);
        assert FromAbove(cfg, now, reqs[n], team, db.roles[Seat(team, sub)]);
        assert false;
      }
    }
  }

  // ---- histories: archived teams ------------------------------------------------------------------------

  /** An owner of the team founds it again. */
  ghost predicate Reopens(cfg: Config, db: Db, req: Request, team: string) {
    var who := Authenticate(cfg, db, req.sha, req.oidc, req.now);
    && who.Ok? && req.op == CreateTeam(team) && ProperName(team)
    && MayFound(cfg, db, who.value) && HasRole(cfg, db, team, who.value, Owner)
  }

  lemma HandlerKeepsArchived(was: Db, id: Identity, r: Role, now: string, op: Op, team: string)
    requires Gated(op) && Archived(was, team)
    ensures Archived(Body(was, id, r, now, op).db, team)
  {
  }

  lemma UngatedKeepsArchived(cfg: Config, db: Db, id: Identity, now: string, op: Op, team: string)
    requires !Gated(op) && !op.CreateTeam? && Archived(db, team)
    ensures Archived(Handle(cfg, db, id, now, op).db, team)
  {
    if op.Redeem? {
      RedeemOutcome(cfg, db, id, op.codeLen, op.sha, now);
    }
  }

  /** An archived team opens again if and only if one of its owners founds it anew. */
  lemma ArchivingEndsIff(cfg: Config, db: Db, req: Request, team: string)
    requires Archived(db, team)
    ensures Archived(Next(cfg, db, req).db, team) <==> !Reopens(cfg, db, req, team)
  {
    var who := Authenticate(cfg, db, req.sha, req.oidc, req.now);
    if who.Ok? {
      if Gated(req.op) {
        GateFrame(cfg, db, who.value, req.op);
        var gate := GateOf(cfg, db, who.value, req.op);
        if gate.role.Ok? {
          HandlerKeepsArchived(gate.db, who.value, gate.role.value, req.now, req.op, team);
        }
      } else if req.op.CreateTeam? {
        FoundingFollowsThePolicy(cfg, db, req, who.value);
      } else {
        UngatedKeepsArchived(cfg, db, who.value, req.now, req.op, team);
      }
    }
  }

  lemma ArchivedAnswersNothing(cfg: Config, db: Db, req: Request)
    requires (req.op.Pull? || req.op.Push? || req.op.Members?) && Archived(db, req.op.team)
    ensures Next(cfg, db, req).out.Err?
  {
    var who := Authenticate(cfg, db, req.sha, req.oidc, req.now);
    if who.Ok? {
      GateFrame(cfg, db, who.value, req.op);
    }
  }

  /** Until then, over every history, it stays archived, and answers no pull, no push and no roster. */
  lemma {:induction false} ArchivedServesNobody(cfg: Config, db: Db, reqs: seq<Request>, team: string, req: Request)
    requires Archived(db, team)
    requires forall i :: 0 <= i < |reqs| ==> !Reopens(cfg, Run(cfg, db, reqs[..i]), reqs[i], team)
    requires (req.op.Pull? || req.op.Push? || req.op.Members?) && req.op.team == team
    ensures Archived(Run(cfg, db, reqs), team) && Next(cfg, Run(cfg, db, reqs), req).out.Err?
  {
    if reqs == [] {
    } else {
      var n := |reqs| - 1;
      var pre := reqs[..n];
      forall i | 0 <= i < n ensures pre[..i] == reqs[..i] && pre[i] == reqs[i] {}
      ArchivedServesNobody(cfg, db, pre, team, req);
      ArchivingEndsIff(cfg, Run(cfg, db, pre), reqs[n], team);
    }
    ArchivedAnswersNothing(cfg, Run(cfg, db, reqs), req);
  }

  // ---- histories: restricted groups ---------------------------------------------------------------------

  /** The caller acts as manager or above on the team at that moment. */
  ghost predicate ByLeader(cfg: Config, db: Db, req: Request, team: string) {
    exists id, was, r: Role :: Asks(cfg, db, req, team, id, was, r) && r in LEADERS
  }

  /** The same restriction and the same grant. */
  ghost predicate SameAccess(a: Db, b: Db, team: string, group: string, sub: string) {
    && (GroupFlag(team, group) in a.restricted <==> GroupFlag(team, group) in b.restricted)
    && (Acl(team, group, sub) in a.grants <==> Acl(team, group, sub) in b.grants)
    && (Acl(team, group, sub) in a.grants ==> a.grants[Acl(team, group, sub)] == b.grants[Acl(team, group, sub)])
  }

  lemma HandlerKeepsAccess(was: Db, id: Identity, r: Role, now: string, op: Op, team: string, group: string, sub: string)
    requires Gated(op) && (op.team == team ==> !op.SetRestricted? && !op.SetGrant? && !op.RemoveGrant?)
    ensures SameAccess(Body(was, id, r, now, op).db, was, team, group, sub)
  {
  }

  lemma UngatedKeepsAccess(cfg: Config, db: Db, id: Identity, now: string, op: Op, team: string, group: string, sub: string)
    requires !Gated(op)
    ensures SameAccess(Handle(cfg, db, id, now, op).db, db, team, group, sub)
  {
    if op.Redeem? {
      RedeemOutcome(cfg, db, id, op.codeLen, op.sha, now);
    }
  }

  lemma RefusedKeepsAccess(cfg: Config, db: Db, req: Request, team: string, group: string, sub: string)
    requires !ByLeader(cfg, db, req, team) && Gated(req.op) && req.op.team == team
    requires req.op.SetRestricted? || req.op.SetGrant? || req.op.RemoveGrant?
    ensures Next(cfg, db, req).db == db
  {
    var who := Authenticate(cfg, db, req.sha, req.oidc, req.now);
    if who.Ok? {
      GateDecides(cfg, db, team, who.value, Manager, db, Reader);
      if !Stranger(db, team, who.value) {
        var was, r := OneStanding(cfg, db, team, who.value);
        LetIn(cfg, db, req, who.value, was, r);
        assert Asks(cfg, db, req, team, who.value, was, r);
      }
    }
  }

  /** Nobody below manager restricts or opens a group, or gives or takes a grant. */
  lemma FlagsAndGrantsMoveByLeaders(cfg: Config, db: Db, req: Request, team: string, group: string, sub: string)
    requires !ByLeader(cfg, db, req, team)
    ensures SameAccess(Next(cfg, db, req).db, db, team, group, sub)
  {
    var who := Authenticate(cfg, db, req.sha, req.oidc, req.now);
    if who.Ok? {
      if !Gated(req.op) {
        UngatedKeepsAccess(cfg, db, who.value, req.now, req.op, team, group, sub);
      } else if req.op.team == team && (req.op.SetRestricted? || req.op.SetGrant? || req.op.RemoveGrant?) {
        RefusedKeepsAccess(cfg, db, req, team, group, sub);
      } else {
        GateFrame(cfg, db, who.value, req.op);
        var gate := GateOf(cfg, db, who.value, req.op);
        if gate.role.Ok? {
          HandlerKeepsAccess(gate.db, who.value, gate.role.value, req.now, req.op, team, group, sub);
        }
      }
    }
  }

  /** So a group closed to somebody stays closed over every history in which no leader of the team acts. */
  lemma {:induction false} ClosedStaysClosed(cfg: Config, db: Db, reqs: seq<Request>, team: string, group: string, sub: string)
    requires forall i :: 0 <= i < |reqs| ==> !ByLeader(cfg, Run(cfg, db, reqs[..i]), reqs[i], team)
    ensures SameAccess(Run(cfg, db, reqs), db, team, group, sub)
  {
    if reqs == [] {
    } else {
      var n := |reqs| - 1;
      var pre := reqs[..n];
      forall i | 0 <= i < n ensures pre[..i] == reqs[..i] && pre[i] == reqs[i] {}
      ClosedStaysClosed(cfg, db, pre, team, group, sub);
      FlagsAndGrantsMoveByLeaders(cfg, Run(cfg, db, pre), reqs[n], team, group, sub);
    }
  }
}
